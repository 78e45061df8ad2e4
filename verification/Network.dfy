/** A network of nodes that exchange route tables over a fixed graph of links. */
module Network {
  import opened Common
  import opened Routes

  /** `(j, i)`: what `j` broadcasts, `i` hears. */
  type Link = (nat, nat)

  /** A route table on its way, and the round in which it was sent. */
  datatype Snapshot = Snapshot(sent: nat, table: Table)

  /** `newest[l]` is one more than the latest round of which a table has come over `l`; rounds and stamps
      only record history. */
  datatype Net = Net(tables: seq<Table>, wires: map<Link, seq<Snapshot>>, newest: map<Link, nat>, round: nat)

  datatype Op =
    /** `send_route_table`, on one interface */
    | Send(link: Link)
    /** The `update_route` of `rip_monitor`, before the rest of its turn. */
    | Notice(link: Link, iface: int, kind: int)
    /** A turn of `rip_monitor`, on the table at place `at` of the wire, gone through in that order; `keep`
        leaves it there to be delivered again. */
    | Receive(link: Link, at: nat, keep: bool, iface: int, kind: int, order: seq<Route>)
    | Lose(link: Link, at: nat)
    /** The interface goes down or times out: `rtable_poison_iface`. */
    | Poison(node: nat, iface: int)
    /** Every link has delivered a table sent in this round, and the next begins. */
    | Tick

  /** Links join two different nodes, of `n`; the default route has none of their addresses. */
  ghost predicate Graph(links: set<Link>, n: nat, byDefault: int) {
    byDefault >= n && forall l :: l in links ==> l.0 < n && l.1 < n && l.0 != l.1
  }

  function Start(links: set<Link>, n: nat): Net {
    Net(seq(n, _ => map[]), map l | l in links :: [], map l | l in links :: 0, 0)
  }

  ghost predicate Shape(links: set<Link>, n: nat, net: Net) {
    |net.tables| == n && net.wires.Keys == links && net.newest.Keys == links
  }

  ghost predicate Enabled(links: set<Link>, n: nat, net: Net, op: Op)
    requires Shape(links, n, net)
  {
    match op
    case Send(l) => l in links
    case Notice(l, _, _) => l in links
    case Receive(l, at, _, _, _, order) =>
      l in links && at < |net.wires[l]| && Lists(order, net.wires[l][at].table)
    case Lose(l, at) => l in links && at < |net.wires[l]|
    case Poison(i, _) => i < n
    case Tick => forall l :: l in links ==> net.newest[l] > net.round
  }

  function Without<T>(s: seq<T>, at: nat): seq<T>
    requires at < |s|
  {
    s[..at] + s[at + 1..]
  }

  ghost function Do(links: set<Link>, n: nat, byDefault: int, net: Net, op: Op): (net': Net)
    requires Graph(links, n, byDefault) && Shape(links, n, net) && Enabled(links, n, net, op)
    ensures Shape(links, n, net')
  {
    match op
    case Send(l) =>
      net.(wires := net.wires[l := net.wires[l] + [Snapshot(net.round, net.tables[l.0])]])
    case Notice(l, iface, kind) =>
      net.(tables := net.tables[l.1 := Updated(byDefault, net.tables[l.1], Route(l.0, iface, l.0, kind, 1))])
    case Receive(l, at, keep, iface, kind, order) =>
      var t := Heard(byDefault, l.1, net.tables[l.1], Route(l.0, iface, l.0, kind, 1), order);
      Net(net.tables[l.1 := t],
          if keep then net.wires else net.wires[l := Without(net.wires[l], at)],
          net.newest[l := Max(net.newest[l], net.wires[l][at].sent + 1)],
          net.round)
    case Lose(l, at) => net.(wires := net.wires[l := Without(net.wires[l], at)])
    case Poison(i, iface) => net.(tables := net.tables[i := Poisoned(net.tables[i], iface)])
    case Tick => net.(round := net.round + 1)
  }

  /** What the network is after `ops`, from empty tables, if each can happen in turn. */
  ghost function After(links: set<Link>, n: nat, byDefault: int, ops: seq<Op>): (r: Option<Net>)
    requires Graph(links, n, byDefault)
    ensures r.Some? ==> Shape(links, n, r.value)
    decreases |ops|
  {
    if ops == [] then Some(Start(links, n)) else
    match After(links, n, byDefault, ops[..|ops| - 1])
    case None => None
    case Some(net) =>
      if Enabled(links, n, net, ops[|ops| - 1]) then Some(Do(links, n, byDefault, net, ops[|ops| - 1])) else None
  }

  ghost predicate Steady(op: Op) {
    !op.Poison? && (op.Receive? ==> op.at == 0 && !op.keep)
  }

  /** Each link delivers in order, though it may lose tables, and no interface goes down. */
  ghost predicate InOrder(ops: seq<Op>) {
    forall k :: 0 <= k < |ops| ==> Steady(ops[k])
  }

  // What one table heard does to a node's own.

  /** A table that node `self` of `n` may hold. */
  ghost predicate Sane(t: Table, self: nat, n: nat) {
    forall d :: d in t ==> t[d].addr == d && 0 <= d < n && d != self && 1 <= t[d].cost <= INFINITY
  }

  function Onward(t: Table, d: int): int {
    Min(CostOf(t, d) + 1, INFINITY)
  }

  /** At `d`, `t` has become `t'` on hearing `m` from `j`: what it had, or what `j` offers. */
  ghost predicate TookAt(t: Table, t': Table, j: nat, m: Table, d: int) {
    && (d in t ==> d in t')
    && (d in t' ==>
          || (d in t && t'[d].cost == t[d].cost && t'[d].nextHop == t[d].nextHop)
          || (t'[d].nextHop == j && t'[d].cost == if d == j then 1 else Onward(m, d)))
    && (d in t && d != j && t[d].nextHop != j ==> t'[d].cost <= t[d].cost)
  }

  ghost predicate Took(t: Table, t': Table, j: nat, m: Table) {
    forall d :: TookAt(t, t', j, m, d)
  }

  /** What `t'` gains by it. */
  ghost predicate LearnedAt(t': Table, self: nat, j: nat, m: Table, d: int) {
    d != self ==> CostOf(t', d) <= if d == j then 1 else Onward(m, d)
  }

  lemma UpdateTakes(byDefault: int, n: nat, self: nat, j: nat, t: Table, r: Route, m: Table)
    requires Sane(t, self, n) && byDefault >= n && j < n && j != self && r.addr == j && r.nextHop == j && r.cost == 1
    ensures var t' := Updated(byDefault, t, r); Sane(t', self, n) && Took(t, t', j, m) && CostOf(t', j) == 1
  {
  }

  lemma HearingTakes(byDefault: int, n: nat, self: nat, j: nat, t: Table, r: Route, m: Table, rs: seq<Route>, d: int)
    requires Sane(t, self, n) && Sane(m, j, n) && byDefault >= n && j < n && j != self
    requires r.addr == j && r.nextHop == j && r.cost == 1 && Lists(rs, m)
    ensures var t' := Heard(byDefault, self, t, r, rs);
      && (d in t' ==> t'[d].addr == d && 0 <= d < n && d != self && 1 <= t'[d].cost <= INFINITY)
      && TookAt(t, t', j, m, d) && LearnedAt(t', self, j, m, d)
  {
    HeardIsPointwise(byDefault, self, t, r, m, rs);
    var u := Updated(byDefault, t, r);
    assert u[j].addr == j && u[j].cost == 1 && u[j].nextHop == j;
  }

  /** When hearing a table makes a route dearer: just when the route goes by way of the neighbour that sent
      it and the table offers the destination for more. Tables that arrive in order never do. */
  lemma DearerIff(byDefault: int, n: nat, self: nat, j: nat, t: Table, r: Route, m: Table, rs: seq<Route>, d: int)
    requires Sane(t, self, n) && Sane(m, j, n) && byDefault >= n && j < n && j != self
    requires r.addr == j && r.nextHop == j && r.cost == 1 && Lists(rs, m)
    ensures CostOf(Heard(byDefault, self, t, r, rs), d) > CostOf(t, d)
       <==> d in t && d in m && t[d].nextHop == j && Onward(m, d) > t[d].cost
  {
    HeardIsPointwise(byDefault, self, t, r, m, rs);
    var u := Updated(byDefault, t, r);
    assert u[j].addr == j && u[j].cost == 1 && u[j].nextHop == j;
  }

  /** What a route that does not go by way of the sender becomes: it stays just as it is unless the table offers the
      destination for strictly less; at equal cost it is kept. */
  lemma KeptIff(byDefault: int, n: nat, self: nat, j: nat, t: Table, r: Route, m: Table, rs: seq<Route>, d: int)
    requires Sane(t, self, n) && Sane(m, j, n) && byDefault >= n && j < n && j != self
    requires r.addr == j && r.nextHop == j && r.cost == 1 && Lists(rs, m)
    requires d in t && d != j && t[d].nextHop != j
    ensures var t' := Heard(byDefault, self, t, r, rs);
      d in t' && (t'[d] == t[d] <==> !(d in m && Onward(m, d) < t[d].cost))
  {
    HeardIsPointwise(byDefault, self, t, r, m, rs);
    var u := Updated(byDefault, t, r);
    assert u[j].addr == j && u[j].cost == 1 && u[j].nextHop == j && u[d] == t[d];
  }

  // Soundness, whatever the links and interfaces do.

  /** `d` is `c` links from `i`. */
  ghost predicate Walk(links: set<Link>, i: nat, d: int, c: nat)
    decreases c
  {
    if c == 0 then i == d else exists j: nat :: (j, i) in links && Walk(links, j, d, c - 1)
  }

  /** A route below `INFINITY` is a walk of exactly its cost, over its next hop. */
  ghost predicate SoundAt(links: set<Link>, t: Table, self: nat, d: int) {
    d in t && 1 <= t[d].cost < INFINITY ==>
      t[d].nextHop >= 0 && (t[d].nextHop, self) in links && Walk(links, t[d].nextHop, d, t[d].cost - 1)
  }

  ghost predicate Sound(links: set<Link>, t: Table, self: nat, n: nat) {
    Sane(t, self, n) && forall d :: d in t ==> SoundAt(links, t, self, d)
  }

  lemma WalkFirst(links: set<Link>, i: nat, j: nat, d: int, c: nat)
    requires (j, i) in links && Walk(links, j, d, c)
    ensures Walk(links, i, d, c + 1)
  {
    assert (j, i) in links && Walk(links, j, d, (c + 1) - 1);
  }

  lemma TakingIsSound(links: set<Link>, n: nat, self: nat, j: nat, t: Table, t': Table, m: Table, d: int)
    requires (j, self) in links && Sound(links, t, self, n) && Sound(links, m, j, n)
    requires TookAt(t, t', j, m, d)
    ensures SoundAt(links, t', self, d)
  {
    if d in t' && 1 <= t'[d].cost < INFINITY && !(d in t && t'[d].cost == t[d].cost && t'[d].nextHop == t[d].nextHop) {
      if d == j {
        assert Walk(links, j, d, 0);
      } else {
        assert d in m && SoundAt(links, m, j, d);
        var c := m[d].cost;
        WalkFirst(links, j, m[d].nextHop, d, c - 1);
      }
    }
  }

  ghost predicate WireSound(links: set<Link>, wire: seq<Snapshot>, j: nat, n: nat) {
    forall k :: 0 <= k < |wire| ==> Sound(links, wire[k].table, j, n)
  }

  ghost predicate AllSound(links: set<Link>, n: nat, net: Net) {
    && Shape(links, n, net)
    && (forall i :: 0 <= i < n ==> Sound(links, net.tables[i], i, n))
    && (forall l :: l in links ==> WireSound(links, net.wires[l], l.0, n))
  }

  lemma StepKeepsSound(links: set<Link>, n: nat, byDefault: int, net: Net, op: Op)
    requires Graph(links, n, byDefault) && AllSound(links, n, net) && Enabled(links, n, net, op)
    ensures AllSound(links, n, Do(links, n, byDefault, net, op))
  {
    match op
    case Send(l) =>
      assert Sound(links, net.tables[l.0], l.0, n);
    case Notice(l, iface, kind) =>
      NoticeIsSound(links, n, byDefault, l, net.tables[l.1], Route(l.0, iface, l.0, kind, 1));
    case Receive(l, at, keep, iface, kind, order) =>
      assert WireSound(links, net.wires[l], l.0, n);
      HearingIsSound(links, n, byDefault, l, net.tables[l.1], Route(l.0, iface, l.0, kind, 1),
                     net.wires[l][at].table, order);
    case Lose(l, at) =>
    case Poison(i, iface) =>
      assert Sound(links, net.tables[i], i, n);
      PoisonIsSound(links, n, net.tables[i], i, iface);
    case Tick =>
  }

  /** A poisoned table claims less. */
  lemma PoisonIsSound(links: set<Link>, n: nat, t: Table, i: nat, iface: int)
    requires Sound(links, t, i, n)
    ensures Sound(links, Poisoned(t, iface), i, n)
  {
    var t' := Poisoned(t, iface);
    forall d | d in t'
      ensures SoundAt(links, t', i, d)
    {
      assert SoundAt(links, t, i, d);
    }
  }

  lemma NoticeIsSound(links: set<Link>, n: nat, byDefault: int, l: Link, t: Table, r: Route)
    requires Graph(links, n, byDefault) && l in links && Sound(links, t, l.1, n)
    requires r.addr == l.0 && r.nextHop == l.0 && r.cost == 1
    ensures Sound(links, Updated(byDefault, t, r), l.1, n)
  {
    var t' := Updated(byDefault, t, r);
    UpdateTakes(byDefault, n, l.1, l.0, t, r, map[]);
    forall d | d in t'
      ensures SoundAt(links, t', l.1, d)
    {
      TakingIsSound(links, n, l.1, l.0, t, t', map[], d);
    }
  }

  lemma HearingIsSound(links: set<Link>, n: nat, byDefault: int, l: Link, t: Table, r: Route, m: Table, rs: seq<Route>)
    requires Graph(links, n, byDefault) && l in links && Sound(links, t, l.1, n) && Sound(links, m, l.0, n)
    requires r.addr == l.0 && r.nextHop == l.0 && r.cost == 1 && Lists(rs, m)
    ensures Sound(links, Heard(byDefault, l.1, t, r, rs), l.1, n)
  {
    var t' := Heard(byDefault, l.1, t, r, rs);
    forall d | d in t'
      ensures t'[d].addr == d && 0 <= d < n && d != l.1 && 1 <= t'[d].cost <= INFINITY && SoundAt(links, t', l.1, d)
    {
      HearingTakes(byDefault, n, l.1, l.0, t, r, m, rs, d);
      TakingIsSound(links, n, l.1, l.0, t, t', m, d);
    }
  }

  lemma {:induction false} RunsAreSound(links: set<Link>, n: nat, byDefault: int, ops: seq<Op>)
    requires Graph(links, n, byDefault) && After(links, n, byDefault, ops).Some?
    ensures AllSound(links, n, After(links, n, byDefault, ops).value)
    decreases |ops|
  {
    if ops != [] {
      var before := ops[..|ops| - 1];
      RunsAreSound(links, n, byDefault, before);
      StepKeepsSound(links, n, byDefault, After(links, n, byDefault, before).value, ops[|ops| - 1]);
    }
  }

  /** In every run, even one in which tables come late, repeatedly and out of order, and interfaces go down, a
      cost `c` below
      `INFINITY` means a walk of exactly `c` links; no node ever has a route to itself. */
  lemma RoutesAreWalks(links: set<Link>, n: nat, byDefault: int, ops: seq<Op>, net: Net, i: nat, d: int)
    requires Graph(links, n, byDefault) && After(links, n, byDefault, ops) == Some(net) && i < n
    ensures i !in net.tables[i]
    ensures d in net.tables[i] && net.tables[i][d].cost < INFINITY ==>
      net.tables[i][d].cost >= 1 && Walk(links, i, d, net.tables[i][d].cost)
  {
    RunsAreSound(links, n, byDefault, ops);
    assert Sound(links, net.tables[i], i, n);
    RouteIsWalk(links, n, net.tables[i], i, d);
  }

  lemma RouteIsWalk(links: set<Link>, n: nat, t: Table, i: nat, d: int)
    requires Sound(links, t, i, n)
    ensures d in t && t[d].cost < INFINITY ==> t[d].cost >= 1 && Walk(links, i, d, t[d].cost)
  {
    if d in t && t[d].cost < INFINITY {
      assert SoundAt(links, t, i, d);
      WalkFirst(links, i, t[d].nextHop, d, t[d].cost - 1);
    }
  }

  // Loops and convergence, when each link delivers in order.

  ghost predicate BelowAt(t': Table, t: Table, d: int) {
    CostOf(t', d) <= CostOf(t, d)
  }

  /** Nowhere is `t'` dearer than `t`. */
  ghost predicate Below(t': Table, t: Table) {
    forall d :: BelowAt(t', t, d)
  }

  ghost predicate BackedAt(t: Table, j: nat, m: Table, d: int) {
    d in t && t[d].nextHop == j && d != j ==> Onward(m, d) <= t[d].cost
  }

  /** What `t` has by way of `j` is no cheaper than `m`, a table of `j`, offers. */
  ghost predicate Backed(t: Table, j: nat, m: Table) {
    forall d :: BackedAt(t, j, m, d)
  }

  ghost predicate InTurn(wire: seq<Snapshot>, a: int, b: int) {
    0 <= a < b < |wire| ==> Below(wire[b].table, wire[a].table)
  }

  ghost predicate Pending(wire: seq<Snapshot>, source: Table, t: Table, j: nat, a: int) {
    0 <= a < |wire| ==> Below(source, wire[a].table) && Backed(t, j, wire[a].table)
  }

  /** The tables on a wire get cheaper towards its source, and what the other end has by way of the source is
      no cheaper than any of them. */
  ghost predicate Linked(wire: seq<Snapshot>, source: Table, t: Table, j: nat) {
    && (forall a, b :: InTurn(wire, a, b))
    && (forall a :: Pending(wire, source, t, j, a))
    && Backed(t, j, source)
  }

  ghost predicate NearAt(links: set<Link>, t: Table, i: nat, k: nat, d: int, c: nat) {
    d != i && c <= k && c < INFINITY && Walk(links, i, d, c) ==> CostOf(t, d) <= c
  }

  /** Every destination at most `k` links from `i` costs `t` no more than that. */
  ghost predicate Near(links: set<Link>, t: Table, i: nat, k: nat) {
    forall d, c: nat :: NearAt(links, t, i, k, d, c)
  }

  ghost predicate InformedAt(links: set<Link>, t: Table, i: nat, j: nat, k: nat, d: int, c: nat) {
    d != i && d != j && c < k && c + 1 < INFINITY && Walk(links, j, d, c) ==> CostOf(t, d) <= c + 1
  }

  /** What hearing from `j` a table of round `k - 1` leaves `t` with. */
  ghost predicate Informed(links: set<Link>, t: Table, i: nat, j: nat, k: nat) {
    && (k > 0 ==> CostOf(t, j) <= 1)
    && forall d, c: nat :: InformedAt(links, t, i, j, k, d, c)
  }

  ghost predicate StampAt(links: set<Link>, wire: seq<Snapshot>, j: nat, a: int) {
    0 <= a < |wire| ==> Near(links, wire[a].table, j, wire[a].sent)
  }

  ghost predicate WireNear(links: set<Link>, wire: seq<Snapshot>, j: nat) {
    forall a :: StampAt(links, wire, j, a)
  }

  ghost predicate LinkWell(links: set<Link>, l: Link, wire: seq<Snapshot>, source: Table, t: Table, newest: nat) {
    && Linked(wire, source, t, l.0)
    && WireNear(links, wire, l.0)
    && Informed(links, t, l.1, l.0, newest)
  }

  ghost predicate WellAt(links: set<Link>, n: nat, net: Net, l: Link)
    requires Shape(links, n, net) && l in links && l.0 < n && l.1 < n
  {
    LinkWell(links, l, net.wires[l], net.tables[l.0], net.tables[l.1], net.newest[l])
  }

  ghost predicate AllWell(links: set<Link>, n: nat, byDefault: int, net: Net)
    requires Graph(links, n, byDefault)
  {
    && Shape(links, n, net)
    && (forall i :: 0 <= i < n ==> Near(links, net.tables[i], i, net.round))
    && (forall l :: l in links ==> WellAt(links, n, net, l))
  }

  /** Hearing a table never makes a route dearer: what it must change was no cheaper. */
  lemma TakingIsBelow(t: Table, t': Table, n: nat, self: nat, j: nat, m: Table)
    requires Took(t, t', j, m) && Backed(t, j, m) && Sane(t, self, n) && Sane(t', self, n)
    ensures Below(t', t)
  {
    forall d
      ensures BelowAt(t', t, d)
    {
      assert TookAt(t, t', j, m, d) && BackedAt(t, j, m, d);
    }
  }

  lemma BelowTrans(t'': Table, t': Table, t: Table)
    requires Below(t'', t') && Below(t', t)
    ensures Below(t'', t)
  {
    forall d
      ensures BelowAt(t'', t, d)
    {
      assert BelowAt(t'', t', d) && BelowAt(t', t, d);
    }
  }

  lemma BackedByBelow(t: Table, j: nat, m: Table, m': Table)
    requires Backed(t, j, m) && Below(m', m)
    ensures Backed(t, j, m')
  {
    forall d
      ensures BackedAt(t, j, m', d)
    {
      assert BackedAt(t, j, m, d) && BelowAt(m', m, d);
    }
  }

  /** Another link, or none: nothing new comes to be by way of its source. */
  lemma OtherTakes(t: Table, t': Table, j: nat, j': nat, m: Table, m': Table)
    requires Took(t, t', j, m) && Backed(t, j', m') && (j != j' || m == map[])
    ensures Backed(t', j', m')
  {
    forall d
      ensures BackedAt(t', j', m', d)
    {
      assert TookAt(t, t', j, m, d) && BackedAt(t, j', m', d);
    }
  }

  /** The link over which it came: what is still to come is no dearer. */
  lemma SameTakes(t: Table, t': Table, j: nat, m: Table, m': Table)
    requires Took(t, t', j, m) && Backed(t, j, m') && Below(m', m)
    ensures Backed(t', j, m')
  {
    forall d
      ensures BackedAt(t', j, m', d)
    {
      assert TookAt(t, t', j, m, d) && BackedAt(t, j, m', d) && BelowAt(m', m, d);
    }
  }

  lemma BelowStaysNear(links: set<Link>, t: Table, t': Table, i: nat, k: nat)
    requires Near(links, t, i, k) && Below(t', t)
    ensures Near(links, t', i, k)
  {
    forall d, c: nat
      ensures NearAt(links, t', i, k, d, c)
    {
      assert NearAt(links, t, i, k, d, c) && BelowAt(t', t, d);
    }
  }

  lemma BelowStaysInformed(links: set<Link>, t: Table, t': Table, i: nat, j: nat, k: nat)
    requires Informed(links, t, i, j, k) && Below(t', t)
    ensures Informed(links, t', i, j, k)
  {
    assert BelowAt(t', t, j);
    forall d, c: nat
      ensures InformedAt(links, t', i, j, k, d, c)
    {
      assert InformedAt(links, t, i, j, k, d, c) && BelowAt(t', t, d);
    }
  }

  lemma HearingInforms(links: set<Link>, t': Table, i: nat, j: nat, m: Table, k: nat)
    requires Near(links, m, j, k) && i != j && forall d :: LearnedAt(t', i, j, m, d)
    ensures Informed(links, t', i, j, k + 1)
  {
    assert LearnedAt(t', i, j, m, j);
    var next := k + 1;
    forall d, c: nat
      ensures InformedAt(links, t', i, j, next, d, c)
    {
      assert LearnedAt(t', i, j, m, d) && NearAt(links, m, j, k, d, c);
    }
  }

  /** A round in which every neighbour has been heard brings one more link near. */
  lemma RoundBringsNearer(links: set<Link>, t: Table, i: nat, k: nat)
    requires forall j :: (j, i) in links ==> Informed(links, t, i, j, k)
    ensures Near(links, t, i, k)
  {
    forall d, c: nat
      ensures NearAt(links, t, i, k, d, c)
    {
      if d != i && c <= k && c < INFINITY && Walk(links, i, d, c) {
        var j: nat :| (j, i) in links && Walk(links, j, d, c - 1);
        assert Informed(links, t, i, j, k) && InformedAt(links, t, i, j, k, d, c - 1);
      }
    }
  }

  lemma SentIsWell(links: set<Link>, l: Link, wire: seq<Snapshot>, source: Table, t: Table, newest: nat, round: nat)
    requires LinkWell(links, l, wire, source, t, newest) && Near(links, source, l.0, round)
    ensures LinkWell(links, l, wire + [Snapshot(round, source)], source, t, newest)
  {
    var wire' := wire + [Snapshot(round, source)];
    forall a, b
      ensures InTurn(wire', a, b)
    {
      assert InTurn(wire, a, b) && Pending(wire, source, t, l.0, a);
    }
    forall a
      ensures Pending(wire', source, t, l.0, a) && StampAt(links, wire', l.0, a)
    {
      assert Pending(wire, source, t, l.0, a) && StampAt(links, wire, l.0, a);
      if a == |wire| {
        assert forall d :: BelowAt(source, source, d);
      }
    }
  }

  /** The rest of a wire, when the table at `at` is taken or lost. */
  lemma LostIsWell(links: set<Link>, l: Link, wire: seq<Snapshot>, at: nat, source: Table, t: Table, newest: nat)
    requires LinkWell(links, l, wire, source, t, newest) && at < |wire|
    ensures LinkWell(links, l, Without(wire, at), source, t, newest)
  {
    var wire' := Without(wire, at);
    forall a, b
      ensures InTurn(wire', a, b)
    {
      assert InTurn(wire, if a < at then a else a + 1, if b < at then b else b + 1);
    }
    forall a
      ensures Pending(wire', source, t, l.0, a) && StampAt(links, wire', l.0, a)
    {
      var a' := if a < at then a else a + 1;
      assert Pending(wire, source, t, l.0, a') && StampAt(links, wire, l.0, a');
    }
  }

  lemma SourceStaysWell(links: set<Link>, l: Link, wire: seq<Snapshot>, source: Table, source': Table,
                        t: Table, newest: nat)
    requires LinkWell(links, l, wire, source, t, newest) && Below(source', source)
    ensures LinkWell(links, l, wire, source', t, newest)
  {
    forall a
      ensures Pending(wire, source', t, l.0, a)
    {
      assert Pending(wire, source, t, l.0, a);
      if 0 <= a < |wire| {
        BelowTrans(source', source, wire[a].table);
      }
    }
    BackedByBelow(t, l.0, source, source');
  }

  lemma OtherStaysWell(links: set<Link>, l: Link, wire: seq<Snapshot>, source: Table, t: Table, t': Table, newest: nat,
                       j: nat, m: Table)
    requires LinkWell(links, l, wire, source, t, newest) && Took(t, t', j, m) && Below(t', t)
    requires j != l.0 || m == map[]
    ensures LinkWell(links, l, wire, source, t', newest)
  {
    BelowStaysInformed(links, t, t', l.1, l.0, newest);
    forall a
      ensures Pending(wire, source, t', l.0, a)
    {
      assert Pending(wire, source, t, l.0, a);
      if 0 <= a < |wire| {
        OtherTakes(t, t', j, l.0, m, wire[a].table);
      }
    }
    OtherTakes(t, t', j, l.0, m, source);
  }

  lemma ReceivedIsWell(links: set<Link>, l: Link, wire: seq<Snapshot>, source: Table, t: Table, t': Table, newest: nat)
    requires LinkWell(links, l, wire, source, t, newest) && wire != [] && l.0 != l.1
    requires Took(t, t', l.0, wire[0].table) && Below(t', t)
    requires forall d :: LearnedAt(t', l.1, l.0, wire[0].table, d)
    ensures LinkWell(links, l, Without(wire, 0), source, t', Max(newest, wire[0].sent + 1))
  {
    var m := wire[0].table;
    LostIsWell(links, l, wire, 0, source, t, newest);
    BelowStaysInformed(links, t, t', l.1, l.0, newest);
    assert StampAt(links, wire, l.0, 0) && Pending(wire, source, t, l.0, 0);
    HearingInforms(links, t', l.1, l.0, m, wire[0].sent);
    SameTakes(t, t', l.0, m, source);
    var rest := Without(wire, 0);
    forall a
      ensures Pending(rest, source, t', l.0, a)
    {
      assert Pending(rest, source, t, l.0, a) && InTurn(wire, 0, a + 1);
      if 0 <= a < |rest| {
        SameTakes(t, t', l.0, m, rest[a].table);
      }
    }
  }

  /** One wire changes, and no table. */
  lemma WireStaysWell(links: set<Link>, n: nat, byDefault: int, net: Net, l: Link, wire: seq<Snapshot>)
    requires Graph(links, n, byDefault) && AllWell(links, n, byDefault, net) && l in links
    requires LinkWell(links, l, wire, net.tables[l.0], net.tables[l.1], net.newest[l])
    ensures AllWell(links, n, byDefault, net.(wires := net.wires[l := wire]))
  {
    var net' := net.(wires := net.wires[l := wire]);
    forall k | k in links
      ensures WellAt(links, n, net', k)
    {
      assert WellAt(links, n, net, k);
    }
  }

  /** A link whose source or end is the node that hears `m` over `l`. */
  lemma LinkBesideStaysWell(links: set<Link>, n: nat, net: Net, net': Net, l: Link, k: Link, m: Table)
    requires Shape(links, n, net) && Shape(links, n, net') && l in links && k in links && k != l
    requires l.0 < n && l.1 < n && k.0 < n && k.1 < n && k.0 != k.1
    requires net'.tables == net.tables[l.1 := net'.tables[l.1]]
    requires net'.wires[k] == net.wires[k] && net'.newest[k] == net.newest[k] && WellAt(links, n, net, k)
    requires Took(net.tables[l.1], net'.tables[l.1], l.0, m) && Below(net'.tables[l.1], net.tables[l.1])
    ensures WellAt(links, n, net', k)
  {
    var t, t' := net.tables[l.1], net'.tables[l.1];
    if k.1 == l.1 {
      OtherStaysWell(links, k, net.wires[k], net.tables[k.0], t, t', net.newest[k], l.0, m);
    } else if k.0 == l.1 {
      SourceStaysWell(links, k, net.wires[k], t, t', net.tables[k.1], net.newest[k]);
    }
  }

  lemma LinksBesideStayWell(links: set<Link>, n: nat, byDefault: int, net: Net, net': Net, l: Link, m: Table)
    requires Graph(links, n, byDefault) && Shape(links, n, net) && Shape(links, n, net') && l in links
    requires forall k :: k in links ==> WellAt(links, n, net, k)
    requires net'.tables == net.tables[l.1 := net'.tables[l.1]]
    requires forall k :: k in links && k != l ==> net'.wires[k] == net.wires[k] && net'.newest[k] == net.newest[k]
    requires Took(net.tables[l.1], net'.tables[l.1], l.0, m) && Below(net'.tables[l.1], net.tables[l.1])
    ensures forall k :: k in links && k != l ==> WellAt(links, n, net', k)
  {
    forall k | k in links && k != l
      ensures WellAt(links, n, net', k)
    {
      assert WellAt(links, n, net, k);
      LinkBesideStaysWell(links, n, net, net', l, k, m);
    }
  }

  /** The table at the end of one link changes, as it does on hearing `m` over it. */
  lemma TableStaysWell(links: set<Link>, n: nat, byDefault: int, net: Net, net': Net, l: Link, m: Table)
    requires Graph(links, n, byDefault) && AllWell(links, n, byDefault, net) && Shape(links, n, net') && l in links
    requires net'.tables == net.tables[l.1 := net'.tables[l.1]] && net'.round == net.round
    requires forall k :: k in links && k != l ==> net'.wires[k] == net.wires[k] && net'.newest[k] == net.newest[k]
    requires Took(net.tables[l.1], net'.tables[l.1], l.0, m) && Below(net'.tables[l.1], net.tables[l.1])
    requires WellAt(links, n, net', l)
    ensures AllWell(links, n, byDefault, net')
  {
    BelowStaysNear(links, net.tables[l.1], net'.tables[l.1], l.1, net.round);
    LinksBesideStayWell(links, n, byDefault, net, net', l, m);
  }

  lemma InformedSince(links: set<Link>, t: Table, i: nat, j: nat, k: nat, k': nat)
    requires Informed(links, t, i, j, k') && k <= k'
    ensures Informed(links, t, i, j, k)
  {
    forall d, c: nat
      ensures InformedAt(links, t, i, j, k, d, c)
    {
      assert InformedAt(links, t, i, j, k', d, c);
    }
  }

  lemma NodeBringsNearer(links: set<Link>, n: nat, net: Net, i: nat)
    requires Shape(links, n, net) && i < n
    requires forall l :: l in links ==> l.0 < n && l.1 < n && WellAt(links, n, net, l) && net.newest[l] > net.round
    ensures Near(links, net.tables[i], i, net.round + 1)
  {
    forall j: nat | (j, i) in links
      ensures Informed(links, net.tables[i], i, j, net.round + 1)
    {
      var l: Link := (j, i);
      assert l in links && WellAt(links, n, net, l);
      InformedSince(links, net.tables[i], i, j, net.round + 1, net.newest[l]);
    }
    RoundBringsNearer(links, net.tables[i], i, net.round + 1);
  }

  lemma TickStaysWell(links: set<Link>, n: nat, byDefault: int, net: Net, net': Net)
    requires Graph(links, n, byDefault) && AllWell(links, n, byDefault, net)
    requires forall l :: l in links ==> net.newest[l] > net.round
    requires net' == net.(round := net.round + 1)
    ensures AllWell(links, n, byDefault, net')
  {
    forall l | l in links
      ensures WellAt(links, n, net', l)
    {
      assert WellAt(links, n, net, l);
    }
    forall i | 0 <= i < n
      ensures Near(links, net'.tables[i], i, net'.round)
    {
      NodeBringsNearer(links, n, net, i);
    }
  }

  lemma NoticeOnLink(links: set<Link>, n: nat, byDefault: int, l: Link, wire: seq<Snapshot>, source: Table, t: Table,
                     newest: nat, r: Route, t': Table)
    requires Graph(links, n, byDefault) && l in links && Sound(links, t, l.1, n)
    requires LinkWell(links, l, wire, source, t, newest)
    requires r.addr == l.0 && r.nextHop == l.0 && r.cost == 1 && t' == Updated(byDefault, t, r)
    ensures LinkWell(links, l, wire, source, t', newest) && Took(t, t', l.0, source) && Below(t', t)
  {
    UpdateTakes(byDefault, n, l.1, l.0, t, r, source);
    UpdateTakes(byDefault, n, l.1, l.0, t, r, map[]);
    TakingIsBelow(t, t', n, l.1, l.0, source);
    OtherStaysWell(links, l, wire, source, t, t', newest, l.0, map[]);
  }

  lemma ReceiveOnLink(links: set<Link>, n: nat, byDefault: int, l: Link, wire: seq<Snapshot>, source: Table, t: Table,
                      newest: nat, r: Route, order: seq<Route>, t': Table)
    requires Graph(links, n, byDefault) && l in links && Sound(links, t, l.1, n)
    requires LinkWell(links, l, wire, source, t, newest)
    requires wire != [] && Sound(links, wire[0].table, l.0, n) && Lists(order, wire[0].table)
    requires r.addr == l.0 && r.nextHop == l.0 && r.cost == 1 && t' == Heard(byDefault, l.1, t, r, order)
    ensures LinkWell(links, l, Without(wire, 0), source, t', Max(newest, wire[0].sent + 1))
    ensures Took(t, t', l.0, wire[0].table) && Below(t', t)
  {
    var m := wire[0].table;
    HearingIsSound(links, n, byDefault, l, t, r, m, order);
    forall d
      ensures TookAt(t, t', l.0, m, d) && LearnedAt(t', l.1, l.0, m, d)
    {
      HearingTakes(byDefault, n, l.1, l.0, t, r, m, order, d);
    }
    assert Pending(wire, source, t, l.0, 0);
    TakingIsBelow(t, t', n, l.1, l.0, m);
    ReceivedIsWell(links, l, wire, source, t, t', newest);
  }

  lemma NoticeStaysWell(links: set<Link>, n: nat, byDefault: int, net: Net, net': Net, l: Link, r: Route)
    requires Graph(links, n, byDefault) && AllSound(links, n, net) && AllWell(links, n, byDefault, net) && l in links
    requires r.addr == l.0 && r.nextHop == l.0 && r.cost == 1
    requires net' == net.(tables := net.tables[l.1 := Updated(byDefault, net.tables[l.1], r)])
    ensures AllWell(links, n, byDefault, net')
  {
    var t, t' := net.tables[l.1], net'.tables[l.1];
    assert Took(t, t', l.0, net.tables[l.0]) && Below(t', t) && WellAt(links, n, net', l) by {
      assert Sound(links, t, l.1, n) && WellAt(links, n, net, l);
      NoticeOnLink(links, n, byDefault, l, net.wires[l], net.tables[l.0], t, net.newest[l], r, t');
    }
    TableStaysWell(links, n, byDefault, net, net', l, net.tables[l.0]);
  }

  /** What a receipt does to the link itself and to the table at its end. */
  lemma ReceiptOnLink(links: set<Link>, n: nat, byDefault: int, net: Net, l: Link, r: Route, order: seq<Route>,
                      t': Table)
    requires Graph(links, n, byDefault) && AllSound(links, n, net) && l in links && WellAt(links, n, net, l)
    requires r.addr == l.0 && r.nextHop == l.0 && r.cost == 1
    requires net.wires[l] != [] && Lists(order, net.wires[l][0].table)
    requires t' == Heard(byDefault, l.1, net.tables[l.1], r, order)
    ensures LinkWell(links, l, Without(net.wires[l], 0), net.tables[l.0], t',
                     Max(net.newest[l], net.wires[l][0].sent + 1))
    ensures Took(net.tables[l.1], t', l.0, net.wires[l][0].table) && Below(t', net.tables[l.1])
  {
    var wire := net.wires[l];
    assert WireSound(links, wire, l.0, n) && Sound(links, net.tables[l.1], l.1, n);
    assert Sound(links, wire[0].table, l.0, n);
    ReceiveOnLink(links, n, byDefault, l, wire, net.tables[l.0], net.tables[l.1], net.newest[l], r, order, t');
  }

  lemma ReceiveStaysWell(links: set<Link>, n: nat, byDefault: int, net: Net, net': Net, l: Link, r: Route,
                         order: seq<Route>)
    requires Graph(links, n, byDefault) && AllSound(links, n, net) && AllWell(links, n, byDefault, net) && l in links
    requires r.addr == l.0 && r.nextHop == l.0 && r.cost == 1
    requires net.wires[l] != [] && Lists(order, net.wires[l][0].table) && Shape(links, n, net')
    requires net'.tables == net.tables[l.1 := net'.tables[l.1]] && net'.round == net.round
    requires net'.tables[l.1] == Heard(byDefault, l.1, net.tables[l.1], r, order)
    requires net'.wires == net.wires[l := Without(net.wires[l], 0)]
    requires net'.newest == net.newest[l := Max(net.newest[l], net.wires[l][0].sent + 1)]
    ensures AllWell(links, n, byDefault, net')
  {
    assert WellAt(links, n, net, l);
    ReceiptOnLink(links, n, byDefault, net, l, r, order, net'.tables[l.1]);
    TableStaysWell(links, n, byDefault, net, net', l, net.wires[l][0].table);
  }

  lemma WireOpStaysWell(links: set<Link>, n: nat, byDefault: int, net: Net, op: Op, net': Net)
    requires Graph(links, n, byDefault) && AllWell(links, n, byDefault, net)
    requires Enabled(links, n, net, op) && (op.Send? || op.Lose?)
    requires net' == Do(links, n, byDefault, net, op)
    ensures AllWell(links, n, byDefault, net')
  {
    var l := op.link;
    assert WellAt(links, n, net, l);
    if op.Send? {
      SentIsWell(links, l, net.wires[l], net.tables[l.0], net.tables[l.1], net.newest[l], net.round);
      WireStaysWell(links, n, byDefault, net, l, net.wires[l] + [Snapshot(net.round, net.tables[l.0])]);
    } else {
      LostIsWell(links, l, net.wires[l], op.at, net.tables[l.0], net.tables[l.1], net.newest[l]);
      WireStaysWell(links, n, byDefault, net, l, Without(net.wires[l], op.at));
    }
  }

  lemma NoticeOpStaysWell(links: set<Link>, n: nat, byDefault: int, net: Net, op: Op, net': Net)
    requires Graph(links, n, byDefault) && AllSound(links, n, net) && AllWell(links, n, byDefault, net)
    requires Enabled(links, n, net, op) && op.Notice? && net' == Do(links, n, byDefault, net, op)
    ensures AllWell(links, n, byDefault, net')
  {
    NoticeStaysWell(links, n, byDefault, net, net', op.link, Route(op.link.0, op.iface, op.link.0, op.kind, 1));
  }

  /** What receiving the oldest table on a wire does. */
  ghost predicate Received(links: set<Link>, n: nat, byDefault: int, net: Net, op: Op, net': Net)
    requires Shape(links, n, net) && op.Receive? && (forall l :: l in links ==> l.1 < n)
  {
    var l := op.link;
    && l in links && net.wires[l] != [] && Lists(op.order, net.wires[l][0].table) && Shape(links, n, net')
    && net'.tables == net.tables[l.1 := net'.tables[l.1]] && net'.round == net.round
    && net'.tables[l.1] == Heard(byDefault, l.1, net.tables[l.1], Route(l.0, op.iface, l.0, op.kind, 1), op.order)
    && net'.wires == net.wires[l := Without(net.wires[l], 0)]
    && net'.newest == net.newest[l := Max(net.newest[l], net.wires[l][0].sent + 1)]
  }

  lemma ReceiveOpDoes(links: set<Link>, n: nat, byDefault: int, net: Net, op: Op, net': Net)
    requires Graph(links, n, byDefault) && Shape(links, n, net)
    requires Enabled(links, n, net, op) && op.Receive? && op.at == 0 && !op.keep
    requires net' == Do(links, n, byDefault, net, op)
    ensures Received(links, n, byDefault, net, op, net')
  {
  }

  lemma ReceivedStaysWell(links: set<Link>, n: nat, byDefault: int, net: Net, op: Op, net': Net)
    requires Graph(links, n, byDefault) && AllSound(links, n, net) && AllWell(links, n, byDefault, net)
    requires op.Receive? && Received(links, n, byDefault, net, op, net')
    ensures AllWell(links, n, byDefault, net')
  {
    var l := op.link;
    ReceiveStaysWell(links, n, byDefault, net, net', l, Route(l.0, op.iface, l.0, op.kind, 1), op.order);
  }

  lemma ReceiveOpStaysWell(links: set<Link>, n: nat, byDefault: int, net: Net, op: Op, net': Net)
    requires Graph(links, n, byDefault) && AllSound(links, n, net) && AllWell(links, n, byDefault, net)
    requires Enabled(links, n, net, op) && op.Receive? && op.at == 0 && !op.keep
    requires net' == Do(links, n, byDefault, net, op)
    ensures AllWell(links, n, byDefault, net')
  {
    ReceiveOpDoes(links, n, byDefault, net, op, net');
    ReceivedStaysWell(links, n, byDefault, net, op, net');
  }

  lemma TickOpStaysWell(links: set<Link>, n: nat, byDefault: int, net: Net, op: Op, net': Net)
    requires Graph(links, n, byDefault) && AllWell(links, n, byDefault, net)
    requires Enabled(links, n, net, op) && op.Tick? && net' == Do(links, n, byDefault, net, op)
    ensures AllWell(links, n, byDefault, net')
  {
    TickStaysWell(links, n, byDefault, net, net');
  }

  lemma StepStaysWell(links: set<Link>, n: nat, byDefault: int, net: Net, op: Op, net': Net)
    requires Graph(links, n, byDefault) && AllSound(links, n, net) && AllWell(links, n, byDefault, net)
    requires Enabled(links, n, net, op) && Steady(op)
    requires net' == Do(links, n, byDefault, net, op)
    ensures AllWell(links, n, byDefault, net')
  {
    if op.Tick? {
      TickOpStaysWell(links, n, byDefault, net, op, net');
    } else if op.Notice? {
      NoticeOpStaysWell(links, n, byDefault, net, op, net');
    } else if op.Receive? {
      ReceiveOpStaysWell(links, n, byDefault, net, op, net');
    } else {
      WireOpStaysWell(links, n, byDefault, net, op, net');
    }
  }

  lemma StartIsWell(links: set<Link>, n: nat, byDefault: int, net: Net)
    requires Graph(links, n, byDefault) && net == Start(links, n)
    ensures AllWell(links, n, byDefault, net)
  {
  }

  lemma {:induction false} RunsAreWell(links: set<Link>, n: nat, byDefault: int, ops: seq<Op>, net: Net)
    requires Graph(links, n, byDefault) && InOrder(ops) && After(links, n, byDefault, ops) == Some(net)
    ensures AllSound(links, n, net) && AllWell(links, n, byDefault, net)
    decreases |ops|
  {
    RunsAreSound(links, n, byDefault, ops);
    if ops == [] {
      StartIsWell(links, n, byDefault, net);
    } else {
      var before, op := ops[..|ops| - 1], ops[|ops| - 1];
      var was := After(links, n, byDefault, before).value;
      RunsAreWell(links, n, byDefault, before, was);
      StepStaysWell(links, n, byDefault, was, op, net);
    }
  }

  /** No step ever makes a route dearer. */
  lemma CostsNeverRise(links: set<Link>, n: nat, byDefault: int, ops: seq<Op>, op: Op, net: Net, net': Net,
                       i: nat, d: int)
    requires Graph(links, n, byDefault) && InOrder(ops + [op]) && i < n
    requires After(links, n, byDefault, ops) == Some(net) && After(links, n, byDefault, ops + [op]) == Some(net')
    ensures CostOf(net'.tables[i], d) <= CostOf(net.tables[i], d)
  {
    assert (ops + [op])[..|ops + [op]| - 1] == ops;
    assert forall k :: 0 <= k < |ops| ==> (ops + [op])[k] == ops[k];
    assert (ops + [op])[|ops|] == op;
    RunsAreWell(links, n, byDefault, ops, net);
    if (op.Notice? || op.Receive?) && op.link.1 == i {
      StepIsBelow(links, n, byDefault, net, op, net');
      assert BelowAt(net'.tables[i], net.tables[i], d);
    } else {
      OthersStay(links, n, byDefault, net, op, net', i);
    }
  }

  /** Short of poisoning, only hearing changes a table, and only that of the node that hears. */
  lemma OthersStay(links: set<Link>, n: nat, byDefault: int, net: Net, op: Op, net': Net, i: nat)
    requires Graph(links, n, byDefault) && Shape(links, n, net) && Enabled(links, n, net, op) && i < n && !op.Poison?
    requires !((op.Notice? || op.Receive?) && op.link.1 == i) && net' == Do(links, n, byDefault, net, op)
    ensures net'.tables[i] == net.tables[i]
  {
  }

  lemma StepIsBelow(links: set<Link>, n: nat, byDefault: int, net: Net, op: Op, net': Net)
    requires Graph(links, n, byDefault) && AllSound(links, n, net) && AllWell(links, n, byDefault, net)
    requires Enabled(links, n, net, op) && (op.Notice? || (op.Receive? && op.at == 0 && !op.keep))
    requires net' == Do(links, n, byDefault, net, op)
    ensures Below(net'.tables[op.link.1], net.tables[op.link.1])
  {
    var l := op.link;
    var r := Route(l.0, op.iface, l.0, op.kind, 1);
    var t, wire := net.tables[l.1], net.wires[l];
    assert Sound(links, t, l.1, n) && WellAt(links, n, net, l) && WireSound(links, wire, l.0, n);
    if op.Notice? {
      NoticeOnLink(links, n, byDefault, l, wire, net.tables[l.0], t, net.newest[l], r, net'.tables[l.1]);
    } else {
      ReceiveOnLink(links, n, byDefault, l, wire, net.tables[l.0], t, net.newest[l], r, op.order, net'.tables[l.1]);
    }
  }

  /** The next hop of a route is a neighbour, and is the destination or holds a strictly cheaper route to it. */
  lemma NextHopIsCloser(links: set<Link>, n: nat, byDefault: int, ops: seq<Op>, net: Net, i: nat, d: int)
    requires Graph(links, n, byDefault) && InOrder(ops) && After(links, n, byDefault, ops) == Some(net) && i < n
    requires d in net.tables[i] && net.tables[i][d].cost < INFINITY
    ensures var j := net.tables[i][d].nextHop;
      j >= 0 && (j, i) in links && (j == d || CostOf(net.tables[j], d) < net.tables[i][d].cost)
  {
    RunsAreWell(links, n, byDefault, ops, net);
    var t := net.tables[i];
    assert Sound(links, t, i, n) && SoundAt(links, t, i, d);
    var l: Link := (t[d].nextHop, i);
    assert WellAt(links, n, net, l);
    assert BackedAt(t, l.0, net.tables[l.0], d);
  }

  /** Following next hops from `i` arrives at `d` within `k` hops. */
  ghost predicate Arrives(tables: seq<Table>, i: int, d: int, k: int)
    decreases k
  {
    i == d || (k > 0 && 0 <= i < |tables| && d in tables[i] && Arrives(tables, tables[i][d].nextHop, d, k - 1))
  }

  /** There are no loops: following next hops arrives, within as many hops as the route costs. */
  lemma {:induction false} HopsArrive(links: set<Link>, n: nat, byDefault: int, ops: seq<Op>, net: Net, i: nat,
                                      d: int, k: int)
    requires Graph(links, n, byDefault) && InOrder(ops) && After(links, n, byDefault, ops) == Some(net) && i < n
    requires CostOf(net.tables[i], d) < INFINITY && CostOf(net.tables[i], d) <= k
    ensures Arrives(net.tables, i, d, k)
    decreases CostOf(net.tables[i], d) + INFINITY
  {
    RoutesAreWalks(links, n, byDefault, ops, net, i, d);
    NextHopIsCloser(links, n, byDefault, ops, net, i, d);
    var j := net.tables[i][d].nextHop;
    if j != d {
      HopsArrive(links, n, byDefault, ops, net, j, d, k - 1);
    }
  }

  /** `d` is `c` links from `i`, and no fewer. */
  ghost predicate Distance(links: set<Link>, i: nat, d: int, c: nat) {
    Walk(links, i, d, c) && forall c': nat :: c' < c ==> !Walk(links, i, d, c')
  }

  /** After `k` rounds, in each of which every link delivered a table of that round, every destination at
      most `k` links away, and nearer than `INFINITY`, costs its distance. */
  lemma TablesConverge(links: set<Link>, n: nat, byDefault: int, ops: seq<Op>, net: Net, i: nat, d: int, c: nat)
    requires Graph(links, n, byDefault) && InOrder(ops) && After(links, n, byDefault, ops) == Some(net) && i < n
    requires Distance(links, i, d, c) && 0 < c <= net.round && c < INFINITY
    ensures CostOf(net.tables[i], d) == c
  {
    RunsAreWell(links, n, byDefault, ops, net);
    assert Near(links, net.tables[i], i, net.round) && NearAt(links, net.tables[i], i, net.round, d, c);
    assert i != d by {
      assert !Walk(links, i, d, 0);
    }
    RoutesAreWalks(links, n, byDefault, ops, net, i, d);
  }

  /** `d` is fewer than `INFINITY` links from `i`. */
  ghost predicate InReach(links: set<Link>, i: nat, d: nat) {
    exists c: nat :: c < INFINITY && Walk(links, i, d, c)
  }

  lemma NearCostsLess(links: set<Link>, t: Table, i: nat, d: nat, k: nat)
    requires Near(links, t, i, k) && k >= INFINITY - 1 && d != i && InReach(links, i, d)
    ensures CostOf(t, d) < INFINITY
  {
    var c: nat :| c < INFINITY && Walk(links, i, d, c);
    assert NearAt(links, t, i, k, d, c);
  }

  lemma LookupIsByCost(byDefault: int, n: nat, t: Table, self: nat, d: nat)
    requires Sane(t, self, n) && byDefault >= n
    ensures LookupRoute(byDefault, t, d).Some? <==> CostOf(t, d) < INFINITY
  {
  }

  /** After fifteen rounds `lookup_route` finds a route to just those nodes that are at most fifteen links
      away. */
  lemma LookupFindsTheNear(links: set<Link>, n: nat, byDefault: int, ops: seq<Op>, net: Net, i: nat, d: nat)
    requires Graph(links, n, byDefault) && InOrder(ops) && After(links, n, byDefault, ops) == Some(net) && i < n
    requires net.round >= INFINITY - 1 && d != i
    ensures LookupRoute(byDefault, net.tables[i], d).Some? <==> InReach(links, i, d)
  {
    RoutesAreWalks(links, n, byDefault, ops, net, i, d);
    var t := net.tables[i];
    assert Sane(t, i, n) && Near(links, t, i, net.round) by {
      RunsAreWell(links, n, byDefault, ops, net);
      assert Sound(links, t, i, n);
    }
    LookupIsByCost(byDefault, n, t, i, d);
    if InReach(links, i, d) {
      NearCostsLess(links, t, i, d, net.round);
    }
  }
}
