/** What becomes of the routes when one table overtakes another on a link: the hypothesis that links keep
    the order is needed, on every graph with a short and a longer way to some destination. */
module Overtaking {
  import opened Common
  import opened Routes
  import opened Network

  ghost predicate Reaches(links: set<Link>, n: nat, byDefault: int, ops: seq<Op>, net: Net) {
    Graph(links, n, byDefault) && After(links, n, byDefault, ops) == Some(net)
  }

  /** The route to `d` goes by way of `hop`, at that cost. */
  ghost predicate Via(t: Table, d: int, hop: int, cost: int) {
    d in t && t[d].nextHop == hop && t[d].cost == cost
  }

  lemma Goes(links: set<Link>, n: nat, byDefault: int, ops: seq<Op>, net: Net, op: Op, net': Net)
    requires Reaches(links, n, byDefault, ops, net) && Enabled(links, n, net, op)
    requires net' == Do(links, n, byDefault, net, op)
    ensures Reaches(links, n, byDefault, ops + [op], net')
  {
    assert (ops + [op])[..|ops + [op]| - 1] == ops;
  }

  // One step each, in terms of the tables and the wires

  lemma Notices(links: set<Link>, n: nat, byDefault: int, ops: seq<Op>, net: Net, l: Link)
    returns (ops': seq<Op>, net': Net)
    requires Reaches(links, n, byDefault, ops, net) && l in links
    ensures Reaches(links, n, byDefault, ops', net') && l.0 < n && l.1 < n && |net.tables| == n
    ensures net'.wires == net.wires && net'.tables == net.tables[l.1 := net'.tables[l.1]]
    ensures Via(net'.tables[l.1], l.0, l.0, 1)
  {
    RunsAreSound(links, n, byDefault, ops);
    var t := net.tables[l.1];
    assert Sound(links, t, l.1, n);
    UpdateTakes(byDefault, n, l.1, l.0, t, Route(l.0, 0, l.0, 0, 1), map[]);
    ops', net' := ops + [Notice(l, 0, 0)], Do(links, n, byDefault, net, Notice(l, 0, 0));
    Goes(links, n, byDefault, ops, net, Notice(l, 0, 0), net');
  }

  lemma Sends(links: set<Link>, n: nat, byDefault: int, ops: seq<Op>, net: Net, l: Link)
    returns (ops': seq<Op>, net': Net)
    requires Reaches(links, n, byDefault, ops, net) && l in links
    ensures Reaches(links, n, byDefault, ops', net') && l.0 < n && |net.tables| == n && l in net.wires
    ensures net'.tables == net.tables
    ensures net'.wires == net.wires[l := net.wires[l] + [Snapshot(net.round, net.tables[l.0])]]
  {
    ops', net' := ops + [Send(l)], Do(links, n, byDefault, net, Send(l));
    Goes(links, n, byDefault, ops, net, Send(l), net');
  }

  /** A route that goes by way of the sender, or that was missing, is what the received table makes it. */
  lemma Receives(links: set<Link>, n: nat, byDefault: int, ops: seq<Op>, net: Net, l: Link, at: nat, d: nat,
                 hop: int, cost: int)
    returns (ops': seq<Op>, net': Net)
    requires Reaches(links, n, byDefault, ops, net) && l in links && l in net.wires && at < |net.wires[l]|
    requires Via(net.wires[l][at].table, d, hop, cost) && cost + 1 <= INFINITY
    requires l.1 < |net.tables| && (d in net.tables[l.1] ==> net.tables[l.1][d].nextHop == l.0)
    requires d != l.1
    ensures Reaches(links, n, byDefault, ops', net') && l.1 < n && |net.tables| == n
    ensures |ops'| == |ops| + 1 && ops'[..|ops|] == ops
    ensures net'.wires == net.wires[l := Without(net.wires[l], at)]
    ensures net'.tables == net.tables[l.1 := net'.tables[l.1]]
    ensures Via(net'.tables[l.1], d, l.0, cost + 1)
  {
    RunsAreSound(links, n, byDefault, ops);
    var t, m := net.tables[l.1], net.wires[l][at].table;
    assert WireSound(links, net.wires[l], l.0, n) && Sound(links, t, l.1, n) && Sound(links, m, l.0, n);
    var rs := ListingExists(m);
    var r := Route(l.0, 0, l.0, 0, 1);
    MustTake(byDefault, n, l.1, l.0, t, r, m, rs, d);
    var op := Receive(l, at, false, 0, 0, rs);
    ops', net' := ops + [op], Do(links, n, byDefault, net, op);
    Goes(links, n, byDefault, ops, net, op, net');
  }

  lemma MustTake(byDefault: int, n: nat, self: nat, j: nat, t: Table, r: Route, m: Table, rs: seq<Route>, d: nat)
    requires Sane(t, self, n) && Sane(m, j, n) && byDefault >= n && j < n && j != self && d != self
    requires r.addr == j && r.nextHop == j && r.cost == 1 && Lists(rs, m)
    requires d in m && (d in t ==> t[d].nextHop == j)
    ensures Via(Heard(byDefault, self, t, r, rs), d, j, Onward(m, d))
  {
    HeardIsPointwise(byDefault, self, t, r, m, rs);
    var u := Updated(byDefault, t, r);
    assert u[j].addr == j && u[j].cost == 1 && u[j].nextHop == j;
  }

  /** Five different nodes: `j` hears `d` itself and, through `x`, from further away; `i` hears `j`, and `k`
      hears `i`. */
  ghost predicate Diamond(links: set<Link>, d: nat, x: nat, j: nat, i: nat, k: nat) {
    && {(d, x), (x, j), (d, j), (j, i), (i, k)} <= links
    && d != x && d != j && d != i && d != k && x != j && x != i && x != k && j != i && j != k && i != k
  }

  /** Nothing but these wires carries anything, and no node but these has heard anything. */
  ghost predicate Idle(net: Net, i: nat, k: nat, ji: seq<Snapshot>, j: nat) {
    && i < |net.tables| && k < |net.tables| && j < |net.tables|
    && (j, i) in net.wires && (i, k) in net.wires
    && net.wires[(j, i)] == ji && net.wires[(i, k)] == []
    && net.tables[i] == net.tables[k] == map[]
  }

  /** `x` hears `d` and sends its table. */
  lemma FarTableIsSent(links: set<Link>, n: nat, byDefault: int, d: nat, x: nat, j: nat, i: nat, k: nat)
    returns (ops: seq<Op>, net: Net, m: Snapshot)
    requires Graph(links, n, byDefault) && Diamond(links, d, x, j, i, k)
    ensures Reaches(links, n, byDefault, ops, net) && Idle(net, i, k, [], j) && net.tables[j] == map[]
    ensures (x, j) in net.wires && net.wires[(x, j)] == [m] && Via(m.table, d, d, 1)
  {
    ops, net := [], Start(links, n);
    ops, net := Notices(links, n, byDefault, ops, net, (d, x));
    m := Snapshot(net.round, net.tables[x]);
    ops, net := Sends(links, n, byDefault, ops, net, (x, j));
  }

  /** First `j` has only the longer way to `d`, and sends its table. */
  lemma LongerWayIsSent(links: set<Link>, n: nat, byDefault: int, d: nat, x: nat, j: nat, i: nat, k: nat)
    returns (ops: seq<Op>, net: Net, m: Snapshot)
    requires Graph(links, n, byDefault) && Diamond(links, d, x, j, i, k)
    ensures Reaches(links, n, byDefault, ops, net) && Idle(net, i, k, [m], j)
    ensures Via(m.table, d, x, 2)
  {
    var far;
    ops, net, far := FarTableIsSent(links, n, byDefault, d, x, j, i, k);
    ops, net := Receives(links, n, byDefault, ops, net, (x, j), 0, d, d, 1);
    m := Snapshot(net.round, net.tables[j]);
    ops, net := Sends(links, n, byDefault, ops, net, (j, i));
  }

  /** Then it hears `d` itself, and sends its table again. */
  lemma ShorterWayIsSent(links: set<Link>, n: nat, byDefault: int, ops: seq<Op>, net: Net, m: Snapshot,
                         d: nat, x: nat, j: nat, i: nat, k: nat)
    returns (ops': seq<Op>, net': Net, m': Snapshot)
    requires Reaches(links, n, byDefault, ops, net) && Diamond(links, d, x, j, i, k) && Idle(net, i, k, [m], j)
    ensures Reaches(links, n, byDefault, ops', net') && Idle(net', i, k, [m, m'], j)
    ensures Via(m'.table, d, d, 1)
  {
    ops', net' := Notices(links, n, byDefault, ops, net, (d, j));
    m' := Snapshot(net'.round, net'.tables[j]);
    ops', net' := Sends(links, n, byDefault, ops', net', (j, i));
  }

  /** The second table arrives first, and `k` hears of it from `i`. */
  lemma ShorterWayIsHeard(links: set<Link>, n: nat, byDefault: int, ops: seq<Op>, net: Net, m: Snapshot, m': Snapshot,
                          d: nat, x: nat, j: nat, i: nat, k: nat)
    returns (ops': seq<Op>, net': Net)
    requires Reaches(links, n, byDefault, ops, net) && Diamond(links, d, x, j, i, k) && Idle(net, i, k, [m, m'], j)
    requires Via(m'.table, d, d, 1)
    ensures Reaches(links, n, byDefault, ops', net') && i < |net'.tables| && k < |net'.tables|
    ensures (j, i) in net'.wires && net'.wires[(j, i)] == [m]
    ensures Via(net'.tables[i], d, j, 2) && Via(net'.tables[k], d, i, 3)
  {
    ops', net' := Receives(links, n, byDefault, ops, net, (j, i), 1, d, d, 1);
    assert net'.wires[(j, i)] == [m];
    ops', net' := Sends(links, n, byDefault, ops', net', (i, k));
    ops', net' := Receives(links, n, byDefault, ops', net', (i, k), 0, d, j, 2);
  }

  /** Where a table may overtake another, what holds of links that keep the order fails, on every graph with
      such a diamond: there is a run that ends in `net`, and one step more ends in `net'`, in which the
      late table has made the route of `i` to `d` dearer, and the next hop of `k` is no longer closer to
      `d` than `k` itself. */
  lemma OvertakingBreaksOrder(links: set<Link>, n: nat, byDefault: int, d: nat, x: nat, j: nat, i: nat, k: nat)
    returns (ops: seq<Op>, net: Net, ops': seq<Op>, net': Net)
    requires Graph(links, n, byDefault) && Diamond(links, d, x, j, i, k)
    ensures Reaches(links, n, byDefault, ops, net) && Reaches(links, n, byDefault, ops', net')
    ensures |ops'| == |ops| + 1 && ops'[..|ops|] == ops
    ensures i < |net.tables| && i < |net'.tables| && k < |net'.tables|
    ensures CostOf(net.tables[i], d) == 2 && CostOf(net'.tables[i], d) == 3
    ensures Via(net'.tables[k], d, i, 3)
  {
    var m, m';
    ops, net, m := LongerWayIsSent(links, n, byDefault, d, x, j, i, k);
    ops, net, m' := ShorterWayIsSent(links, n, byDefault, ops, net, m, d, x, j, i, k);
    ops, net := ShorterWayIsHeard(links, n, byDefault, ops, net, m, m', d, x, j, i, k);
    ops', net' := Receives(links, n, byDefault, ops, net, (j, i), 0, d, x, 2);
  }
}
