/** Route tables as values: what one received table does to a node's own, one entry at a time in any
    order, and what that amounts to for each destination. */
module Routes {
  import opened Common

  /** The cost from which on a destination counts as unreachable. */
  const INFINITY := 16

  datatype Route = Route(addr: int, iface: int, nextHop: int, kind: int, cost: int)

  type Table = map<int, Route>

  /** Every entry is stored under its own address. */
  ghost predicate Keyed(t: Table) {
    forall k :: k in t ==> t[k].addr == k
  }

  /** Where `rtable_get` looks `addr` up: its own entry, or else the default route. */
  function Slot(byDefault: int, keys: set<int>, addr: int): Option<int> {
    if addr in keys then Some(addr) else if byDefault in keys then Some(byDefault) else None
  }

  function LookupRoute(byDefault: int, t: Table, addr: int): Option<int> {
    match Slot(byDefault, t.Keys, addr)
    case None => None
    case Some(k) => if t[k].cost >= INFINITY then None else Some(k)
  }

  /** The cost `t` gives for `d`, `INFINITY` when it has no entry. */
  function CostOf(t: Table, d: int): int {
    if d in t then t[d].cost else INFINITY
  }

  /** `add_route`, with the type that the interface reports. */
  function Added(t: Table, r: Route): Table {
    t[r.addr := r]
  }

  /** The table after `update_route`. A usable route keeps its address and type. */
  function Updated(byDefault: int, t: Table, r: Route): Table {
    match LookupRoute(byDefault, t, r.addr)
    case None => Added(t, r)
    case Some(k) => t[k := t[k].(iface := r.iface, cost := r.cost, nextHop := r.nextHop)]
  }

  predicate UpdateReports(byDefault: int, t: Table, r: Route) {
    match LookupRoute(byDefault, t, r.addr)
    case None => true
    case Some(k) => t[k].iface != r.iface || t[k].cost != r.cost || t[k].nextHop != r.nextHop
  }

  /** What is found is an entry that costs less than 16: the address's own, or, only for an address that has no
      entry at all, the default route. */
  lemma FoundIs(byDefault: int, t: Table, addr: int, k: int)
    ensures LookupRoute(byDefault, t, addr) == Some(k)
       <==> k in t && t[k].cost < INFINITY && (k == addr || (k == byDefault && addr !in t))
  {
  }

  /** `update_route` reports a change if and only if it makes one. */
  lemma ReportsIffChanged(byDefault: int, t: Table, r: Route)
    requires r.cost < INFINITY
    ensures UpdateReports(byDefault, t, r) <==> Updated(byDefault, t, r) != t
  {
    var t' := Updated(byDefault, t, r);
    match LookupRoute(byDefault, t, r.addr)
    case None => assert r.addr in t' && (r.addr in t ==> t[r.addr].cost >= INFINITY > t'[r.addr].cost);
    case Some(k) =>
      assert t'[k] == t[k].(iface := r.iface, cost := r.cost, nextHop := r.nextHop);
      if !UpdateReports(byDefault, t, r) {
        assert t' == t;
      }
  }

  /** And what it makes, for a node without a default route: the route is found as it was given, but for the type of
      one that was usable before, and no other entry changes. */
  lemma UpdateIsFound(byDefault: int, t: Table, r: Route)
    requires Keyed(t) && byDefault !in t && r.addr != byDefault && r.cost < INFINITY
    ensures var t' := Updated(byDefault, t, r);
      && LookupRoute(byDefault, t', r.addr) == Some(r.addr)
      && t'[r.addr] == (if CostOf(t, r.addr) < INFINITY then r.(kind := t[r.addr].kind) else r)
      && t'.Keys == t.Keys + {r.addr} && forall d :: d in t && d != r.addr ==> t'[d] == t[d]
  {
  }

  /** One entry `r` of a received table. The conduit is the entry of `t` at `via`, as it is by then. */
  function MergeOne(byDefault: int, self: int, via: int, t: Table, r: Route): (t': Table)
    requires via in t
    ensures t.Keys <= t'.Keys
  {
    var c := t[via];
    var cost := Min(c.cost + r.cost, INFINITY);
    if r.addr == self || r.addr == byDefault then t else
    match Slot(byDefault, t.Keys, r.addr)
    case None => t[r.addr := Route(r.addr, c.iface, c.addr, c.kind, cost)]
    case Some(k) =>
      if t[k].cost <= cost && t[k].nextHop != c.addr then t
      else t[k := Route(t[k].addr, c.iface, c.addr, c.kind, cost)]
  }

  /** The received entries `rs`, in that order. */
  function MergeAll(byDefault: int, self: int, via: int, t: Table, rs: seq<Route>): (t': Table)
    requires via in t
    ensures t.Keys <= t'.Keys
    decreases |rs|
  {
    if rs == [] then t
    else MergeOne(byDefault, self, via, MergeAll(byDefault, self, via, t, rs[..|rs| - 1]), rs[|rs| - 1])
  }

  /** `now` is what merging `rs` makes of `was`. */
  ghost predicate Leads(byDefault: int, self: int, via: int, was: Table, rs: seq<Route>, now: Table) {
    via in was && now == MergeAll(byDefault, self, via, was, rs)
  }

  lemma LeadsFurther(byDefault: int, self: int, via: int, t: Table, rs: seq<Route>, was: Table, r: Route, now: Table)
    requires Leads(byDefault, self, via, t, rs, was) && Leads(byDefault, self, via, was, [r], now)
    ensures Leads(byDefault, self, via, t, rs + [r], now)
  {
    MergeOnly(byDefault, self, via, was, r);
    assert (rs + [r])[..|rs + [r]| - 1] == rs;
  }

  lemma MergeOnly(byDefault: int, self: int, via: int, t: Table, r: Route)
    requires via in t
    ensures MergeAll(byDefault, self, via, t, [r]) == MergeOne(byDefault, self, via, t, r)
  {
    assert [r][..0] == [];
    assert MergeAll(byDefault, self, via, t, []) == t;
  }

  // The three things that can become of one entry, as `Leads` has it

  lemma MergeSkips(byDefault: int, self: int, via: int, t: Table, r: Route)
    requires via in t && r.addr in {self, byDefault}
    ensures Leads(byDefault, self, via, t, [r], t)
  {
    MergeOnly(byDefault, self, via, t, r);
  }

  lemma MergeInserts(byDefault: int, self: int, via: int, t: Table, r: Route, t': Table)
    requires via in t && r.addr !in {self, byDefault} && Slot(byDefault, t.Keys, r.addr).None?
    requires var c := t[via];
      t' == t[r.addr := Route(r.addr, c.iface, c.addr, c.kind, Min(c.cost + r.cost, INFINITY))]
    ensures Leads(byDefault, self, via, t, [r], t')
  {
    MergeOnly(byDefault, self, via, t, r);
  }

  lemma MergeKeeps(byDefault: int, self: int, via: int, t: Table, r: Route, k: int)
    requires via in t && r.addr !in {self, byDefault} && Slot(byDefault, t.Keys, r.addr) == Some(k)
    requires t[k].cost <= Min(t[via].cost + r.cost, INFINITY) && t[k].nextHop != t[via].addr
    ensures Leads(byDefault, self, via, t, [r], t)
  {
    MergeOnly(byDefault, self, via, t, r);
  }

  lemma MergeAdopts(byDefault: int, self: int, via: int, t: Table, r: Route, k: int, t': Table)
    requires via in t && r.addr !in {self, byDefault} && Slot(byDefault, t.Keys, r.addr) == Some(k)
    requires !(t[k].cost <= Min(t[via].cost + r.cost, INFINITY) && t[k].nextHop != t[via].addr)
    requires var c := t[via];
      t' == t[k := Route(t[k].addr, c.iface, c.addr, c.kind, Min(c.cost + r.cost, INFINITY))]
    ensures Leads(byDefault, self, via, t, [r], t')
  {
    MergeOnly(byDefault, self, via, t, r);
  }

  /** The table that putting the entries of `rs` one after the other makes. */
  function Collected(rs: seq<Route>): (t: Table)
    ensures Keyed(t)
    decreases |rs|
  {
    if rs == [] then map[] else Collected(rs[..|rs| - 1])[rs[|rs| - 1].addr := rs[|rs| - 1]]
  }

  /** `rs` lists the entries of `t`, each once. */
  ghost predicate Lists(rs: seq<Route>, t: Table) {
    && (forall i, j :: 0 <= i < j < |rs| ==> rs[i].addr != rs[j].addr)
    && Collected(rs) == t
  }

  lemma {:induction false} CollectedKeys(rs: seq<Route>, d: int)
    requires d in Collected(rs)
    ensures exists i :: 0 <= i < |rs| && rs[i].addr == d
    decreases |rs|
  {
    var n := |rs| - 1;
    if rs[n].addr != d {
      CollectedKeys(rs[..n], d);
      var i :| 0 <= i < |rs[..n]| && rs[..n][i].addr == d;
      assert rs[i].addr == d;
    }
  }

  /** Entries that are yet to come do not take the place of those that have. */
  lemma {:induction false} CollectedBefore(rs: seq<Route>, n: nat)
    requires n <= |rs| && forall i, j :: 0 <= i < j < |rs| ==> rs[i].addr != rs[j].addr
    ensures Collected(rs[..n]).Keys <= Collected(rs).Keys
    ensures n < |rs| ==> rs[n].addr !in Collected(rs[..n])
    ensures n < |rs| ==> rs[n].addr in Collected(rs)
    decreases |rs|
  {
    if n == |rs| {
      assert rs[..n] == rs;
    } else {
      if rs[n].addr in Collected(rs[..n]) {
        CollectedKeys(rs[..n], rs[n].addr);
      }
      CollectedBefore(rs[..|rs| - 1], n);
      assert rs[..|rs| - 1][..n] == rs[..n];
    }
  }

  lemma ListsMore(rs: seq<Route>, t: Table, todo: set<int>, k: int)
    requires Keyed(t) && Lists(rs, t - todo) && k in todo && k in t
    ensures Lists(rs + [t[k]], t - (todo - {k}))
  {
    var rs' := rs + [t[k]];
    assert rs'[..|rs'| - 1] == rs;
    forall i | 0 <= i < |rs|
      ensures rs[i].addr != k
    {
      CollectedBefore(rs, i);
    }
    assert Collected(rs') == t - (todo - {k});
  }

  /** One turn of the loop over a received table. */
  lemma MergeFurther(byDefault: int, self: int, via: int, t: Table, rs: seq<Route>, was: Table, now: Table,
                     remote: Table, todo: set<int>, k: int)
    requires Leads(byDefault, self, via, t, rs, was) && k in todo && k in remote
    requires Leads(byDefault, self, via, was, [remote[k]], now)
    requires Keyed(remote) && Lists(rs, remote - todo)
    ensures Leads(byDefault, self, via, t, rs + [remote[k]], now)
    ensures Lists(rs + [remote[k]], remote - (todo - {k}))
  {
    LeadsFurther(byDefault, self, via, t, rs, was, remote[k], now);
    ListsMore(rs, remote, todo, k);
  }

  /** The pointwise rule: what becomes of the route to `d` in `t`, when a table with entry `r` for `d`
      comes by way of the entry `c`. */
  function Chosen(t: Table, c: Route, d: int, r: Route): Route {
    var offer := Route(d, c.iface, c.addr, c.kind, Min(c.cost + r.cost, INFINITY));
    if d !in t then offer
    else if t[d].nextHop == c.addr then offer
    else if offer.cost < t[d].cost then offer
    else t[d]
  }

  /** The table after a table `remote` has come by way of `c`, whose entries for `skip` are passed over. */
  function Merged(skip: set<int>, c: Route, t: Table, remote: Table): Table {
    map d | d in t.Keys + (remote.Keys - skip) ::
      if d in remote && d !in skip then Chosen(t, c, d, remote[d]) else t[d]
  }

  /** No offer is judged differently once the conduit's own entry, if the received table lists one, has
      been merged. */
  ghost predicate Indifferent(skip: set<int>, via: int, t: Table, remote: Table)
    requires via in t
  {
    via in remote.Keys - skip ==>
      forall d :: d in remote.Keys - skip - {via} ==> SameChoice(via, t, remote, d)
  }

  /** The route to `d` is the same by way of the conduit as it was and as its own entry in `remote`
      makes it. */
  ghost predicate SameChoice(via: int, t: Table, remote: Table, d: int)
    requires via in t && via in remote && d in remote
  {
    Chosen(t, t[via], d, remote[d]) == Chosen(t, Chosen(t, t[via], via, remote[via]), d, remote[d])
  }

  /** Whenever no offer is judged differently, and so whenever the received table has no entry for the
      conduit's own address, every order of going through it does what the pointwise rule says, although
      the conduit is itself an entry of the table being changed. The node may have no default route. */
  lemma {:induction false} MergeIsPointwise(byDefault: int, self: int, via: int, t: Table, remote: Table,
                                            rs: seq<Route>)
    requires Keyed(t) && via in t && byDefault !in t && Lists(rs, remote)
    requires Indifferent({self, byDefault}, via, t, remote)
    ensures MergeAll(byDefault, self, via, t, rs) == Merged({self, byDefault}, t[via], t, remote)
  {
    MergePrefix(byDefault, self, via, t, rs, |rs|);
    assert rs[..|rs|] == rs;
  }

  lemma {:induction false} MergePrefix(byDefault: int, self: int, via: int, t: Table, rs: seq<Route>, n: nat)
    requires Keyed(t) && via in t && byDefault !in t && n <= |rs|
    requires Lists(rs, Collected(rs)) && Indifferent({self, byDefault}, via, t, Collected(rs))
    ensures MergeAll(byDefault, self, via, t, rs[..n]) == Merged({self, byDefault}, t[via], t, Collected(rs[..n]))
  {
    if n == 0 {
      assert Merged({self, byDefault}, t[via], t, map[]) == t;
    } else {
      MergePrefix(byDefault, self, via, t, rs, n - 1);
      assert rs[..n][..n - 1] == rs[..n - 1];
      var r := rs[n - 1];
      CollectedBefore(rs, n - 1);
      CollectedHolds(rs, n - 1);
      if via in Collected(rs[..n - 1]) {
        CollectedSub(rs, n - 1, via);
        assert r.addr !in {self, byDefault} && via !in {self, byDefault} ==> SameChoice(via, t, Collected(rs), r.addr);
      }
      MergeOnePointwise(byDefault, self, via, t, Collected(rs[..n - 1]), r);
    }
  }

  lemma {:induction false} CollectedHolds(rs: seq<Route>, k: nat)
    requires Lists(rs, Collected(rs)) && k < |rs|
    ensures rs[k].addr in Collected(rs) && Collected(rs)[rs[k].addr] == rs[k]
    decreases |rs|
  {
    if k < |rs| - 1 {
      var front := rs[..|rs| - 1];
      assert Lists(front, Collected(front));
      CollectedHolds(front, k);
      assert rs[k].addr != rs[|rs| - 1].addr;
    }
  }

  /** What a listing has collected stays collected. */
  lemma CollectedSub(rs: seq<Route>, n: nat, d: int)
    requires Lists(rs, Collected(rs)) && n <= |rs| && d in Collected(rs[..n])
    ensures d in Collected(rs) && Collected(rs)[d] == Collected(rs[..n])[d]
  {
    CollectedKeys(rs[..n], d);
    var k :| 0 <= k < n && rs[..n][k].addr == d;
    assert Lists(rs[..n], Collected(rs[..n]));
    CollectedHolds(rs, k);
    CollectedHolds(rs[..n], k);
  }

  lemma MergeOnePointwise(byDefault: int, self: int, via: int, t: Table, part: Table, r: Route)
    requires Keyed(t) && via in t && byDefault !in t && r.addr !in part
    requires via in part && via !in {self, byDefault} && r.addr !in {self, byDefault} ==>
      Chosen(t, t[via], r.addr, r) == Chosen(t, Chosen(t, t[via], via, part[via]), r.addr, r)
    ensures var m := Merged({self, byDefault}, t[via], t, part);
      via in m && MergeOne(byDefault, self, via, m, r) == Merged({self, byDefault}, t[via], t, part[r.addr := r])
  {
    var m := Merged({self, byDefault}, t[via], t, part);
    var m' := Merged({self, byDefault}, t[via], t, part[r.addr := r]);
    assert byDefault !in m && m[via].addr == via;
    MergeOneIsChosen(byDefault, self, via, m, r);
    forall d | d in m' && d != r.addr
      ensures d in m && m'[d] == m[d]
    {
    }
  }

  /** One entry, by the pointwise rule on the table as it is by then. */
  lemma MergeOneIsChosen(byDefault: int, self: int, via: int, m: Table, r: Route)
    requires via in m && byDefault !in m && (r.addr in m ==> m[r.addr].addr == r.addr)
    ensures MergeOne(byDefault, self, via, m, r) ==
      if r.addr in {self, byDefault} then m else m[r.addr := Chosen(m, m[via], r.addr, r)]
  {
  }

  // Exactly when the order does not matter

  ghost predicate OrderIrrelevant(byDefault: int, self: int, via: int, t: Table, remote: Table)
    requires via in t
  {
    forall rs, rs' :: Lists(rs, remote) && Lists(rs', remote) ==>
      MergeAll(byDefault, self, via, t, rs) == MergeAll(byDefault, self, via, t, rs')
  }

  /** The order in which the received table is gone through does not matter if and only if no offer is
      judged differently once the conduit's own entry has been merged. */
  lemma OrderIrrelevantIff(byDefault: int, self: int, via: int, t: Table, remote: Table)
    requires Keyed(t) && Keyed(remote) && via in t && byDefault !in t
    ensures OrderIrrelevant(byDefault, self, via, t, remote) <==> Indifferent({self, byDefault}, via, t, remote)
  {
    if Indifferent({self, byDefault}, via, t, remote) {
      forall rs | Lists(rs, remote)
        ensures MergeAll(byDefault, self, via, t, rs) == Merged({self, byDefault}, t[via], t, remote)
      {
        MergeIsPointwise(byDefault, self, via, t, remote, rs);
      }
    }
    if OrderIrrelevant(byDefault, self, via, t, remote) && via in remote.Keys - {self, byDefault} {
      forall d | d in remote.Keys - {self, byDefault} - {via}
        ensures SameChoice(via, t, remote, d)
      {
        IrrelevantIsSame(byDefault, self, via, t, remote, d);
      }
    }
  }

  lemma IrrelevantIsSame(byDefault: int, self: int, via: int, t: Table, remote: Table, d: int)
    requires Keyed(t) && Keyed(remote) && via in t && byDefault !in t
    requires via in remote.Keys - {self, byDefault} && d in remote.Keys - {self, byDefault} - {via}
    requires OrderIrrelevant(byDefault, self, via, t, remote)
    ensures SameChoice(via, t, remote, d)
  {
    var front := ListingExists(remote - {via});
    var r := remote[via];
    ListsBothWays(front, remote, via);
    ConduitLast(byDefault, self, via, t, remote, front, d);
    ConduitFirst(byDefault, self, via, t, remote, front, d);
  }

  lemma NotEmpty(s: set<int>)
    ensures s == {} || exists k :: k in s
  {
    if forall k :: k !in s {
      assert s == {};
    }
  }

  lemma ListingExists(t: Table) returns (rs: seq<Route>)
    requires Keyed(t)
    ensures Lists(rs, t)
  {
    rs := [];
    var todo := t.Keys;
    assert t - todo == map[];
    while todo != {}
      invariant todo <= t.Keys && Lists(rs, t - todo)
    {
      NotEmpty(todo);
      var k :| k in todo;
      ListsMore(rs, t, todo, k);
      rs, todo := rs + [t[k]], todo - {k};
    }
    assert t - {} == t;
  }

  lemma ListsBothWays(front: seq<Route>, remote: Table, via: int)
    requires Keyed(remote) && via in remote && Lists(front, remote - {via})
    ensures Lists(front + [remote[via]], remote) && Lists([remote[via]] + front, remote)
  {
    ListsMore(front, remote, {via}, via);
    assert remote - ({via} - {via}) == remote;
    forall i | 0 <= i < |front|
      ensures front[i].addr != via
    {
      CollectedHolds(front, i);
    }
    CollectedCons(remote[via], front);
    assert map[via := remote[via]] + (remote - {via}) == remote;
  }

  lemma {:induction false} CollectedCons(r: Route, rs: seq<Route>)
    ensures Collected([r] + rs) == map[r.addr := r] + Collected(rs)
    decreases |rs|
  {
    var all := [r] + rs;
    if rs == [] {
      assert all[..|all| - 1] == [];
    } else {
      CollectedCons(r, rs[..|rs| - 1]);
      assert all[..|all| - 1] == [r] + rs[..|rs| - 1];
    }
  }

  lemma {:induction false} MergeAllCons(byDefault: int, self: int, via: int, t: Table, r: Route, rs: seq<Route>)
    requires via in t
    ensures MergeAll(byDefault, self, via, t, [r] + rs)
         == MergeAll(byDefault, self, via, MergeOne(byDefault, self, via, t, r), rs)
    decreases |rs|
  {
    var all := [r] + rs;
    if rs == [] {
      assert all == [r];
      MergeOnly(byDefault, self, via, t, r);
    } else {
      MergeAllCons(byDefault, self, via, t, r, rs[..|rs| - 1]);
      assert all[..|all| - 1] == [r] + rs[..|rs| - 1];
    }
  }

  /** With the conduit's own entry last, the others are judged by the conduit as it was. */
  lemma ConduitLast(byDefault: int, self: int, via: int, t: Table, remote: Table, front: seq<Route>, d: int)
    requires Keyed(t) && Keyed(remote) && via in t && byDefault !in t
    requires via in remote.Keys - {self, byDefault} && d in remote.Keys - {self, byDefault} - {via}
    requires Lists(front, remote - {via})
    ensures var m := MergeAll(byDefault, self, via, t, front + [remote[via]]);
      d in m && m[d] == Chosen(t, t[via], d, remote[d])
  {
    var r, all := remote[via], front + [remote[via]];
    assert all[..|all| - 1] == front;
    MergeIsPointwise(byDefault, self, via, t, remote - {via}, front);
    MergeOneIsChosen(byDefault, self, via, MergeAll(byDefault, self, via, t, front), r);
  }

  /** With it first, they are judged by the conduit as it has become. */
  lemma ConduitFirst(byDefault: int, self: int, via: int, t: Table, remote: Table, front: seq<Route>, d: int)
    requires Keyed(t) && Keyed(remote) && via in t && byDefault !in t
    requires via in remote.Keys - {self, byDefault} && d in remote.Keys - {self, byDefault} - {via}
    requires Lists(front, remote - {via})
    ensures var m := MergeAll(byDefault, self, via, t, [remote[via]] + front);
      d in m && m[d] == Chosen(t, Chosen(t, t[via], via, remote[via]), d, remote[d])
  {
    var r := remote[via];
    var u := MergeOne(byDefault, self, via, t, r);
    MergeOneIsChosen(byDefault, self, via, t, r);
    MergeAllCons(byDefault, self, via, t, r, front);
    MergeIsPointwise(byDefault, self, via, u, remote - {via}, front);
  }

  /** And it can matter: a neighbour 1 that offers destination 2 at cost 1, and
      itself at cost 1, takes the node 0 to destination 2 at cost 2 or at cost 3. */
  lemma OrderMatters(one: Route, two: Route, t: Table, remote: Table)
    requires one == Route(1, 0, 1, 0, 1) && two == Route(2, 0, 2, 0, 1)
    requires t == map[1 := one] && remote == map[1 := one, 2 := two]
    ensures Lists([one, two], remote) && Lists([two, one], remote)
    ensures CostOf(MergeAll(99, 0, 1, t, [one, two]), 2) == 3
    ensures CostOf(MergeAll(99, 0, 1, t, [two, one]), 2) == 2
  {
    CollectTwo(one, two);
    CollectTwo(two, one);
    MergeTwo(99, 0, 1, t, one, two);
    MergeTwo(99, 0, 1, t, two, one);
    assert 1 in t && 2 !in t && 99 !in t;
    assert MergeOne(99, 0, 1, t, one) == t[1 := Route(1, 0, 1, 0, 2)];
    assert MergeOne(99, 0, 1, t, two) == t[2 := Route(2, 0, 1, 0, 2)];
  }

  lemma CollectTwo(r: Route, r': Route)
    ensures Collected([r, r']) == map[r.addr := r][r'.addr := r']
  {
    assert [r, r'][..1] == [r] && [r][..0] == [];
    assert Collected([r]) == map[r.addr := r];
  }

  lemma MergeTwo(byDefault: int, self: int, via: int, t: Table, r: Route, r': Route)
    requires via in t
    ensures MergeAll(byDefault, self, via, t, [r, r'])
         == MergeOne(byDefault, self, via, MergeOne(byDefault, self, via, t, r), r')
  {
    assert [r, r'][..1] == [r];
    MergeOnly(byDefault, self, via, t, r);
  }

  /** `rtable_poison_iface`: every route over the interface becomes unreachable. */
  function Poisoned(t: Table, iface: int): Table {
    map k | k in t :: if t[k].iface == iface then t[k].(cost := INFINITY) else t[k]
  }

  /** One turn of `rip_monitor`: the neighbour that sent the table is itself a route of cost 1, and
      everything it offers comes by way of that. */
  function Heard(byDefault: int, self: int, t: Table, r: Route, rs: seq<Route>): Table
    requires r.cost < INFINITY
  {
    var u := Updated(byDefault, t, r);
    MergeAll(byDefault, self, LookupRoute(byDefault, u, r.addr).value, u, rs)
  }

  /** The same, pointwise, for a node without a default route. */
  function HeardFrom(byDefault: int, self: int, t: Table, r: Route, remote: Table): Table {
    var u := Updated(byDefault, t, r);
    if r.addr in u then Merged({self, byDefault}, u[r.addr], u, remote) else u
  }

  lemma HeardIsPointwise(byDefault: int, self: int, t: Table, r: Route, remote: Table, rs: seq<Route>)
    requires Keyed(t) && byDefault !in t && r.addr != byDefault && r.cost < INFINITY
    requires var u := Updated(byDefault, t, r);
      Lists(rs, remote) && (r.addr in u ==> Indifferent({self, byDefault}, r.addr, u, remote))
    ensures Heard(byDefault, self, t, r, rs) == HeardFrom(byDefault, self, t, r, remote)
  {
    var u := Updated(byDefault, t, r);
    assert LookupRoute(byDefault, u, r.addr) == Some(r.addr);
    MergeIsPointwise(byDefault, self, r.addr, u, remote, rs);
  }
}
