/** Over which interface a route leaves. Each link ends at a fixed interface of the node that hears it. */
module Interfaces {
  import opened Common
  import opened Routes
  import opened Network

  /** Every table is heard over the interface at the end of its link. */
  ghost predicate Heeds(port: map<Link, int>, op: Op) {
    match op
    case Notice(l, iface, _) => l in port && iface == port[l]
    case Receive(l, _, _, iface, _, _) => l in port && iface == port[l]
    case _ => true
  }

  ghost predicate AllHeed(port: map<Link, int>, ops: seq<Op>) {
    forall k :: 0 <= k < |ops| ==> Heeds(port, ops[k])
  }

  /** The route leaves over the interface of the link to its next hop. */
  ghost predicate LeavesAt(port: map<Link, int>, t: Table, self: nat, d: int) {
    d in t ==>
      t[d].nextHop >= 0 && (t[d].nextHop, self) in port && t[d].iface == port[(t[d].nextHop, self)]
  }

  ghost predicate Leaves(port: map<Link, int>, t: Table, self: nat) {
    forall d :: LeavesAt(port, t, self, d)
  }

  ghost predicate AllLeave(port: map<Link, int>, n: nat, net: Net)
    requires |net.tables| == n
  {
    forall i :: 0 <= i < n ==> Leaves(port, net.tables[i], i)
  }

  /** Each route is the one that was there, or goes by way of the sender over the interface it was heard on. */
  ghost predicate CarriedAt(t: Table, t': Table, j: int, iface: int, d: int) {
    d in t' ==>
      || (d in t && t'[d].iface == t[d].iface && t'[d].nextHop == t[d].nextHop)
      || (t'[d].iface == iface && t'[d].nextHop == j)
  }

  lemma UpdateCarries(byDefault: int, n: nat, self: nat, j: nat, t: Table, r: Route, d: int)
    requires Sane(t, self, n) && byDefault >= n && j < n && r.addr == j && r.nextHop == j && r.cost == 1
    ensures var t' := Updated(byDefault, t, r);
      CarriedAt(t, t', j, r.iface, d) && j in t' && t'[j].iface == r.iface && t'[j].nextHop == j
  {
  }

  /** After hearing from a neighbour over an interface, the route to it leaves over that interface, and so does
      every route that was taken from its table. */
  lemma HearingCarries(byDefault: int, n: nat, self: nat, j: nat, t: Table, r: Route, m: Table, rs: seq<Route>, d: int)
    requires Sane(t, self, n) && Sane(m, j, n) && byDefault >= n && j < n && j != self
    requires r.addr == j && r.nextHop == j && r.cost == 1 && Lists(rs, m)
    ensures var t' := Heard(byDefault, self, t, r, rs);
      && CarriedAt(t, t', j, r.iface, d)
      && j in t' && t'[j].iface == r.iface && t'[j].nextHop == j && t'[j].cost == 1
  {
    HeardIsPointwise(byDefault, self, t, r, m, rs);
    var u := Updated(byDefault, t, r);
    assert u[j].addr == j && u[j].cost == 1 && u[j].nextHop == j && u[j].iface == r.iface;
  }

  lemma CarryingLeaves(port: map<Link, int>, self: nat, j: nat, t: Table, t': Table, d: int)
    requires (j, self) in port && Leaves(port, t, self) && CarriedAt(t, t', j, port[(j, self)], d)
    ensures LeavesAt(port, t', self, d)
  {
    assert LeavesAt(port, t, self, d);
  }

  lemma NoticeLeaves(links: set<Link>, n: nat, byDefault: int, port: map<Link, int>, l: Link, t: Table, r: Route)
    requires Graph(links, n, byDefault) && l in links && l in port && Sane(t, l.1, n) && Leaves(port, t, l.1)
    requires r.addr == l.0 && r.nextHop == l.0 && r.cost == 1 && r.iface == port[l]
    ensures Leaves(port, Updated(byDefault, t, r), l.1)
  {
    var t' := Updated(byDefault, t, r);
    forall d
      ensures LeavesAt(port, t', l.1, d)
    {
      UpdateCarries(byDefault, n, l.1, l.0, t, r, d);
      CarryingLeaves(port, l.1, l.0, t, t', d);
    }
  }

  lemma HearingLeaves(links: set<Link>, n: nat, byDefault: int, port: map<Link, int>, l: Link, t: Table, r: Route,
                      m: Table, rs: seq<Route>)
    requires Graph(links, n, byDefault) && l in links && l in port && Sane(t, l.1, n) && Leaves(port, t, l.1)
    requires r.addr == l.0 && r.nextHop == l.0 && r.cost == 1 && r.iface == port[l]
    requires Sane(m, l.0, n) && Lists(rs, m)
    ensures Leaves(port, Heard(byDefault, l.1, t, r, rs), l.1)
  {
    var t' := Heard(byDefault, l.1, t, r, rs);
    forall d
      ensures LeavesAt(port, t', l.1, d)
    {
      HearingCarries(byDefault, n, l.1, l.0, t, r, m, rs, d);
      CarryingLeaves(port, l.1, l.0, t, t', d);
    }
  }

  lemma PoisonLeaves(port: map<Link, int>, t: Table, self: nat, iface: int)
    requires Leaves(port, t, self)
    ensures Leaves(port, Poisoned(t, iface), self)
  {
    forall d
      ensures LeavesAt(port, Poisoned(t, iface), self, d)
    {
      assert LeavesAt(port, t, self, d);
    }
  }

  lemma StepLeaves(links: set<Link>, n: nat, byDefault: int, port: map<Link, int>, net: Net, op: Op)
    requires Graph(links, n, byDefault) && AllSound(links, n, net) && AllLeave(port, n, net)
    requires Enabled(links, n, net, op) && Heeds(port, op)
    ensures AllLeave(port, n, Do(links, n, byDefault, net, op))
  {
    match op
    case Notice(l, iface, kind) =>
      assert Sound(links, net.tables[l.1], l.1, n) && Leaves(port, net.tables[l.1], l.1);
      NoticeLeaves(links, n, byDefault, port, l, net.tables[l.1], Route(l.0, iface, l.0, kind, 1));
    case Receive(l, at, keep, iface, kind, order) =>
      assert WireSound(links, net.wires[l], l.0, n) && Sound(links, net.wires[l][at].table, l.0, n);
      assert Sound(links, net.tables[l.1], l.1, n) && Leaves(port, net.tables[l.1], l.1);
      HearingLeaves(links, n, byDefault, port, l, net.tables[l.1], Route(l.0, iface, l.0, kind, 1),
                    net.wires[l][at].table, order);
    case Poison(i, iface) =>
      assert Leaves(port, net.tables[i], i);
      PoisonLeaves(port, net.tables[i], i, iface);
    case _ =>
  }

  /** In every run, even one in which tables come late, repeatedly and out of order, and interfaces go down, every
      route leaves over the interface of the link to its next hop. */
  lemma {:induction false} RoutesLeaveByTheirLink(links: set<Link>, n: nat, byDefault: int, port: map<Link, int>,
                                                  ops: seq<Op>, net: Net)
    requires Graph(links, n, byDefault) && AllHeed(port, ops) && After(links, n, byDefault, ops) == Some(net)
    ensures AllLeave(port, n, net)
    decreases |ops|
  {
    if ops != [] {
      var before, op := ops[..|ops| - 1], ops[|ops| - 1];
      var was := After(links, n, byDefault, before).value;
      RoutesLeaveByTheirLink(links, n, byDefault, port, before, was);
      RunsAreSound(links, n, byDefault, before);
      StepLeaves(links, n, byDefault, port, was, op);
    }
  }

  /** So when an interface goes down, the routes still found are just those whose link ends at another; they are
      what they were. */
  lemma PoisonCuts(links: set<Link>, n: nat, byDefault: int, port: map<Link, int>, ops: seq<Op>, net: Net,
                   i: nat, iface: int, d: nat)
    requires Graph(links, n, byDefault) && AllHeed(port, ops) && After(links, n, byDefault, ops) == Some(net) && i < n
    ensures var t, t' := net.tables[i], Do(links, n, byDefault, net, Poison(i, iface)).tables[i];
      && (LookupRoute(byDefault, t', d).Some? <==>
            && d in t && t[d].cost < INFINITY
            && t[d].nextHop >= 0 && (t[d].nextHop, i) in port && port[(t[d].nextHop, i)] != iface)
      && (LookupRoute(byDefault, t', d).Some? ==> t'[d] == t[d])
  {
    RoutesLeaveByTheirLink(links, n, byDefault, port, ops, net);
    RunsAreSound(links, n, byDefault, ops);
    var t := net.tables[i];
    assert Sound(links, t, i, n) && Leaves(port, t, i) && LeavesAt(port, t, i, d);
  }

  /** The type does not follow: after hearing from a neighbour, the route to it is of the type of the interface it
      was heard on if and only if there was no usable route to it, or one of that type. */
  lemma TypeFollowsIff(byDefault: int, n: nat, self: nat, j: nat, t: Table, r: Route, m: Table, rs: seq<Route>)
    requires Sane(t, self, n) && Sane(m, j, n) && byDefault >= n && j < n && j != self
    requires r.addr == j && r.nextHop == j && r.cost == 1 && Lists(rs, m)
    ensures var t' := Heard(byDefault, self, t, r, rs);
      j in t' && (t'[j].kind == r.kind <==> CostOf(t, j) >= INFINITY || t[j].kind == r.kind)
  {
    HeardIsPointwise(byDefault, self, t, r, m, rs);
    var u := Updated(byDefault, t, r);
    assert u[j].addr == j && u[j].cost == 1 && u[j].nextHop == j;
  }

  /** Node 0 knows 2 through 3 over interface 0, of type 0, and hears 2 itself on interface 1, of type 1: from then
      on its route leaves over interface 1 with the type of interface 0. */
  lemma TypeStaysBehind(t: Table, r: Route)
    requires t == map[2 := Route(2, 0, 3, 0, 2)] && r == Route(2, 1, 2, 1, 1)
    ensures var t' := Heard(99, 0, t, r, []); t' == map[2 := Route(2, 1, 2, 0, 1)]
  {
    var u := Updated(99, t, r);
    assert LookupRoute(99, t, 2) == Some(2);
    assert MergeAll(99, 0, 2, u, []) == u;
  }
}
