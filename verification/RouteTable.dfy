/** `rtable.c`: the route table, a hash table of entries that are overwritten in place. */
module RouteTables {
  import opened Common
  import opened Routes

  class RouteEntry {
    var addr: int
    var iface: int
    var nextHop: int
    var kind: int
    var cost: int

    constructor (r: Route)
      ensures View() == r
    {
      addr, iface, nextHop, kind, cost := r.addr, r.iface, r.nextHop, r.kind, r.cost;
    }

    function View(): Route
      reads this
    {
      Route(addr, iface, nextHop, kind, cost)
    }
  }

  /** Some key that is still to come: the hash table's order is its own. */
  method Any(todo: set<int>) returns (k: int)
    requires todo != {}
    ensures k in todo
  {
    NotEmpty(todo);
    k :| k in todo;
  }

  class RouteTable {
    /** The key of the default route, one more than the highest address. */
    const byDefault: int
    var hash: map<int, RouteEntry>

    ghost predicate Valid()
      reads this, hash.Values
    {
      forall k :: k in hash ==> hash[k].addr == k
    }

    /** Entries are kept, or are new. */
    twostate predicate Grown()
      reads this
    {
      fresh(hash.Values - old(hash.Values))
    }

    ghost function View(): Table
      reads this, hash.Values
    {
      map k | k in hash :: hash[k].View()
    }

    /** `rtable_new` */
    constructor (byDefault: int)
      ensures this.byDefault == byDefault && hash == map[] && Valid()
    {
      this.byDefault := byDefault;
      hash := map[];
    }

    /** `rtable_get` */
    method Get(addr: int) returns (r: RouteEntry?)
      ensures match Slot(byDefault, hash.Keys, addr)
        case None => r == null
        case Some(k) => k in hash && r == hash[k]
    {
      if addr in hash {
        r := hash[addr];
      } else if byDefault in hash {
        r := hash[byDefault];
      } else {
        r := null;
      }
    }

    /** `rtable_put` */
    method Put(entry: RouteEntry)
      requires Valid()
      modifies `hash
      ensures Valid() && hash == old(hash)[entry.addr := entry]
      ensures View() == Added(old(View()), entry.View())
    {
      hash := hash[entry.addr := entry];
    }

    /** Overwriting one entry changes the route to its address and no other. */
    twostate lemma Overwritten(l: RouteEntry)
      requires hash == old(hash) && old(Valid())
      requires old(l.addr) in hash && hash[old(l.addr)] == l && l.addr == old(l.addr)
      requires forall e :: e in hash.Values && e != l ==> unchanged(e)
      ensures Valid() && View() == old(View())[l.addr := l.View()]
    {
      forall k | k in hash && k != l.addr
        ensures hash[k] != l && unchanged(hash[k])
      {
        assert old(hash[k].addr) == k;
        assert hash[k] in hash.Values;
      }
    }

    /** `lookup_route` */
    method Lookup(addr: int) returns (r: RouteEntry?)
      requires Valid()
      ensures match LookupRoute(byDefault, View(), addr)
        case None => r == null
        case Some(k) => k in hash && r == hash[k]
    {
      r := Get(addr);
      if r != null && r.cost >= INFINITY {
        r := null;
      }
    }

    /** `update_route` */
    method Update(r: Route) returns (changed: bool)
      requires Valid()
      modifies this, hash.Values
      ensures Valid() && Grown()
      ensures View() == Updated(byDefault, old(View()), r)
      ensures changed == UpdateReports(byDefault, old(View()), r)
    {
      var route := Lookup(r.addr);
      if route == null {
        var entry := new RouteEntry(r);
        Put(entry);
        return true;
      } else {
        assert hash[route.addr] == route;
        changed := route.iface != r.iface || route.cost != r.cost || route.nextHop != r.nextHop;
        route.iface, route.cost, route.nextHop := r.iface, r.cost, r.nextHop;
        Overwritten(route);
      }
    }

    /** A route takes the conduit's way; it may itself be the conduit. */
    method Adopt(l: RouteEntry, conduit: RouteEntry, cost: int)
      requires Valid() && l.addr in hash && hash[l.addr] == l
      modifies l
      ensures l.addr == old(l.addr) && Valid()
      ensures View() ==
        old(View())[l.addr := Route(l.addr, old(conduit.iface), old(conduit.addr), old(conduit.kind), cost)]
    {
      l.iface, l.nextHop, l.kind, l.cost := conduit.iface, conduit.addr, conduit.kind, cost;
      Overwritten(l);
    }

    /** The body of the loop of `rtable_merge`. */
    method MergeEntry(self: int, r: RouteEntry, conduit: RouteEntry)
      requires Valid() && r !in hash.Values
      requires conduit.addr in hash && hash[conduit.addr] == conduit
      modifies this, hash.Values
      ensures Valid() && Grown()
      ensures conduit.addr == old(conduit.addr) && conduit.addr in hash && hash[conduit.addr] == conduit
      ensures Leads(byDefault, self, conduit.addr, old(View()), [r.View()], View())
    {
      var cost := Min(conduit.cost + r.cost, INFINITY);
      if self == r.addr || byDefault == r.addr {
        MergeSkips(byDefault, self, conduit.addr, View(), r.View());
        return;
      }
      var l := Get(r.addr);
      if l == null {
        l := new RouteEntry(Route(r.addr, 0, 0, 0, 0));
        Put(l);
        assert conduit.addr in old(View()).Keys;
        Adopt(l, conduit, cost);
        MergeInserts(byDefault, self, conduit.addr, old(View()), r.View(), View());
      } else if l.cost <= cost && l.nextHop != conduit.addr {
        MergeKeeps(byDefault, self, conduit.addr, View(), r.View(), l.addr);
      } else {
        Adopt(l, conduit, cost);
        MergeAdopts(byDefault, self, conduit.addr, old(View()), r.View(), l.addr, View());
      }
    }

    /** Two tables that share no entry, the second holding `theirs`; the conduit is one of the first's. */
    ghost predicate Meets(remote: RouteTable, theirs: Table, conduit: RouteEntry, via: int)
      reads this, hash.Values, remote, remote.hash.Values, conduit
    {
      && Valid() && remote.Valid() && remote != this
      && remote.hash.Values !! hash.Values
      && remote.View() == theirs
      && conduit.addr == via && via in hash && hash[via] == conduit
    }

    /** One turn of the loop of `rtable_merge`; `mine` is the table as it was before the first, and `order`
        what has been gone through since. */
    method MergeNext(self: int, remote: RouteTable, k: int, conduit: RouteEntry, ghost mine: Table, ghost theirs: Table,
                     ghost order: seq<Route>, ghost todo: set<int>)
      requires Meets(remote, theirs, conduit, conduit.addr) && k in todo && k in theirs
      requires Lists(order, theirs - todo) && Leads(byDefault, self, conduit.addr, mine, order, View())
      modifies this, hash.Values
      ensures Meets(remote, theirs, conduit, old(conduit.addr)) && Grown()
      ensures Lists(order + [theirs[k]], theirs - (todo - {k}))
      ensures Leads(byDefault, self, old(conduit.addr), mine, order + [theirs[k]], View())
    {
      var r := remote.hash[k];
      assert r in remote.hash.Values;
      assert r.View() == theirs[k];
      ghost var was, via := View(), conduit.addr;
      MergeEntry(self, r, conduit);
      assert remote.View() == theirs;
      MergeFurther(byDefault, self, via, mine, order, was, View(), theirs, todo, k);
    }

    /** `rtable_merge`. The received table is gone through in whatever order its hash table has. */
    method Merge(self: int, remote: RouteTable, conduit: RouteEntry) returns (ghost order: seq<Route>)
      requires Meets(remote, remote.View(), conduit, conduit.addr)
      modifies this, hash.Values
      ensures Valid() && Grown()
      ensures Lists(order, remote.View()) && remote.View() == old(remote.View())
      ensures Leads(byDefault, self, old(conduit.addr), old(View()), order, View())
    {
      order := [];
      var todo := remote.hash.Keys;
      ghost var mine, theirs, via := View(), remote.View(), conduit.addr;
      assert theirs - todo == map[];
      while todo != {}
        invariant todo <= theirs.Keys && Grown() && Meets(remote, theirs, conduit, via)
        invariant Lists(order, theirs - todo)
        invariant Leads(byDefault, self, via, mine, order, View())
      {
        var k := Any(todo);
        MergeNext(self, remote, k, conduit, mine, theirs, order, todo);
        todo := todo - {k};
        order := order + [theirs[k]];
      }
      assert theirs - {} == theirs;
    }

    /** One turn of `rip_monitor`, from a neighbour whose table is `remote`. */
    method Hear(self: int, from: int, iface: int, kind: int, remote: RouteTable) returns (ghost order: seq<Route>)
      requires Valid() && remote.Valid() && remote != this && remote.hash.Values !! hash.Values
      modifies this, hash.Values
      ensures Valid() && Lists(order, old(remote.View()))
      ensures View() == Heard(byDefault, self, old(View()), Route(from, iface, from, kind, 1), order)
    {
      ghost var theirs := remote.View();
      var changed := Update(Route(from, iface, from, kind, 1));
      var conduit := Lookup(from);
      assert remote.View() == theirs;
      assert hash[conduit.addr] == conduit;
      order := Merge(self, remote, conduit);
    }

    /** `rtable_poison_iface` */
    method PoisonIface(iface: int)
      requires Valid()
      modifies hash.Values`cost
      ensures Valid() && View() == Poisoned(old(View()), iface)
    {
      var todo := hash.Keys;
      while todo != {}
        invariant todo <= hash.Keys
        invariant forall k :: k in hash ==>
          hash[k].View() == if k in todo then old(hash[k].View()) else Poisoned(old(View()), iface)[k]
      {
        var k := Any(todo);
        todo := todo - {k};
        if hash[k].iface == iface {
          hash[k].cost := INFINITY;
        }
      }
      forall k | k in View()
        ensures View()[k] == Poisoned(old(View()), iface)[k]
      {
        assert View()[k] == hash[k].View();
      }
    }
  }
}
