/** `rtable_serialize` and `rtable_unserialize`: a route table as the bytes of its entries, one after the
    other. An entry is five 32-bit integers, lowest byte first: 20 bytes, 4 for each. */
module WireForms {
  import opened Common
  import opened Routes
  import opened RouteTables

  /** What a C `int` holds. */
  predicate IsInt(x: int) {
    -0x8000_0000 <= x < 0x8000_0000
  }

  predicate IsEntry(r: Route) {
    IsInt(r.addr) && IsInt(r.iface) && IsInt(r.nextHop) && IsInt(r.kind) && IsInt(r.cost)
  }

  function Power(n: nat): nat {
    if n == 0 then 1 else 256 * Power(n - 1)
  }

  /** The lowest `n` bytes of `u`, lowest first. */
  function LowBytes(u: nat, n: nat): (s: seq<byte>)
    ensures |s| == n
  {
    if n == 0 then [] else [u % 256] + LowBytes(u / 256, n - 1)
  }

  function FromBytes(s: seq<byte>): nat {
    if s == [] then 0 else s[0] + 256 * FromBytes(s[1..])
  }

  lemma {:induction false} BytesRoundTrip(u: nat, n: nat)
    requires u < Power(n)
    ensures FromBytes(LowBytes(u, n)) == u
  {
    if n > 0 {
      BytesRoundTrip(u / 256, n - 1);
      assert LowBytes(u, n)[1..] == LowBytes(u / 256, n - 1);
    }
  }

  function IntBytes(x: int): (s: seq<byte>)
    requires IsInt(x)
    ensures |s| == 4
  {
    LowBytes(Uint32(x), 4)
  }

  function BytesInt(s: seq<byte>): (x: int)
    requires |s| == 4
  {
    var u := FromBytes(s);
    if u >= 0x8000_0000 then u - 0x1_0000_0000 else u
  }

  lemma IntRoundTrip(x: int)
    requires IsInt(x)
    ensures BytesInt(IntBytes(x)) == x
  {
    assert Power(1) == 256 && Power(2) == 0x1_0000 && Power(3) == 0x100_0000 && Power(4) == 0x1_0000_0000;
    BytesRoundTrip(Uint32(x), 4);
  }

  ghost predicate AreInts(xs: seq<int>) {
    forall k :: 0 <= k < |xs| ==> IsInt(xs[k])
  }

  function IntsBytes(xs: seq<int>): (s: seq<byte>)
    requires forall k :: 0 <= k < |xs| ==> IsInt(xs[k])
    ensures |s| == 4 * |xs|
  {
    if xs == [] then [] else IntBytes(xs[0]) + IntsBytes(xs[1..])
  }

  function BytesInts(s: seq<byte>): (xs: seq<int>)
    requires |s| % 4 == 0
    ensures |s| == 4 * |xs|
  {
    if s == [] then [] else [BytesInt(s[..4])] + BytesInts(s[4..])
  }

  lemma {:induction false} IntsRoundTrip(xs: seq<int>)
    requires AreInts(xs)
    ensures BytesInts(IntsBytes(xs)) == xs
  {
    if xs != [] {
      IntRoundTrip(xs[0]);
      IntsRoundTrip(xs[1..]);
      var s := IntsBytes(xs);
      assert s[..4] == IntBytes(xs[0]) && s[4..] == IntsBytes(xs[1..]);
    }
  }

  /** The struct's fields, in order. */
  function Fields(r: Route): (xs: seq<int>)
    ensures |xs| == 5
  {
    [r.addr, r.iface, r.nextHop, r.kind, r.cost]
  }

  function EntryBytes(r: Route): (s: seq<byte>)
    requires IsEntry(r)
    ensures |s| == 20
  {
    IntsBytes(Fields(r))
  }

  function BytesEntry(s: seq<byte>): (r: Route)
    requires |s| == 20
  {
    var xs := BytesInts(s);
    Route(xs[0], xs[1], xs[2], xs[3], xs[4])
  }

  /** The four bytes at `at` are `x` in two's complement, lowest byte first. */
  ghost predicate HasInt(s: seq<byte>, at: nat, x: int) {
    && at + 4 <= |s|
    && var b0: int, b1: int, b2: int, b3: int := s[at], s[at + 1], s[at + 2], s[at + 3];
       b0 + 0x100 * b1 + 0x1_0000 * b2 + 0x100_0000 * b3 == Uint32(x)
  }

  lemma IntLayout(x: int)
    requires IsInt(x)
    ensures HasInt(IntBytes(x), 0, x)
  {
    var u := Uint32(x);
    FourBytes(u);
    FourDigits(u);
  }

  lemma FourBytes(u: nat)
    ensures var s := LowBytes(u, 4);
      s[0] == u % 256 && s[1] == u / 256 % 256 && s[2] == u / 256 / 256 % 256 && s[3] == u / 256 / 256 / 256 % 256
  {
    var s3, s2, s1 := LowBytes(u / 256, 3), LowBytes(u / 256 / 256, 2), LowBytes(u / 256 / 256 / 256, 1);
    assert LowBytes(u, 4) == [u % 256] + s3;
    assert s3 == [u / 256 % 256] + s2;
    assert s2 == [u / 256 / 256 % 256] + s1;
  }

  lemma FourDigits(u: nat)
    requires u < 0x1_0000_0000
    ensures u % 256 + 0x100 * (u / 256 % 256) + 0x1_0000 * (u / 256 / 256 % 256)
              + 0x100_0000 * (u / 256 / 256 / 256 % 256) == u
  {
  }

  /** The bytes of an entry: address, interface, next hop, type and cost at 0, 4, 8, 12 and 16. */
  lemma EntryLayout(r: Route)
    requires IsEntry(r)
    ensures var s := EntryBytes(r);
      HasInt(s, 0, r.addr) && HasInt(s, 4, r.iface) && HasInt(s, 8, r.nextHop) && HasInt(s, 12, r.kind)
      && HasInt(s, 16, r.cost)
  {
    IntLayout(r.addr);
    IntLayout(r.iface);
    IntLayout(r.nextHop);
    IntLayout(r.kind);
    IntLayout(r.cost);
    FiveInts(r.addr, r.iface, r.nextHop, r.kind, r.cost);
  }

  lemma FiveInts(a: int, b: int, c: int, d: int, e: int)
    requires IsInt(a) && IsInt(b) && IsInt(c) && IsInt(d) && IsInt(e)
    ensures IntsBytes([a, b, c, d, e]) == IntBytes(a) + IntBytes(b) + IntBytes(c) + IntBytes(d) + IntBytes(e)
  {
    assert [a, b, c, d, e][1..] == [b, c, d, e];
    assert [b, c, d, e][1..] == [c, d, e];
    assert [c, d, e][1..] == [d, e];
    assert [d, e][1..] == [e];
    assert IntsBytes([e]) == IntBytes(e);
    assert IntsBytes([d, e]) == IntBytes(d) + IntsBytes([e]);
    assert IntsBytes([c, d, e]) == IntBytes(c) + IntsBytes([d, e]);
    assert IntsBytes([b, c, d, e]) == IntBytes(b) + IntsBytes([c, d, e]);
  }

  lemma EntryRoundTrip(r: Route)
    requires IsEntry(r)
    ensures BytesEntry(EntryBytes(r)) == r
  {
    IntsRoundTrip(Fields(r));
  }

  predicate AreEntries(rs: seq<Route>) {
    forall k :: 0 <= k < |rs| ==> IsEntry(rs[k])
  }

  /** Blocks of 20 bytes, one after the other, and back. */
  function Flatten(es: seq<seq<byte>>): (s: seq<byte>)
    requires forall k :: 0 <= k < |es| ==> |es[k]| == 20
    ensures |s| == 20 * |es|
  {
    if es == [] then [] else Flatten(es[..|es| - 1]) + es[|es| - 1]
  }

  function Blocks(s: seq<byte>): (es: seq<seq<byte>>)
    requires |s| % 20 == 0
    ensures |s| == 20 * |es| && forall k :: 0 <= k < |es| ==> |es[k]| == 20
    decreases |s|
  {
    if s == [] then [] else Blocks(s[..|s| - 20]) + [s[|s| - 20..]]
  }

  lemma {:induction false} BlocksOfFlatten(es: seq<seq<byte>>)
    requires forall k :: 0 <= k < |es| ==> |es[k]| == 20
    ensures Blocks(Flatten(es)) == es
  {
    if es != [] {
      BlocksOfFlatten(es[..|es| - 1]);
      var s := Flatten(es);
      assert s[..|s| - 20] == Flatten(es[..|es| - 1]) && s[|s| - 20..] == es[|es| - 1];
    }
  }

  lemma Associative<T>(a: seq<T>, b: seq<T>, c: seq<T>)
    ensures (a + b) + c == a + (b + c)
  {
  }

  lemma {:induction false} FlattenConcat(es: seq<seq<byte>>, es': seq<seq<byte>>)
    requires forall k :: 0 <= k < |es| ==> |es[k]| == 20
    requires forall k :: 0 <= k < |es'| ==> |es'[k]| == 20
    ensures Flatten(es + es') == Flatten(es) + Flatten(es')
    decreases |es'|
  {
    if es' == [] {
      assert es + es' == es;
    } else {
      var front := es'[..|es'| - 1];
      FlattenConcat(es, front);
      assert (es + es')[..|es + es'| - 1] == es + front;
      Associative(Flatten(es), Flatten(front), es'[|es'| - 1]);
    }
  }

  function Entries(rs: seq<Route>): (es: seq<seq<byte>>)
    requires AreEntries(rs)
    ensures |es| == |rs| && forall k :: 0 <= k < |es| ==> |es[k]| == 20
  {
    seq(|rs|, k requires 0 <= k < |rs| => EntryBytes(rs[k]))
  }

  function Encoded(rs: seq<Route>): (s: seq<byte>)
    requires AreEntries(rs)
    ensures |s| == 20 * |rs|
  {
    Flatten(Entries(rs))
  }

  function Decoded(s: seq<byte>): (rs: seq<Route>)
    requires |s| % 20 == 0
    ensures |s| == 20 * |rs|
  {
    var es := Blocks(s);
    seq(|es|, k requires 0 <= k < |es| => BytesEntry(es[k]))
  }

  lemma DecodedEncoded(rs: seq<Route>)
    requires AreEntries(rs)
    ensures Decoded(Encoded(rs)) == rs
  {
    BlocksOfFlatten(Entries(rs));
    forall k | 0 <= k < |rs|
      ensures BytesEntry(Entries(rs)[k]) == rs[k]
    {
      EntryRoundTrip(rs[k]);
    }
  }

  lemma DecodedMore(s: seq<byte>, e: seq<byte>)
    requires |s| % 20 == 0 && |e| == 20
    ensures Decoded(s + e) == Decoded(s) + [BytesEntry(e)]
  {
    assert (s + e)[..|s + e| - 20] == s && (s + e)[|s + e| - 20..] == e;
    assert Blocks(s + e) == Blocks(s) + [e];
  }

  lemma EncodedConcat(rs: seq<Route>, rs': seq<Route>)
    requires AreEntries(rs) && AreEntries(rs')
    ensures AreEntries(rs + rs') && Encoded(rs + rs') == Encoded(rs) + Encoded(rs')
  {
    FlattenConcat(Entries(rs), Entries(rs'));
    assert Entries(rs + rs') == Entries(rs) + Entries(rs');
  }

  lemma EncodedSnoc(front: seq<Route>, last: Route, rs: seq<Route>)
    requires AreEntries(front) && IsEntry(last) && rs == front + [last]
    ensures AreEntries(rs) && Encoded(rs) == Encoded(front) + EntryBytes(last)
  {
    assert Entries(rs) == Entries(front) + [EntryBytes(last)];
    assert Entries(rs)[..|Entries(rs)| - 1] == Entries(front);
  }

  /** The entries that are sent: those not reached by way of `filter`. */
  function Kept(rs: seq<Route>, filter: int): (ks: seq<Route>)
    ensures |ks| <= |rs|
    decreases |rs|
  {
    if rs == [] then []
    else Kept(rs[..|rs| - 1], filter) + if rs[|rs| - 1].nextHop != filter then [rs[|rs| - 1]] else []
  }

  lemma {:induction false} KeptEntries(rs: seq<Route>, filter: int)
    requires AreEntries(rs)
    ensures AreEntries(Kept(rs, filter))
    decreases |rs|
  {
    if rs != [] {
      KeptEntries(rs[..|rs| - 1], filter);
    }
  }

  /** Everything is kept, or else something is filtered out and fewer are. */
  lemma {:induction false} KeptAll(rs: seq<Route>, filter: int)
    ensures (forall k :: 0 <= k < |rs| ==> rs[k].nextHop != filter) ==> Kept(rs, filter) == rs
    ensures (exists k :: 0 <= k < |rs| && rs[k].nextHop == filter) ==> |Kept(rs, filter)| < |rs|
    decreases |rs|
  {
    if rs != [] {
      var front, last := rs[..|rs| - 1], rs[|rs| - 1];
      KeptAll(front, filter);
      assert rs == front + [last];
      if k :| 0 <= k < |rs| - 1 && rs[k].nextHop == filter {
        assert front[k].nextHop == filter;
      }
    }
  }

  /** The buffer holds one entry's bytes for every entry of the table; what was filtered out leaves its end
      as it was allocated. */
  ghost predicate IsWireForm(s: seq<byte>, rs: seq<Route>, filter: int)
    requires AreEntries(rs)
  {
    KeptEntries(rs, filter);
    && |s| == 20 * |rs|
    && Encoded(Kept(rs, filter)) <= s
  }

  lemma {:induction false} LastPutWins(rs: seq<Route>, x: Route, n: nat)
    requires n > 0
    ensures var t := Collected(rs + seq(n, _ => x)); x.addr in t && t[x.addr] == x
  {
    var all := rs + seq(n, _ => x);
    assert all[|all| - 1] == x;
  }

  /** What is received is the table that was sent, whatever the end of the buffer holds, if and only if
      nothing is reached by way of the filtered address. */
  lemma WireRoundTrip(t: Table, rs: seq<Route>, filter: int)
    requires Lists(rs, t) && AreEntries(rs)
    ensures (forall s :: IsWireForm(s, rs, filter) ==> Collected(Decoded(s)) == t)
       <==> (forall k :: 0 <= k < |rs| ==> rs[k].nextHop != filter)
  {
    var ks := Kept(rs, filter);
    KeptEntries(rs, filter);
    KeptAll(rs, filter);
    if forall k :: 0 <= k < |rs| ==> rs[k].nextHop != filter {
      forall s | IsWireForm(s, rs, filter)
        ensures Collected(Decoded(s)) == t
      {
        assert s == Encoded(rs);
        DecodedEncoded(rs);
      }
    } else {
      var k :| 0 <= k < |rs| && rs[k].nextHop == filter;
      var s := FilteredIsLost(t, rs, filter, k);
    }
  }

  /** The end of the buffer may happen to hold another route to a filtered address. */
  lemma FilteredIsLost(t: Table, rs: seq<Route>, filter: int, k: nat) returns (s: seq<byte>)
    requires Lists(rs, t) && AreEntries(rs) && k < |rs| && rs[k].nextHop == filter
    ensures IsWireForm(s, rs, filter) && Collected(Decoded(s)) != t
  {
    var ks := Kept(rs, filter);
    KeptEntries(rs, filter);
    KeptAll(rs, filter);
    var x := rs[k].(cost := if rs[k].cost == 0 then 1 else 0);
    var junk := seq(|rs| - |ks|, _ => x);
    EncodedConcat(ks, junk);
    s := Encoded(ks + junk);
    DecodedEncoded(ks + junk);
    LastPutWins(ks, x, |junk|);
    CollectedHolds(rs, k);
  }

  /** `s` is what has been written once the entries `rs` have been gone through. */
  ghost predicate Written(s: seq<byte>, rs: seq<Route>, filter: int) {
    && AreEntries(rs) && AreEntries(Kept(rs, filter))
    && s == Encoded(Kept(rs, filter)) && |s| <= 20 * |rs|
  }

  lemma WrittenMore(s: seq<byte>, rs: seq<Route>, filter: int, r: Route, s': seq<byte>)
    requires Written(s, rs, filter) && IsEntry(r)
    requires s' == if r.nextHop != filter then s + EntryBytes(r) else s
    ensures Written(s', rs + [r], filter)
  {
    assert (rs + [r])[..|rs + [r]| - 1] == rs;
    if r.nextHop != filter {
      EncodedSnoc(Kept(rs, filter), r, Kept(rs, filter) + [r]);
    } else {
      assert Kept(rs, filter) + [] == Kept(rs, filter);
    }
  }

  /** `rtable_entry_serialize`, unless the entry is filtered out. */
  method WriteEntry(buffer: array<byte>, at: nat, entry: RouteEntry, filter: int) returns (at': nat)
    requires at + 20 <= buffer.Length && IsEntry(entry.View())
    modifies buffer
    ensures at <= at' <= buffer.Length
    ensures buffer[..at'] ==
      if entry.nextHop != filter then old(buffer[..at]) + EntryBytes(entry.View()) else old(buffer[..at])
  {
    at' := at;
    if entry.nextHop != filter {
      var e := EntryBytes(entry.View());
      forall k | 0 <= k < 20 {
        buffer[at + k] := e[k];
      }
      at' := at + 20;
      assert buffer[..at'] == old(buffer[..at]) + e;
    }
  }

  /** All of `t` but `todo` has been gone through, in the order `rs`. */
  ghost predicate Midway(t: Table, todo: set<int>, rs: seq<Route>, filter: int, s: seq<byte>) {
    todo <= t.Keys && |rs| + |todo| == |t| && Lists(rs, t - todo) && Written(s, rs, filter)
  }

  lemma MidwayOn(t: Table, todo: set<int>, rs: seq<Route>, filter: int, s: seq<byte>, k: int, s': seq<byte>)
    requires Keyed(t) && Midway(t, todo, rs, filter, s) && k in todo && IsEntry(t[k])
    requires s' == if t[k].nextHop != filter then s + EntryBytes(t[k]) else s
    ensures Midway(t, todo - {k}, rs + [t[k]], filter, s')
  {
    ListsMore(rs, t, todo, k);
    WrittenMore(s, rs, filter, t[k], s');
  }

  /** There is room for an entry as long as one is to come. */
  lemma MidwayFits(t: Table, todo: set<int>, rs: seq<Route>, filter: int, s: seq<byte>)
    requires Midway(t, todo, rs, filter, s) && todo != {}
    ensures |s| + 20 <= 20 * |t|
  {
  }

  lemma MidwayStart(t: Table, filter: int)
    ensures Midway(t, t.Keys, [], filter, [])
  {
    assert t - t.Keys == map[];
  }

  lemma MidwayDone(t: Table, rs: seq<Route>, filter: int, s: seq<byte>, all: seq<byte>)
    requires Midway(t, {}, rs, filter, s) && s <= all && |all| == 20 * |t|
    ensures Lists(rs, t) && AreEntries(rs) && IsWireForm(all, rs, filter)
  {
    assert t - {} == t;
  }

  ghost predicate Fits(t: Table) {
    forall k :: k in t ==> IsEntry(t[k])
  }

  /** One turn of the loop of `rtable_serialize`. */
  method SerializeNext(entry: RouteEntry, buffer: array<byte>, at: nat, filter: int, k: int,
                       ghost t: Table, ghost todo: set<int>, ghost order: seq<Route>)
    returns (at': nat)
    requires Keyed(t) && k in todo && k in t && t[k] == entry.View() && IsEntry(t[k])
    requires at <= buffer.Length == 20 * |t| && Midway(t, todo, order, filter, buffer[..at])
    modifies buffer
    ensures at' <= buffer.Length && Midway(t, todo - {k}, order + [t[k]], filter, buffer[..at'])
  {
    MidwayFits(t, todo, order, filter, buffer[..at]);
    at' := WriteEntry(buffer, at, entry, filter);
    MidwayOn(t, todo, order, filter, old(buffer[..at]), k, buffer[..at']);
  }

  /** The loop of `rtable_serialize`, over a buffer that is long enough. */
  method SerializeAll(rt: RouteTable, buffer: array<byte>, filter: int, ghost t: Table)
    returns (ghost order: seq<Route>)
    requires rt.Valid() && Fits(t) && t == rt.View() && buffer.Length == 20 * |t|
    modifies buffer
    ensures Lists(order, t) && AreEntries(order) && IsWireForm(buffer[..], order, filter)
  {
    order := [];
    var todo := rt.hash.Keys;
    var at: nat := 0;
    assert t.Keys == todo;
    MidwayStart(t, filter);
    while todo != {}
      invariant todo <= t.Keys && at <= buffer.Length
      invariant Midway(t, todo, order, filter, buffer[..at])
    {
      var k := Any(todo);
      at := SerializeNext(rt.hash[k], buffer, at, filter, k, t, todo, order);
      todo := todo - {k};
      order := order + [t[k]];
    }
    MidwayDone(t, order, filter, buffer[..at], buffer[..]);
  }

  /** `rtable_serialize`; the buffer is as long as all the entries together. */
  method Serialize(rt: RouteTable, filter: int) returns (buffer: array<byte>, ghost order: seq<Route>)
    requires rt.Valid() && Fits(rt.View())
    ensures fresh(buffer) && Lists(order, rt.View()) && AreEntries(order)
    ensures IsWireForm(buffer[..], order, filter)
  {
    ghost var t := rt.View();
    assert t.Keys == rt.hash.Keys;
    buffer := new byte[20 * |rt.hash|];
    order := SerializeAll(rt, buffer, filter, t);
  }

  /** `rtable_entry_unserialize` */
  method ReadEntry(buffer: array<byte>, at: nat) returns (entry: RouteEntry)
    requires at + 20 <= buffer.Length
    ensures fresh(entry) && entry.View() == BytesEntry(buffer[at..at + 20])
  {
    entry := new RouteEntry(BytesEntry(buffer[at..at + 20]));
  }

  /** `t` is what the bytes `s` have put in a table. */
  ghost predicate Reads(s: seq<byte>, t: Table) {
    |s| % 20 == 0 && t == Collected(Decoded(s))
  }

  lemma ReadsMore(s: seq<byte>, t: Table, e: seq<byte>, r: Route)
    requires Reads(s, t) && |e| == 20 && r == BytesEntry(e)
    ensures Reads(s + e, Added(t, r))
  {
    var rs := Decoded(s);
    DecodedMore(s, e);
    assert (rs + [r])[..|rs + [r]| - 1] == rs;
  }

  /** One turn of the loop of `rtable_unserialize`. */
  method UnserializeNext(buffer: array<byte>, at: nat, rt: RouteTable)
    requires at + 20 <= buffer.Length && rt.Valid() && Reads(buffer[..at], rt.View())
    modifies rt`hash
    ensures rt.Valid() && Reads(buffer[..at + 20], rt.View())
    ensures forall k :: k in rt.hash ==> fresh(rt.hash[k]) || (k in old(rt.hash) && rt.hash[k] == old(rt.hash[k]))
  {
    var entry := ReadEntry(buffer, at);
    ReadsMore(buffer[..at], rt.View(), buffer[at..at + 20], entry.View());
    assert buffer[..at] + buffer[at..at + 20] == buffer[..at + 20];
    rt.Put(entry);
  }

  /** `rtable_unserialize`: of two entries with one address the second stays. It reads past the end of the
      buffer if and only if the length is not that of whole entries; the model stops there. */
  method Unserialize(buffer: array<byte>, byDefault: int) returns (rt: RouteTable, overrun: bool)
    ensures fresh(rt) && rt.Valid() && (forall k :: k in rt.hash ==> fresh(rt.hash[k]))
    ensures overrun <==> buffer.Length % 20 != 0
    ensures rt.View() == Collected(Decoded(buffer[..buffer.Length - buffer.Length % 20]))
  {
    rt := new RouteTable(byDefault);
    overrun := false;
    var at := 0;
    while at < buffer.Length
      invariant at <= buffer.Length && at % 20 == 0 && !overrun
      invariant fresh(rt) && rt.Valid() && (forall k :: k in rt.hash ==> fresh(rt.hash[k]))
      invariant Reads(buffer[..at], rt.View())
    {
      if buffer.Length - at < 20 {
        overrun := true;
        break;
      }
      UnserializeNext(buffer, at, rt);
      at := at + 20;
    }
    assert at == buffer.Length - buffer.Length % 20;
  }
}
