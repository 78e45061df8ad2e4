/** The typed ring buffer (`cbuffer.c`, `cbuffer.h`): cells of a type and a byte, addressed by a
    sequence number reduced modulo the size. */
module RingBuffer {
  import opened Common
  import Modulo

  const BLANK: byte := 0x00
  const DATA: byte := 0x01
  const FLAG: byte := 0x02
  const EOF: byte := 0x04

  datatype Cell = Cell(kind: byte, value: byte)

  /** What `cbuf_get_range` hands back: its return value and the buffer it allocated, `None` standing
      for the NULL that marks an end of file. */
  datatype Range = Range(ret: int, data: Option<seq<byte>>)

  /** `t & (CBUF_DATA|CBUF_EOF)` */
  predicate DataOrEof(kind: byte) {
    kind % 2 == 1 || (kind / 4) % 2 == 1
  }

  function DataCells(data: seq<byte>): (cells: seq<Cell>)
    ensures |cells| == |data|
  {
    seq(|data|, i requires 0 <= i < |data| => Cell(DATA, data[i]))
  }

  // The contents as values

  function At(b: seq<Cell>, position: nat): Cell
    requires |b| > 0
  {
    b[position % |b|]
  }

  function Put(b: seq<Cell>, position: nat, cell: Cell): (r: seq<Cell>)
    requires |b| > 0
    ensures |r| == |b|
  {
    b[position % |b| := cell]
  }

  function PutRange(b: seq<Cell>, start: nat, data: seq<byte>): (r: seq<Cell>)
    requires |data| <= |b|
    ensures |r| == |b|
  {
    seq(|b|, k requires 0 <= k < |b| =>
      var offset := (k - start) % |b|;
      if offset < |data| then Cell(DATA, data[offset]) else b[k])
  }

  predicate AllData(b: seq<Cell>, lo: nat, hi: nat)
    requires |b| > 0
  {
    forall p :: lo <= p < hi ==> At(b, p).kind == DATA
  }

  /** How many of the `len` positions from `start` are DATA before the first that is not. */
  function DataRun(b: seq<Cell>, start: nat, len: nat): (n: nat)
    requires |b| > 0
    ensures n <= len
    ensures AllData(b, start, start + n)
    ensures n < len ==> At(b, start + n).kind != DATA
    decreases len
  {
    if len == 0 || At(b, start).kind != DATA then 0 else 1 + DataRun(b, start + 1, len - 1)
  }

  function Values(b: seq<Cell>, start: nat, n: nat): (v: seq<byte>)
    requires |b| > 0
    ensures |v| == n
  {
    seq<byte>(n, i requires 0 <= i < n => At(b, start + i).value)
  }

  lemma ValuesCons(b: seq<Cell>, start: nat, n: nat)
    requires |b| > 0 && n > 0
    ensures Values(b, start, n) == [At(b, start).value] + Values(b, start + 1, n - 1)
  {
    var v, w := Values(b, start, n), [At(b, start).value] + Values(b, start + 1, n - 1);
    forall i | 0 <= i < n
      ensures v[i] == w[i]
    {
      if i > 0 {
        assert w[i] == At(b, start + 1 + (i - 1)).value;
      }
    }
  }

  /** How many cells the iteration macro visits: the whole DATA run, or a single cell of another type. */
  function Visited(b: seq<Cell>, start: nat, len: nat): nat
    requires |b| > 0
  {
    if At(b, start).kind == DATA then DataRun(b, start, len) else Min(len, 1)
  }

  function GetRange(b: seq<Cell>, start: nat, len: nat): (r: Range)
    requires |b| > 0
    ensures r.ret <= len
  {
    var kind := At(b, start).kind;
    var n := Visited(b, start, len);
    Range(if DataOrEof(kind) then n else -1,
          if kind == EOF then None else Some(Values(b, start, n)))
  }

  // Laws

  /** Writing `data` from `start` changes the cells less than `|data|` positions past `start`, on
      whatever lap, and no others. */
  lemma PutRangeAt(b: seq<Cell>, start: nat, data: seq<byte>, p: nat)
    requires 0 < |b| && |data| <= |b|
    ensures At(PutRange(b, start, data), p) ==
      var offset := (p - start) % |b|;
      if offset < |data| then Cell(DATA, data[offset]) else At(b, p)
  {
    Modulo.Difference(p, start, |b|);
  }

  lemma PutAt(b: seq<Cell>, q: nat, cell: Cell, p: nat)
    requires 0 < |b|
    ensures At(Put(b, q, cell), p) == if p % |b| == q % |b| then cell else At(b, p)
  {
  }

  /** One more byte is one more cell put at the next position. */
  lemma PutRangeSnoc(b: seq<Cell>, start: nat, data: seq<byte>, x: byte)
    requires |data| < |b|
    ensures PutRange(b, start, data + [x]) == Put(PutRange(b, start, data), start + |data|, Cell(DATA, x))
  {
    var n := |b|;
    var lhs := PutRange(b, start, data + [x]);
    var rhs := Put(PutRange(b, start, data), start + |data|, Cell(DATA, x));
    forall k | 0 <= k < n
      ensures lhs[k] == rhs[k]
    {
      var offset := (k - start) % n;
      Modulo.Small(k, n);
      if offset == |data| {
        Modulo.Sum(k - start, start, n);
        assert k == (offset + start) % n;
      } else if k == (start + |data|) % n {
        Modulo.Difference(start + |data|, start, n);
        Modulo.Small(|data|, n);
        assert false;
      }
    }
    assert lhs == rhs;
  }

  /** Within one lap of `start` the positions written read back, and the others are as before. */
  lemma PutRangeWithinLap(b: seq<Cell>, start: nat, data: seq<byte>, p: nat)
    requires 0 < |b| && |data| <= |b|
    requires start + |data| - |b| <= p < start + |b|
    ensures At(PutRange(b, start, data), p) ==
            if start <= p < start + |data| then Cell(DATA, data[p - start]) else At(b, p)
  {
    PutRangeAt(b, start, data, p);
    if p >= start {
      Modulo.Small(p - start, |b|);
    } else {
      Modulo.Residue(p - start, |b|, -1, p - start + |b|);
    }
  }

  /** What was written at any position, around any wrap, is what is read from there. */
  lemma ReadBack(b: seq<Cell>, start: nat, data: seq<byte>)
    requires 1 <= |data| <= |b|
    ensures GetRange(PutRange(b, start, data), start, |data|) == Range(|data|, Some(data))
  {
    var r := PutRange(b, start, data);
    forall p | start <= p < start + |data|
      ensures At(r, p) == Cell(DATA, data[p - start])
    {
      PutRangeWithinLap(b, start, data, p);
    }
    LongestRun(r, start, |data|, |data|);
    assert Values(r, start, |data|) == data;
  }

  /** A single leading FLAG or EOF is returned alone, whatever length was asked for. */
  lemma ControlAlone(b: seq<Cell>, start: nat, len: nat)
    requires 0 < |b| && 0 < len
    requires At(b, start).kind == FLAG || At(b, start).kind == EOF
    ensures GetRange(b, start, len) ==
            if At(b, start).kind == FLAG then Range(-1, Some([At(b, start).value])) else Range(1, None)
  {
    assert Values(b, start, 1) == [At(b, start + 0).value];
  }

  lemma {:induction false} RunIs(b: seq<Cell>, start: nat, len: nat, n: nat)
    requires 0 < |b| && n <= len
    requires AllData(b, start, start + n)
    requires n < len ==> At(b, start + n).kind != DATA
    ensures DataRun(b, start, len) == n
    decreases n
  {
    if n > 0 {
      assert At(b, start).kind == DATA;
      RunIs(b, start + 1, len - 1, n - 1);
    }
  }

  /** Otherwise the longest run of DATA that the length allows. */
  lemma LongestRun(b: seq<Cell>, start: nat, len: nat, n: nat)
    requires 0 < |b| && n <= len
    requires At(b, start).kind == DATA
    requires AllData(b, start, start + n)
    requires n < len ==> At(b, start + n).kind != DATA
    ensures GetRange(b, start, len) == Range(n, Some(Values(b, start, n)))
  {
    RunIs(b, start, len, n);
  }

  /** `cbuf_t`: types at the even indices of `data`, bytes at the odd ones. */
  class CBuffer {
    const size: nat
    const data: array<byte>

    ghost predicate Valid() {
      size > 0 && data.Length == 2 * size
    }

    ghost function Cells(): (cells: seq<Cell>)
      requires Valid()
      reads data
      ensures |cells| == size
    {
      seq(size, i requires 0 <= i < size reads data => Cell(data[2 * i], data[2 * i + 1]))
    }

    /** `cbuf_new`. The source leaves the cells as `malloc` finds them; here they start blank. */
    constructor (size: nat)
      requires size > 0
      ensures Valid() && this.size == size && fresh(data)
      ensures Cells() == seq(size, _ => Cell(BLANK, 0))
    {
      this.size := size;
      var d := new byte[2 * size](_ => 0);
      data := d;
      new;
      assert forall i :: 0 <= i < size ==> Cells()[i] == Cell(BLANK, 0);
    }

    /** `__cbuf_put` */
    method PutCell(index: nat, value: byte, kind: byte)
      requires Valid()
      modifies data
      ensures Cells() == Put(old(Cells()), index, Cell(kind, value))
    {
      var k := index % size;
      data[2 * k] := kind;
      data[2 * k + 1] := value;
      assert Cells() == Put(old(Cells()), index, Cell(kind, value));
    }

    /** `__cbuf_get` */
    method GetCell(index: nat) returns (value: byte, kind: byte)
      requires Valid()
      ensures Cell(kind, value) == At(Cells(), index)
    {
      var k := index % size;
      kind := data[2 * k];
      value := data[2 * k + 1];
    }

    /** `cbuf_put_range`, over the `cbuf_r_loop` macro. */
    method PutBytes(buffer: seq<byte>, start: nat)
      requires Valid() && |buffer| <= size
      modifies data
      ensures Cells() == PutRange(old(Cells()), start, buffer)
    {
      var count := 0;
      var i := start % size;
      assert buffer[..0] == [] && Cells() == PutRange(Cells(), start, []);
      while count < |buffer|
        invariant 0 <= count <= |buffer|
        invariant i == (start + count) % size
        invariant Cells() == PutRange(old(Cells()), start, buffer[..count])
      {
        assert buffer[..count + 1] == buffer[..count] + [buffer[count]];
        PutRangeSnoc(old(Cells()), start, buffer[..count], buffer[count]);
        Modulo.Small(i, size);
        PutCell(i, buffer[count], DATA);
        Modulo.Sum(start + count, 1, size);
        count := count + 1;
        i := (i + 1) % size;
      }
      assert buffer[..count] == buffer;
    }

    /** `cbuf_get_range`, over the `cbuf_loop` macro: `kind` is the type of the first cell, `here` that
        of the current one, and `more` is cleared by the first later cell that is not DATA. */
    method GetBytes(start: nat, len: nat) returns (r: Range)
      requires Valid() && len <= size
      ensures r == GetRange(Cells(), start, len)
    {
      ghost var b := Cells();
      var bytes: seq<byte> := [];
      var i := start % size;
      Modulo.Small(i, size);
      var value, kind := GetCell(i);
      var here := kind;
      var more := true;
      var count := 0;
      while count < len && here == kind && more
        invariant 0 <= count <= len && count == |bytes|
        invariant i == (start + count) % size
        invariant Cell(here, value) == At(b, start + count)
        invariant kind == At(b, start).kind
        invariant bytes == Values(b, start, count)
        invariant more == (count == 0 || here == DATA)
        invariant kind == DATA ==> AllData(b, start, start + count)
        invariant kind != DATA ==> count <= 1 && (count == 1 ==> !(here == kind && more))
      {
        bytes := bytes + [value];
        Modulo.Sum(start + count, 1, size);
        i := (i + 1) % size;
        Modulo.Small(i, size);
        value, here := GetCell(i);
        more := here == DATA;
        count := count + 1;
      }
      if kind == DATA {
        LongestRun(b, start, len, count);
      }
      r := Range(if DataOrEof(kind) then count else -1, if kind == EOF then None else Some(bytes));
    }
  }
}
