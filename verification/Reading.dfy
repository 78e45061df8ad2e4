/** What `v_read` can deliver from a stretch of the receive buffer, however it is cut into reads. */
module Reading {
  import opened Common
  import opened RingBuffer
  import opened Connection

  /** The bytes of [lo, hi) in order, up to the first EOF; cells of other types are passed over. */
  function Stream(b: seq<Cell>, lo: nat, hi: nat): (s: seq<byte>)
    requires |b| > 0
    ensures |s| <= if lo < hi then hi - lo else 0
    decreases hi - lo
  {
    if lo >= hi || At(b, lo).kind == EOF then []
    else if DataOrEof(At(b, lo).kind) then [At(b, lo).value] + Stream(b, lo + 1, hi)
    else Stream(b, lo + 1, hi)
  }

  /** The position of the first EOF in [lo, hi), or `hi`. */
  function FirstEof(b: seq<Cell>, lo: nat, hi: nat): (p: nat)
    requires |b| > 0 && lo <= hi
    ensures lo <= p <= hi
    decreases hi - lo
  {
    if lo == hi || At(b, lo).kind == EOF then lo else FirstEof(b, lo + 1, hi)
  }

  lemma {:induction false} FirstEofIs(b: seq<Cell>, lo: nat, hi: nat)
    requires |b| > 0 && lo <= hi
    ensures FirstEof(b, lo, hi) < hi ==> At(b, FirstEof(b, lo, hi)).kind == EOF
    ensures forall q :: lo <= q < FirstEof(b, lo, hi) ==> At(b, q).kind != EOF
    decreases hi - lo
  {
    if lo < hi && At(b, lo).kind != EOF {
      FirstEofIs(b, lo + 1, hi);
    }
  }

  lemma StreamOfData(b: seq<Cell>, lo: nat, hi: nat)
    requires |b| > 0 && lo < hi && At(b, lo).kind == DATA
    ensures Stream(b, lo, hi) == [At(b, lo).value] + Stream(b, lo + 1, hi)
    ensures FirstEof(b, lo, hi) == FirstEof(b, lo + 1, hi)
  {
  }

  lemma {:induction false} StreamOfRun(b: seq<Cell>, lo: nat, hi: nat, n: nat)
    requires |b| > 0 && lo + n <= hi
    requires AllData(b, lo, lo + n)
    ensures Stream(b, lo, hi) == Values(b, lo, n) + Stream(b, lo + n, hi)
    ensures FirstEof(b, lo, hi) == FirstEof(b, lo + n, hi)
    decreases n
  {
    if n > 0 {
      StreamOfData(b, lo, hi);
      StreamOfRun(b, lo + 1, hi, n - 1);
      ValuesCons(b, lo, n);
      var x, v, rest := At(b, lo).value, Values(b, lo + 1, n - 1), Stream(b, lo + n, hi);
      assert [x] + (v + rest) == ([x] + v) + rest;
    } else {
      assert Values(b, lo, 0) == [];
    }
  }

  /** A read that starts on DATA returns the run there, cut at what was asked for. */
  lemma ReadOfRun(b: seq<Cell>, lo: nat, hi: nat, max: nat)
    requires |b| > 0 && lo < hi && max > 0 && At(b, lo).kind == DATA
    ensures var n := DataRun(b, lo, Min(max, hi - lo));
      0 < n && GetData(b, lo, hi, max) == (Bytes(Values(b, lo, n)), lo + n)
  {
  }

  /** What one read may report, of a stretch read from `lo` and left at `at`. */
  ghost predicate Taken(b: seq<Cell>, lo: nat, hi: nat, max: nat, r: ReadResult, at: nat)
    requires |b| > 0 && lo <= at <= hi
  {
    && (r.EndOfFile? <==> Stream(b, lo, hi) == [] && FirstEof(b, lo, hi) < hi)
    && (r.EndOfFile? ==> at == FirstEof(b, lo, hi) + 1)
    && (r.Bytes? ==>
          && |r.data| <= max
          && Stream(b, lo, hi) == r.data + Stream(b, at, hi)
          && FirstEof(b, at, hi) == FirstEof(b, lo, hi)
          && (r.data == [] ==> at == hi))
  }

  lemma RunTaken(b: seq<Cell>, lo: nat, hi: nat, max: nat, r: (ReadResult, nat))
    requires |b| > 0 && lo < hi && max > 0 && At(b, lo).kind == DATA && r == GetData(b, lo, hi, max)
    ensures Taken(b, lo, hi, max, r.0, r.1)
  {
    ReadOfRun(b, lo, hi, max);
    var n := DataRun(b, lo, Min(max, hi - lo));
    StreamOfRun(b, lo, hi, n);
  }

  /** A cell that is neither FLAG nor EOF, though not DATA, is read by itself. */
  lemma OddTaken(b: seq<Cell>, lo: nat, hi: nat, max: nat, r: (ReadResult, nat))
    requires |b| > 0 && lo < hi && max > 0 && r == GetData(b, lo, hi, max)
    requires var kind := At(b, lo).kind; kind != DATA && kind != EOF && DataOrEof(kind)
    ensures Taken(b, lo, hi, max, r.0, r.1)
  {
    var x := At(b, lo).value;
    ValuesCons(b, lo, 1);
    assert Values(b, lo, 1) == [x];
    assert GetRange(b, lo, Min(max, hi - lo)) == Range(1, Some([x]));
    assert Stream(b, lo, hi) == [x] + Stream(b, lo + 1, hi);
  }

  /** An EOF is consumed, and reported. */
  lemma EofTaken(b: seq<Cell>, lo: nat, hi: nat, max: nat, r: (ReadResult, nat))
    requires |b| > 0 && lo < hi && max > 0 && At(b, lo).kind == EOF && r == GetData(b, lo, hi, max)
    ensures Taken(b, lo, hi, max, r.0, r.1)
  {
    ControlAlone(b, lo, Min(max, hi - lo));
    assert r == (EndOfFile, lo + 1);
    assert Stream(b, lo, hi) == [] && FirstEof(b, lo, hi) == lo;
  }

  /** A flag is passed over. */
  lemma FlagTaken(b: seq<Cell>, lo: nat, hi: nat, max: nat, r: (ReadResult, nat))
    requires |b| > 0 && lo < hi && max > 0 && At(b, lo).kind != EOF && !DataOrEof(At(b, lo).kind)
    requires r == GetData(b, lo + 1, hi, max) && Taken(b, lo + 1, hi, max, r.0, r.1)
    ensures GetData(b, lo, hi, max) == r && Taken(b, lo, hi, max, r.0, r.1)
  {
    assert Stream(b, lo, hi) == Stream(b, lo + 1, hi) && FirstEof(b, lo, hi) == FirstEof(b, lo + 1, hi);
  }

  lemma NothingTaken(b: seq<Cell>, lo: nat, max: nat, r: (ReadResult, nat))
    requires |b| > 0 && r == GetData(b, lo, lo, max)
    ensures Taken(b, lo, lo, max, r.0, r.1)
  {
  }

  /** One read takes the next bytes of the stream, at least one if there is any and no more than asked
      for; it reports end of file if and only if no byte precedes an EOF, and then consumes the EOF. */
  lemma {:induction false} ReadTakes(b: seq<Cell>, lo: nat, hi: nat, max: nat, r: (ReadResult, nat))
    requires |b| > 0 && lo <= hi && max > 0 && r == GetData(b, lo, hi, max)
    ensures Taken(b, lo, hi, max, r.0, r.1)
    decreases hi - lo
  {
    if lo == hi {
      NothingTaken(b, lo, max, r);
    } else if At(b, lo).kind == DATA {
      RunTaken(b, lo, hi, max, r);
    } else if At(b, lo).kind == EOF {
      EofTaken(b, lo, hi, max, r);
    } else if DataOrEof(At(b, lo).kind) {
      OddTaken(b, lo, hi, max, r);
    } else {
      var r' := GetData(b, lo + 1, hi, max);
      ReadTakes(b, lo + 1, hi, max, r');
      FlagTaken(b, lo, hi, max, r');
    }
  }

  /** The bytes a list of reads returns before the first end of file, and whether that was met. */
  function Drain(b: seq<Cell>, lo: nat, hi: nat, sizes: seq<nat>): (seq<byte>, bool)
    requires |b| > 0 && lo <= hi
    decreases |sizes|
  {
    if sizes == [] then ([], false)
    else
      var (r, at) := GetData(b, lo, hi, sizes[0]);
      match r
      case EndOfFile => ([], true)
      case Bytes(data) =>
        var rest := Drain(b, at, hi, sizes[1..]);
        (data + rest.0, rest.1)
  }

  /** Reads of any positive sizes deliver a prefix of the stream, end of file only after all of it, and,
      when there are more reads than bytes, all of it, with end of file if and only if an EOF is there. */
  lemma {:induction false} DrainDelivers(b: seq<Cell>, lo: nat, hi: nat, sizes: seq<nat>)
    requires |b| > 0 && lo <= hi
    requires forall i :: 0 <= i < |sizes| ==> sizes[i] > 0
    ensures var (data, end) := Drain(b, lo, hi, sizes);
      && data <= Stream(b, lo, hi)
      && (end ==> data == Stream(b, lo, hi) && FirstEof(b, lo, hi) < hi)
      && (|sizes| > |Stream(b, lo, hi)| ==> data == Stream(b, lo, hi) && end == (FirstEof(b, lo, hi) < hi))
    decreases |sizes|
  {
    if sizes != [] {
      ReadTakes(b, lo, hi, sizes[0], GetData(b, lo, hi, sizes[0]));
      var (r, at) := GetData(b, lo, hi, sizes[0]);
      if r.Bytes? {
        DrainDelivers(b, at, hi, sizes[1..]);
        if r.data == [] {
          assert Stream(b, lo, hi) == [] && FirstEof(b, lo, hi) == hi;
        }
      }
    }
  }

  /** So how a reader cuts its reads does not matter. */
  lemma ChunksDoNotMatter(b: seq<Cell>, lo: nat, hi: nat, sizes: seq<nat>, sizes': seq<nat>)
    requires |b| > 0 && lo <= hi
    requires forall i :: 0 <= i < |sizes| ==> sizes[i] > 0
    requires forall i :: 0 <= i < |sizes'| ==> sizes'[i] > 0
    requires |sizes| > |Stream(b, lo, hi)| && |sizes'| > |Stream(b, lo, hi)|
    ensures Drain(b, lo, hi, sizes) == Drain(b, lo, hi, sizes')
  {
    DrainDelivers(b, lo, hi, sizes);
    DrainDelivers(b, lo, hi, sizes');
  }

  /** The stream depends on the cells of its stretch only. */
  lemma {:induction false} StreamFrame(b: seq<Cell>, b': seq<Cell>, lo: nat, hi: nat)
    requires |b| > 0 && |b'| > 0 && lo <= hi
    requires forall p :: lo <= p < hi ==> At(b', p) == At(b, p)
    ensures Stream(b', lo, hi) == Stream(b, lo, hi)
    ensures FirstEof(b', lo, hi) == FirstEof(b, lo, hi)
    decreases hi - lo
  {
    if lo < hi {
      assert At(b', lo) == At(b, lo);
      StreamFrame(b, b', lo + 1, hi);
    }
  }

  /** Streams of adjacent stretches join, when the first holds no EOF. */
  lemma {:induction false} StreamSplit(b: seq<Cell>, lo: nat, mid: nat, hi: nat)
    requires |b| > 0 && lo <= mid <= hi
    requires FirstEof(b, lo, mid) == mid
    ensures Stream(b, lo, hi) == Stream(b, lo, mid) + Stream(b, mid, hi)
    ensures FirstEof(b, lo, hi) == FirstEof(b, mid, hi)
    decreases mid - lo
  {
    if lo < mid {
      StreamSplit(b, lo + 1, mid, hi);
      var s, t := Stream(b, lo + 1, mid), Stream(b, mid, hi);
      assert [At(b, lo).value] + (s + t) == ([At(b, lo).value] + s) + t;
    }
  }
}
