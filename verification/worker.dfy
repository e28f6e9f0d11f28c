/** `Buddha::worker`: the sample enumeration, the retention rule, the local
    buffer and its flushes into `data_`. The complex-plane side of each sample
    (`lin2complex`, `mandelbrot_hint`, the recurrence and `complex2lin`) is an
    oracle, `Orbits`. */
module Worker {
  import opened MachineInts
  import opened Buddha

  /** One sample point: subpixel offsets and pixel index. */
  datatype Sample = Sample(subX: U64, subY: U64, index: U64)

  /** For each sample: whether `mandelbrot_hint` skips it, and the
      `complex2lin` index of each iterate `z` for which the loop's escape test
      `|z|^2 < radius^2` still holds, in order (the sequence ends where that
      test first fails; it may run past the iteration cap). */
  datatype Orbits = Orbits(hinted: Sample -> bool, path: Sample -> seq<U64>)

  // ---------------------------------------------------------------------------
  // The order of the samples

  /** The number of pixel indices in [from, to). */
  function Width(from: U64, to: U64): nat {
    if from < to then to - from else 0
  }

  predicate LexLess(a: Sample, b: Sample) {
    || a.subX < b.subX
    || (a.subX == b.subX && a.subY < b.subY)
    || (a.subX == b.subX && a.subY == b.subY && a.index < b.index)
  }

  predicate Increasing(ss: seq<Sample>) {
    forall i, j :: 0 <= i < j < |ss| ==> LexLess(ss[i], ss[j])
  }

  lemma IncreasingConcat(a: seq<Sample>, b: seq<Sample>)
    requires Increasing(a) && Increasing(b)
    requires forall x, y :: x in a && y in b ==> LexLess(x, y)
    ensures Increasing(a + b)
  {
    forall i, j | 0 <= i < j < |a + b|
      ensures LexLess((a + b)[i], (a + b)[j])
    {
      if i < |a| && j >= |a| {
        assert (a + b)[i] in a && (a + b)[j] in b;
      }
    }
  }

  /** The innermost loop: indices i, …, to - 1. */
  function Row(sx: U64, sy: U64, i: U64, to: U64): (r: seq<Sample>)
    ensures |r| == Width(i, to)
    ensures forall k :: 0 <= k < |r| ==> r[k].subX == sx && r[k].subY == sy && r[k].index == i + k
    decreases (to as int) - (i as int)
  {
    if i >= to then [] else [Sample(sx, sy, i)] + Row(sx, sy, i + 1, to)
  }

  /** The middle loop from `sub_y` = sy on, for `sub_x` = sx. */
  function Grid(res: U64, from: U64, to: U64, sx: U64, sy: U64): (r: seq<Sample>)
    requires sy <= res
    ensures forall k :: 0 <= k < |r| ==> r[k].subX == sx && sy <= r[k].subY < res && from <= r[k].index < to
    decreases res - sy
  {
    if sy == res then [] else Row(sx, sy, from, to) + Grid(res, from, to, sx, sy + 1)
  }

  /** The outer loop from `sub_x` = sx on. */
  function Outer(res: U64, from: U64, to: U64, sx: U64): (r: seq<Sample>)
    requires sx <= res
    ensures forall k :: 0 <= k < |r| ==> sx <= r[k].subX < res && r[k].subY < res && from <= r[k].index < to
    decreases res - sx
  {
    if sx == res then [] else Grid(res, from, to, sx, 0) + Outer(res, from, to, sx + 1)
  }

  /** Every sample the worker visits, in visiting order. */
  function Samples(res: U64, from: U64, to: U64): (r: seq<Sample>)
    ensures forall k :: 0 <= k < |r| ==> r[k].subX < res && r[k].subY < res && from <= r[k].index < to
  {
    Outer(res, from, to, 0)
  }

  lemma RowShape(sx: U64, sy: U64, from: U64, to: U64)
    ensures Increasing(Row(sx, sy, from, to))
    ensures forall s :: s in Row(sx, sy, from, to) <==> s.subX == sx && s.subY == sy && from <= s.index < to
  {
    var row := Row(sx, sy, from, to);
    forall s: Sample | s.subX == sx && s.subY == sy && from <= s.index < to
      ensures s in row
    {
      assert row[s.index - from] == s;
    }
  }

  lemma {:induction false} GridLength(res: U64, from: U64, to: U64, sx: U64, sy: U64)
    requires sy <= res
    ensures |Grid(res, from, to, sx, sy)| == (res - sy) * Width(from, to)
    decreases res - sy
  {
    if sy < res {
      GridLength(res, from, to, sx, sy + 1);
      calc {
        |Grid(res, from, to, sx, sy)|;
        Width(from, to) + (res - (sy + 1)) * Width(from, to);
        { assert res - sy == 1 + (res - (sy + 1)); }
        (res - sy) * Width(from, to);
      }
    }
  }

  lemma {:induction false} GridMembers(res: U64, from: U64, to: U64, sx: U64, sy: U64)
    requires sy <= res
    ensures forall s :: s in Grid(res, from, to, sx, sy) <==> s.subX == sx && sy <= s.subY < res && from <= s.index < to
    decreases res - sy
  {
    if sy < res {
      RowShape(sx, sy, from, to);
      GridMembers(res, from, to, sx, sy + 1);
    }
  }

  lemma {:induction false} GridIncreasing(res: U64, from: U64, to: U64, sx: U64, sy: U64)
    requires sy <= res
    ensures Increasing(Grid(res, from, to, sx, sy))
    decreases res - sy
  {
    if sy < res {
      RowShape(sx, sy, from, to);
      GridMembers(res, from, to, sx, sy + 1);
      GridIncreasing(res, from, to, sx, sy + 1);
      IncreasingConcat(Row(sx, sy, from, to), Grid(res, from, to, sx, sy + 1));
    }
  }

  lemma {:induction false} OuterLength(res: U64, from: U64, to: U64, sx: U64)
    requires sx <= res
    ensures |Outer(res, from, to, sx)| == (res - sx) * res * Width(from, to)
    decreases res - sx
  {
    if sx < res {
      GridLength(res, from, to, sx, 0);
      OuterLength(res, from, to, sx + 1);
      var g := res * Width(from, to);
      calc {
        |Outer(res, from, to, sx)|;
        g + (res - (sx + 1)) * g;
        { assert res - sx == 1 + (res - (sx + 1)); }
        (res - sx) * g;
      }
    }
  }

  lemma {:induction false} OuterMembers(res: U64, from: U64, to: U64, sx: U64)
    requires sx <= res
    ensures forall s :: s in Outer(res, from, to, sx) <==> sx <= s.subX < res && s.subY < res && from <= s.index < to
    decreases res - sx
  {
    if sx < res {
      var g, rest := Grid(res, from, to, sx, 0), Outer(res, from, to, sx + 1);
      assert Outer(res, from, to, sx) == g + rest;
      GridMembers(res, from, to, sx, 0);
      OuterMembers(res, from, to, sx + 1);
      forall s: Sample
        ensures s in g + rest <==> sx <= s.subX < res && s.subY < res && from <= s.index < to
      {
        assert s in g + rest <==> s in g || s in rest;
      }
    }
  }

  /** A run of one `sub_x` followed by a run of larger ones keeps the order. */
  lemma ColumnsIncreasing(a: seq<Sample>, b: seq<Sample>, sx: U64)
    requires Increasing(a) && Increasing(b)
    requires forall k :: 0 <= k < |a| ==> a[k].subX == sx
    requires forall k :: 0 <= k < |b| ==> sx < b[k].subX
    ensures Increasing(a + b)
  {
    forall x, y | x in a && y in b
      ensures LexLess(x, y)
    {
      var i :| 0 <= i < |a| && a[i] == x;
      var j :| 0 <= j < |b| && b[j] == y;
    }
    IncreasingConcat(a, b);
  }

  lemma {:induction false} OuterIncreasing(res: U64, from: U64, to: U64, sx: U64)
    requires sx <= res
    ensures Increasing(Outer(res, from, to, sx))
    decreases res - sx
  {
    if sx < res {
      GridIncreasing(res, from, to, sx, 0);
      OuterIncreasing(res, from, to, sx + 1);
      ColumnsIncreasing(Grid(res, from, to, sx, 0), Outer(res, from, to, sx + 1), sx);
    }
  }

  /** The visiting order is lexicographic in (`sub_x`, `sub_y`, `i`), with each
      subpixel offset below `res` and each index in [from, to), and every such
      combination is visited exactly once: res^2 * (to - from) samples. */
  lemma SamplesShape(res: U64, from: U64, to: U64)
    ensures var r := Samples(res, from, to);
            && |r| == res * res * Width(from, to)
            && Increasing(r)
            && forall s :: s in r <==> s.subX < res && s.subY < res && from <= s.index < to
  {
    OuterLength(res, from, to, 0);
    OuterMembers(res, from, to, 0);
    OuterIncreasing(res, from, to, 0);
  }

  // ---------------------------------------------------------------------------
  // One orbit

  /** `pos` after the iteration loop: the iterates before escape, capped at
      `max_iterations_`. */
  function EscapeTime(e: Engine, o: Orbits, s: Sample): (pos: nat)
    ensures pos <= e.maxIterations && pos <= |o.path(s)|
    ensures pos < e.maxIterations ==> pos == |o.path(s)|
  {
    if |o.path(s)| < e.maxIterations then |o.path(s)| else e.maxIterations
  }

  /** Whether the orbit's length is added to `filled`: exactly the orbits that
      escape before the cap, after at least `min_iterations_` steps, and that
      the hint does not skip. */
  predicate Retained(e: Engine, o: Orbits, s: Sample)
    ensures Retained(e, o, s) <==> !o.hinted(s) && e.minIterations <= |o.path(s)| < e.maxIterations
  {
    !o.hinted(s) && e.minIterations <= EscapeTime(e, o, s) < e.maxIterations
  }

  /** How much the sample adds to `filled`. */
  function Gain(e: Engine, o: Orbits, s: Sample): nat {
    if Retained(e, o, s) then EscapeTime(e, o, s) else 0
  }

  function TotalGain(e: Engine, o: Orbits, ss: seq<Sample>): nat {
    if |ss| == 0 then 0 else TotalGain(e, o, ss[..|ss| - 1]) + Gain(e, o, ss[|ss| - 1])
  }

  // ---------------------------------------------------------------------------
  // The buffers

  function Sum(s: seq<nat>): nat {
    if |s| == 0 then 0 else Sum(s[..|s| - 1]) + s[|s| - 1]
  }

  lemma {:induction false} SumIncrement(s: seq<nat>, x: nat)
    requires x < |s|
    ensures Sum(s[x := s[x] + 1]) == Sum(s) + 1
    decreases |s|
  {
    var t := s[x := s[x] + 1];
    assert t[..|t| - 1] == if x < |s| - 1 then s[..|s| - 1][x := s[x] + 1] else s[..|s| - 1];
    if x < |s| - 1 {
      SumIncrement(s[..|s| - 1], x);
    }
  }

  /** Every entry is a valid index into a buffer of `size` cells. */
  predicate Indices(idx: seq<nat>, size: nat) {
    forall j :: 0 <= j < |idx| ==> idx[j] < size
  }

  /** A flush loop: `data_[idx[j]]++` for each j in order. Each cell grows by
      the number of times it occurs in `idx`. */
  function Flush(data: seq<nat>, idx: seq<nat>): (r: seq<nat>)
    requires Indices(idx, |data|)
    ensures |r| == |data|
    ensures forall k :: 0 <= k < |data| ==> r[k] == data[k] + multiset(idx)[k]
    decreases |idx|
  {
    if |idx| == 0 then data
    else
      var d, x := Flush(data, idx[..|idx| - 1]), idx[|idx| - 1];
      assert idx == idx[..|idx| - 1] + [x];
      d[x := d[x] + 1]
  }

  /** A flush adds one count per flushed entry. */
  lemma {:induction false} FlushSum(data: seq<nat>, idx: seq<nat>)
    requires Indices(idx, |data|)
    ensures Sum(Flush(data, idx)) == Sum(data) + |idx|
    decreases |idx|
  {
    if |idx| > 0 {
      var d, x := Flush(data, idx[..|idx| - 1]), idx[|idx| - 1];
      assert Flush(data, idx) == d[x := d[x] + 1];
      FlushSum(data, idx[..|idx| - 1]);
      SumIncrement(d, x);
    }
  }

  /** The iteration loop's writes: `local_data[at + k] = path[k]` for each
      k < n whose index is below `size` (= `data_.size()`); other slots keep
      what they held. */
  function Store(local: seq<nat>, at: nat, path: seq<U64>, size: nat, n: nat): (r: seq<nat>)
    requires at + n <= |local| && n <= |path|
    ensures |r| == |local|
    ensures forall k :: 0 <= k < |local| ==>
              r[k] == if at <= k < at + n && path[k - at] < size then path[k - at] else local[k]
  {
    if n == 0 then local
    else
      var l := Store(local, at, path, size, n - 1);
      if path[n - 1] < size then l[at + n - 1 := path[n - 1]] else l
  }

  /** The worker's variables: `filled`, `local_data`, `data_`, the progress
      counter, and (for the proofs) the log of every index flushed so far. */
  datatype Buffer = Buffer(filled: nat, local: seq<nat>, data: seq<nat>, progress: nat, flushed: seq<nat>)

  /** The buffer has its allocated size, `filled` stays within it, and every
      slot names a cell of `data_`. */
  predicate Inv(e: Engine, b: Buffer) {
    && |b.local| == e.threadVectorSize
    && b.filled <= |b.local|
    && |b.data| == |e.data|
    && Indices(b.local, |b.data|)
    && Indices(b.flushed, |b.data|)
  }

  /** Flushing `local_data[0 .. filled)` into `data_` and resetting `filled`. */
  function FlushBuffer(e: Engine, b: Buffer): (r: Buffer)
    requires Inv(e, b)
    ensures Inv(e, r) && r.filled == 0
  {
    var idx := b.local[..b.filled];
    b.(data := Flush(b.data, idx), flushed := b.flushed + idx, filled := 0)
  }

  /** The body of the innermost loop, for one sample. */
  function Step(e: Engine, o: Orbits, b: Buffer, s: Sample): (r: Buffer)
    requires WorkerReady(e) && Inv(e, b)
    ensures Inv(e, r)
  {
    var b1 := b.(progress := b.progress + 1);
    var b2 := if b1.filled + e.maxIterations >= e.threadVectorSize then FlushBuffer(e, b1) else b1;
    if o.hinted(s) then b2
    else
      var pos := EscapeTime(e, o, s);
      var local := Store(b2.local, b2.filled, o.path(s), |b2.data|, pos);
      b2.(local := local,
          filled := if e.minIterations <= pos < e.maxIterations then b2.filled + pos else b2.filled)
  }

  /** Whether the step flushes before the sample. */
  predicate FlushesBefore(e: Engine, b: Buffer) {
    b.filled + e.maxIterations >= e.threadVectorSize
  }

  /** The accounting of one step: a flush happens exactly when the buffer lacks
      room for a full orbit, and empties it; `filled` then grows by the
      sample's gain; every write lands inside the buffer; the progress counter
      counts the sample, hinted or not. */
  lemma StepAccounting(e: Engine, o: Orbits, b: Buffer, s: Sample)
    requires WorkerReady(e) && Inv(e, b)
    ensures var r := Step(e, o, b, s);
            && r.progress == b.progress + 1
            && (FlushesBefore(e, b) ==> r.flushed == b.flushed + b.local[..b.filled]
                                        && r.filled == Gain(e, o, s))
            && (!FlushesBefore(e, b) ==> r.flushed == b.flushed && r.data == b.data
                                         && r.filled == b.filled + Gain(e, o, s)
                                         && b.filled + EscapeTime(e, o, s) < e.threadVectorSize)
            && r.filled <= e.threadVectorSize
  {
  }

  /** The first `|ss|` iterations of the loop nest, starting from `b`. */
  function Fold(e: Engine, o: Orbits, b: Buffer, ss: seq<Sample>): (r: Buffer)
    requires WorkerReady(e) && Inv(e, b)
    ensures Inv(e, r)
  {
    if |ss| == 0 then b else Step(e, o, Fold(e, o, b, ss[..|ss| - 1]), ss[|ss| - 1])
  }

  lemma FoldSnoc(e: Engine, o: Orbits, b: Buffer, ss: seq<Sample>, s: Sample)
    requires WorkerReady(e) && Inv(e, b)
    ensures Fold(e, o, b, ss + [s]) == Step(e, o, Fold(e, o, b, ss), s)
  {
    assert (ss + [s])[..|ss|] == ss;
  }

  /** Running the loop over `a + c` is running it over `a`, then over `c`. */
  lemma {:induction false} FoldConcat(e: Engine, o: Orbits, b: Buffer, a: seq<Sample>, c: seq<Sample>)
    requires WorkerReady(e) && Inv(e, b)
    ensures Fold(e, o, b, a + c) == Fold(e, o, Fold(e, o, b, a), c)
    decreases |c|
  {
    if |c| == 0 {
      assert a + c == a;
    } else {
      var c', x := c[..|c| - 1], c[|c| - 1];
      assert (a + c)[..|a + c| - 1] == a + c';
      FoldConcat(e, o, b, a, c');
    }
  }

  lemma FoldCons(e: Engine, o: Orbits, b: Buffer, s: Sample, rest: seq<Sample>)
    requires WorkerReady(e) && Inv(e, b)
    ensures Fold(e, o, b, [s] + rest) == Fold(e, o, Step(e, o, b, s), rest)
  {
    FoldConcat(e, o, b, [s], rest);
    assert [s][..0] == [];
  }

  /** The worker's initial variables: nothing filled, a zeroed buffer of
      `thread_vector_size_` slots, the engine's `data_`. */
  function Init(e: Engine): (b: Buffer)
    requires WorkerReady(e)
    ensures Inv(e, b)
  {
    Buffer(0, seq(e.threadVectorSize, _ => 0), e.data, 0, [])
  }

  /** A whole call `worker(from, to)`: the loop nest, then the final flush. */
  function RunWorker(e: Engine, o: Orbits, from: U64, to: U64): (r: Buffer)
    requires WorkerReady(e)
    ensures Inv(e, r) && r.filled == 0
  {
    FlushBuffer(e, Fold(e, o, Init(e), Samples(e.subpixelResolution, from, to)))
  }

  // ---------------------------------------------------------------------------
  // What a run accounts for

  /** Counts on `data_` plus counts still pending in the buffer always equal the
      initial counts plus the gains of the samples seen. */
  lemma {:induction false} FoldConserves(e: Engine, o: Orbits, b: Buffer, ss: seq<Sample>)
    requires WorkerReady(e) && Inv(e, b)
    ensures var r := Fold(e, o, b, ss);
            Sum(r.data) + r.filled == Sum(b.data) + b.filled + TotalGain(e, o, ss)
            && r.progress == b.progress + |ss|
  {
    if |ss| > 0 {
      var prev := Fold(e, o, b, ss[..|ss| - 1]);
      FoldConserves(e, o, b, ss[..|ss| - 1]);
      if FlushesBefore(e, prev) {
        FlushSum(prev.data, prev.local[..prev.filled]);
      }
    }
  }

  /** Every cell of `data_` holds its initial count plus the number of times
      it was flushed. */
  predicate Accounted(e: Engine, b: Buffer) {
    |b.data| == |e.data| && Indices(b.flushed, |e.data|)
    && forall k :: 0 <= k < |e.data| ==> b.data[k] == e.data[k] + multiset(b.flushed)[k]
  }

  lemma {:induction false} FoldAccounted(e: Engine, o: Orbits, b: Buffer, ss: seq<Sample>)
    requires WorkerReady(e) && Inv(e, b) && Accounted(e, b)
    ensures Accounted(e, Fold(e, o, b, ss))
  {
    if |ss| > 0 {
      FoldAccounted(e, o, b, ss[..|ss| - 1]);
    }
  }

  /** The cells a non-hinted sample's orbit names within its escape time. */
  function NamedBy(e: Engine, o: Orbits, s: Sample): set<nat> {
    if o.hinted(s) then {}
    else set k | 0 <= k < EscapeTime(e, o, s) && o.path(s)[k] < |e.data| :: o.path(s)[k] as nat
  }

  /** The cells that the samples of `ss` name. */
  function Named(e: Engine, o: Orbits, ss: seq<Sample>): set<nat> {
    if |ss| == 0 then {} else Named(e, o, ss[..|ss| - 1]) + NamedBy(e, o, ss[|ss| - 1])
  }

  /** Every entry of `xs` is cell 0 (the buffer's initial filler) or one of
      `names`. */
  predicate Within(xs: seq<nat>, names: set<nat>) {
    forall x :: x in xs ==> x == 0 || x in names
  }

  /** Every buffer slot and every flushed index is cell 0 or a cell some
      visited orbit named. */
  predicate Traced(e: Engine, o: Orbits, b: Buffer, ss: seq<Sample>) {
    Within(b.local, Named(e, o, ss)) && Within(b.flushed, Named(e, o, ss))
  }

  /** A flush moves traceable slots into the log. */
  lemma FlushTraced(e: Engine, b: Buffer, names: set<nat>)
    requires Inv(e, b) && Within(b.local, names) && Within(b.flushed, names)
    ensures Within(FlushBuffer(e, b).flushed, names) && FlushBuffer(e, b).local == b.local
  {
    var idx := b.local[..b.filled];
    assert forall x :: x in idx ==> x in b.local;
  }

  /** Storing an orbit whose in-range iterates are named keeps every slot
      traceable. */
  lemma StoreTraced(local: seq<nat>, at: nat, path: seq<U64>, size: nat, n: nat, names: set<nat>)
    requires at + n <= |local| && n <= |path| && Within(local, names)
    requires forall k :: 0 <= k < n && path[k] < size ==> path[k] as nat in names
    ensures Within(Store(local, at, path, size, n), names)
  {
    var r := Store(local, at, path, size, n);
    forall x | x in r
      ensures x == 0 || x in names
    {
      var j :| 0 <= j < |r| && r[j] == x;
      if at <= j < at + n && path[j - at] < size {
        assert x == path[j - at] as nat;
      } else {
        assert x == local[j];
      }
    }
  }

  /** A step keeps every slot and flushed index traceable. */
  lemma StepTraced(e: Engine, o: Orbits, b: Buffer, prefix: seq<Sample>, s: Sample)
    requires WorkerReady(e) && Inv(e, b) && Traced(e, o, b, prefix)
    ensures Traced(e, o, Step(e, o, b, s), prefix + [s])
  {
    var ss := prefix + [s];
    assert ss[..|ss| - 1] == prefix && ss[|ss| - 1] == s;
    var names := Named(e, o, ss);
    assert names == Named(e, o, prefix) + NamedBy(e, o, s);
    assert Within(b.local, names) && Within(b.flushed, names);
    var b1 := b.(progress := b.progress + 1);
    var b2 := if FlushesBefore(e, b1) then FlushBuffer(e, b1) else b1;
    FlushTraced(e, b1, names);
    if !o.hinted(s) {
      var pos, path := EscapeTime(e, o, s), o.path(s);
      forall k | 0 <= k < pos && path[k] < |b2.data|
        ensures path[k] as nat in names
      {
        assert path[k] as nat in NamedBy(e, o, s);
      }
      StoreTraced(b2.local, b2.filled, path, |b2.data|, pos, names);
    }
  }

  lemma {:induction false} FoldTraced(e: Engine, o: Orbits, ss: seq<Sample>)
    requires WorkerReady(e)
    ensures Traced(e, o, Fold(e, o, Init(e), ss), ss)
  {
    if |ss| > 0 {
      var prefix, s := ss[..|ss| - 1], ss[|ss| - 1];
      FoldTraced(e, o, prefix);
      StepTraced(e, o, Fold(e, o, Init(e), prefix), prefix, s);
      assert prefix + [s] == ss;
    } else {
      assert forall x :: x in Init(e).local ==> x == 0;
    }
  }

  /** The properties of a whole worker call: the progress counter counts
      subpixel_resolution^2 * (to - from) samples; `data_` keeps its size, its
      cells only grow, the total grows by exactly the summed escape times of the
      retained orbits, each cell grows by the number of times it was flushed,
      and every flushed index is a valid cell that is 0 or named by a visited
      orbit. */
  lemma RunWorkerProperties(e: Engine, o: Orbits, from: U64, to: U64)
    requires WorkerReady(e)
    ensures var r := RunWorker(e, o, from, to);
            var ss := Samples(e.subpixelResolution, from, to);
            && r.progress == e.subpixelResolution * e.subpixelResolution * Width(from, to)
            && Sum(r.data) == Sum(e.data) + TotalGain(e, o, ss)
            && |r.data| == |e.data|
            && Indices(r.flushed, |e.data|)
            && (forall k :: 0 <= k < |e.data| ==> r.data[k] == e.data[k] + multiset(r.flushed)[k])
            && (forall k :: 0 <= k < |e.data| ==> r.data[k] >= e.data[k])
            && (forall x :: x in r.flushed ==> x == 0 || x in Named(e, o, ss))
  {
    var ss := Samples(e.subpixelResolution, from, to);
    var b := Fold(e, o, Init(e), ss);
    FoldConserves(e, o, Init(e), ss);
    FlushSum(b.data, b.local[..b.filled]);
    FoldAccounted(e, o, Init(e), ss);
    FoldTraced(e, o, ss);
    SamplesShape(e.subpixelResolution, from, to);
    assert forall x :: x in b.local[..b.filled] ==> x in b.local;
  }

  // ---------------------------------------------------------------------------
  // The worker, imperatively

  /** One flush loop over `local_data[0 .. filled)`. */
  method FlushLoop(local: array<nat>, filled: nat, data: seq<nat>) returns (data': seq<nat>)
    requires filled <= local.Length && Indices(local[..filled], |data|)
    ensures data' == Flush(data, local[..filled])
  {
    assert forall i :: 0 <= i < filled ==> local[..filled][i] == local[i];
    data' := data;
    var j := 0;
    while j < filled
      invariant j <= filled && |data'| == |data|
      invariant forall k :: 0 <= k < |data| ==> data'[k] == data[k] + multiset(local[..j])[k]
    {
      assert local[..j + 1] == local[..j] + [local[j]];
      data' := data'[local[j] := data'[local[j]] + 1];
      j := j + 1;
    }
    assert local[..filled][..filled] == local[..filled];
    FlushAccounted(data, local[..filled], data');
  }

  /** A sequence whose every cell is its base count plus its multiplicity in
      `idx` is the flush of `idx`. */
  lemma FlushAccounted(data: seq<nat>, idx: seq<nat>, r: seq<nat>)
    requires Indices(idx, |data|) && |r| == |data|
    requires forall k :: 0 <= k < |data| ==> r[k] == data[k] + multiset(idx)[k]
    ensures r == Flush(data, idx)
  {
  }

  /** The iteration loop of one sample: advance until the orbit escapes or the
      cap is reached, storing each in-range index at `local_data[at + pos]`. */
  method Iterate(local: array<nat>, at: nat, path: seq<U64>, size: nat, max: nat) returns (pos: nat)
    requires at + max <= local.Length
    modifies local
    ensures pos == if |path| < max then |path| else max
    ensures local[..] == Store(old(local[..]), at, path, size, pos)
  {
    pos := 0;
    while pos < |path| && pos < max
      invariant pos <= |path| && pos <= max
      invariant local[..] == Store(old(local[..]), at, path, size, pos)
    {
      var zpos := path[pos];
      if zpos < size {
        local[at + pos] := zpos;
      }
      pos := pos + 1;
    }
  }

  /** The body of the innermost loop for sample `s`, on the worker's variables. */
  method Visit(e: Engine, o: Orbits, s: Sample, local: array<nat>, filled: nat, data: seq<nat>,
               progress: nat, ghost flushed: seq<nat>)
    returns (filled': nat, data': seq<nat>, progress': nat, ghost flushed': seq<nat>)
    requires WorkerReady(e) && Inv(e, Buffer(filled, local[..], data, progress, flushed))
    modifies local
    ensures Buffer(filled', local[..], data', progress', flushed')
            == Step(e, o, Buffer(filled, old(local[..]), data, progress, flushed), s)
  {
    ghost var before := Buffer(filled, local[..], data, progress, flushed);
    filled', data', progress', flushed' := filled, data, progress + 1, flushed;
    if filled' + e.maxIterations >= e.threadVectorSize {
      data' := FlushLoop(local, filled', data');
      flushed' := flushed' + local[..filled'];
      filled' := 0;
    }
    ghost var b2 := Buffer(filled', local[..], data', progress', flushed');
    assert b2 == if FlushesBefore(e, before.(progress := progress + 1))
                 then FlushBuffer(e, before.(progress := progress + 1))
                 else before.(progress := progress + 1);
    if !o.hinted(s) {
      var pos := Iterate(local, filled', o.path(s), |data'|, e.maxIterations);
      if e.minIterations <= pos < e.maxIterations {
        filled' := filled' + pos;
      }
    }
  }

  /** The innermost loop: samples (sx, sy, i) for i in [from, to). */
  method VisitRow(e: Engine, o: Orbits, sx: U64, sy: U64, from: U64, to: U64, local: array<nat>,
                  filled: nat, data: seq<nat>, progress: nat, ghost flushed: seq<nat>)
    returns (filled': nat, data': seq<nat>, progress': nat, ghost flushed': seq<nat>)
    requires WorkerReady(e) && Inv(e, Buffer(filled, local[..], data, progress, flushed))
    modifies local
    ensures Buffer(filled', local[..], data', progress', flushed')
            == Fold(e, o, Buffer(filled, old(local[..]), data, progress, flushed), Row(sx, sy, from, to))
  {
    ghost var start := Buffer(filled, local[..], data, progress, flushed);
    filled', data', progress', flushed' := filled, data, progress, flushed;
    var i: U64 := from;
    while i < to
      invariant from <= i
      invariant Inv(e, Buffer(filled', local[..], data', progress', flushed'))
      invariant Fold(e, o, start, Row(sx, sy, from, to))
                == Fold(e, o, Buffer(filled', local[..], data', progress', flushed'), Row(sx, sy, i, to))
    {
      var s := Sample(sx, sy, i);
      ghost var before := Buffer(filled', local[..], data', progress', flushed');
      filled', data', progress', flushed' := Visit(e, o, s, local, filled', data', progress', flushed');
      FoldCons(e, o, before, s, Row(sx, sy, i + 1, to));
      i := i + 1;
    }
  }

  /** The middle loop: rows sy, …, res - 1 for `sub_x` = sx. */
  method VisitGrid(e: Engine, o: Orbits, sx: U64, from: U64, to: U64, local: array<nat>,
                   filled: nat, data: seq<nat>, progress: nat, ghost flushed: seq<nat>)
    returns (filled': nat, data': seq<nat>, progress': nat, ghost flushed': seq<nat>)
    requires WorkerReady(e) && Inv(e, Buffer(filled, local[..], data, progress, flushed))
    modifies local
    ensures Buffer(filled', local[..], data', progress', flushed')
            == Fold(e, o, Buffer(filled, old(local[..]), data, progress, flushed),
                    Grid(e.subpixelResolution, from, to, sx, 0))
  {
    var res := e.subpixelResolution;
    ghost var start := Buffer(filled, local[..], data, progress, flushed);
    filled', data', progress', flushed' := filled, data, progress, flushed;
    var sy: U64 := 0;
    while sy < res
      invariant sy <= res
      invariant Inv(e, Buffer(filled', local[..], data', progress', flushed'))
      invariant Fold(e, o, start, Grid(res, from, to, sx, 0))
                == Fold(e, o, Buffer(filled', local[..], data', progress', flushed'), Grid(res, from, to, sx, sy))
    {
      ghost var before := Buffer(filled', local[..], data', progress', flushed');
      filled', data', progress', flushed' := VisitRow(e, o, sx, sy, from, to, local, filled', data', progress', flushed');
      FoldConcat(e, o, before, Row(sx, sy, from, to), Grid(res, from, to, sx, sy + 1));
      sy := sy + 1;
    }
  }

  /** `Buddha::worker(from, to)` on the engine `e`: returns the new `data_` and
      the number of samples it counted as progress. */
  method Work(e: Engine, o: Orbits, from: U64, to: U64) returns (data: seq<nat>, progress: nat)
    requires WorkerReady(e)
    ensures data == RunWorker(e, o, from, to).data && progress == RunWorker(e, o, from, to).progress
    ensures progress == e.subpixelResolution * e.subpixelResolution * Width(from, to)
    ensures |data| == |e.data| && forall k :: 0 <= k < |e.data| ==> data[k] >= e.data[k]
    ensures Sum(data) == Sum(e.data) + TotalGain(e, o, Samples(e.subpixelResolution, from, to))
  {
    var local, filled;
    ghost var flushed;
    local, filled, data, progress, flushed := VisitAll(e, o, from, to);
    data := FlushLoop(local, filled, data);
    WorkProperties(e, o, from, to, data, progress);
  }

  /** The loop nest of `worker` from a fresh buffer of zeroes: the outer loop
      over `sub_x`, each turn running the middle loop. */
  method VisitAll(e: Engine, o: Orbits, from: U64, to: U64)
    returns (local: array<nat>, filled: nat, data: seq<nat>, progress: nat, ghost flushed: seq<nat>)
    requires WorkerReady(e)
    ensures Buffer(filled, local[..], data, progress, flushed) == Fold(e, o, Init(e), Samples(e.subpixelResolution, from, to))
  {
    var res := e.subpixelResolution;
    filled := 0;
    local := new nat[e.threadVectorSize](_ => 0);
    data, progress := e.data, 0;
    flushed := [];
    assert local[..] == Init(e).local;

    ghost var start := Buffer(filled, local[..], data, progress, flushed);
    var sx: U64 := 0;
    while sx < res
      invariant sx <= res
      invariant local.Length == e.threadVectorSize
      invariant Inv(e, Buffer(filled, local[..], data, progress, flushed))
      invariant Fold(e, o, start, Samples(res, from, to))
                == Fold(e, o, Buffer(filled, local[..], data, progress, flushed), Outer(res, from, to, sx))
    {
      ghost var before := Buffer(filled, local[..], data, progress, flushed);
      filled, data, progress, flushed := VisitGrid(e, o, sx, from, to, local, filled, data, progress, flushed);
      FoldConcat(e, o, before, Grid(res, from, to, sx, 0), Outer(res, from, to, sx + 1));
      sx := sx + 1;
    }
    assert Outer(res, from, to, res) == [];
  }

  lemma WorkProperties(e: Engine, o: Orbits, from: U64, to: U64, data: seq<nat>, progress: nat)
    requires WorkerReady(e)
    requires data == RunWorker(e, o, from, to).data && progress == RunWorker(e, o, from, to).progress
    ensures progress == e.subpixelResolution * e.subpixelResolution * Width(from, to)
    ensures |data| == |e.data| && forall k :: 0 <= k < |e.data| ==> data[k] >= e.data[k]
    ensures Sum(data) == Sum(e.data) + TotalGain(e, o, Samples(e.subpixelResolution, from, to))
  {
    RunWorkerProperties(e, o, from, to);
  }
}
