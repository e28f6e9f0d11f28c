/** The worker with the evident intent of its iteration loop: each in-range
    orbit point takes the next free slot of `local_data`, and `filled` grows by
    the number of points stored, so that a flush counts exactly the in-range
    points of the retained orbits. `Worker.RunWorker` is the loop as written,
    where an out-of-range point leaves its slot untouched and `filled += pos`
    still counts it. */
module WorkerIntended {
  import opened MachineInts
  import opened Buddha
  import opened Worker

  /** The entries of `path` that name a cell of a `size`-cell image, in order:
      each such entry as often as `path` holds it. */
  function InRange(path: seq<U64>, size: nat): (r: seq<nat>)
    ensures |r| <= |path| && Indices(r, size)
    ensures forall x :: x in r <==> x < size && x in path
    ensures forall k: U64 :: k < size ==> multiset(r)[k as nat] == multiset(path)[k]
  {
    if |path| == 0 then []
    else
      var rest := InRange(path[..|path| - 1], size);
      var x := path[|path| - 1];
      assert path == path[..|path| - 1] + [x];
      if x < size then rest + [x as nat] else rest
  }

  /** Filtering keeps the order: it distributes over concatenation, and a
      single entry is kept exactly when it is in range. */
  lemma {:induction false} InRangeConcat(a: seq<U64>, b: seq<U64>, size: nat)
    ensures InRange(a + b, size) == InRange(a, size) + InRange(b, size)
    decreases |b|
  {
    if |b| == 0 {
      assert a + b == a;
    } else {
      var b', x := b[..|b| - 1], b[|b| - 1];
      assert (a + b)[..|a + b| - 1] == a + b' && (a + b)[|a + b| - 1] == x;
      InRangeConcat(a, b', size);
      assert b[..|b| - 1] == b';
    }
  }

  lemma InRangeSingle(x: U64, size: nat)
    ensures InRange([x], size) == if x < size then [x as nat] else []
  {
    assert [x][..0] == [];
  }

  /** The points a sample contributes: the in-range iterates of a retained
      orbit, nothing otherwise. */
  function Points(e: Engine, o: Orbits, s: Sample): (r: seq<nat>)
    ensures Indices(r, |e.data|)
    ensures Retained(e, o, s) ==> |r| <= EscapeTime(e, o, s)
    ensures !Retained(e, o, s) ==> r == []
  {
    if Retained(e, o, s) then InRange(o.path(s)[..EscapeTime(e, o, s)], |e.data|) else []
  }

  /** The points of every sample of `ss`, in visiting order. */
  function RetainedPoints(e: Engine, o: Orbits, ss: seq<Sample>): (r: seq<nat>)
    ensures Indices(r, |e.data|)
  {
    if |ss| == 0 then [] else RetainedPoints(e, o, ss[..|ss| - 1]) + Points(e, o, ss[|ss| - 1])
  }

  /** `local` with `pts` written from slot `at` on. */
  function Splice(local: seq<nat>, at: nat, pts: seq<nat>): (r: seq<nat>)
    requires at + |pts| <= |local|
    ensures |r| == |local|
    ensures r[..at + |pts|] == local[..at] + pts
    ensures forall size: nat :: Indices(local, size) && Indices(pts, size) ==> Indices(r, size)
  {
    var r := local[..at] + pts + local[at + |pts|..];
    assert r[..at + |pts|] == local[..at] + pts;
    assert forall j :: at + |pts| <= j < |r| ==> r[j] == local[j];
    r
  }

  /** One step of the intended loop body: the same progress count, flush test
      and hint test as `Worker.Step`, then the sample's points stored
      contiguously at `filled`. */
  function StepIntended(e: Engine, o: Orbits, b: Buffer, s: Sample): (r: Buffer)
    requires WorkerReady(e) && Inv(e, b)
    ensures Inv(e, r) && r.progress == b.progress + 1
  {
    var b1 := b.(progress := b.progress + 1);
    var b2 := if FlushesBefore(e, b1) then FlushBuffer(e, b1) else b1;
    var pts := Points(e, o, s);
    b2.(local := Splice(b2.local, b2.filled, pts), filled := b2.filled + |pts|)
  }

  function FoldIntended(e: Engine, o: Orbits, b: Buffer, ss: seq<Sample>): (r: Buffer)
    requires WorkerReady(e) && Inv(e, b)
    ensures Inv(e, r)
  {
    if |ss| == 0 then b else StepIntended(e, o, FoldIntended(e, o, b, ss[..|ss| - 1]), ss[|ss| - 1])
  }

  /** The intended `worker(from, to)`: the loop nest, then the final flush. */
  function RunIntended(e: Engine, o: Orbits, from: U64, to: U64): (r: Buffer)
    requires WorkerReady(e)
    ensures Inv(e, r) && r.filled == 0
  {
    FlushBuffer(e, FoldIntended(e, o, Init(e), Samples(e.subpixelResolution, from, to)))
  }

  /** What the intended loop keeps: the flushed log followed by the pending
      slots is exactly the points of the samples seen, and each cell holds its
      initial count plus its flushed occurrences. */
  predicate Faithful(e: Engine, o: Orbits, b: Buffer, ss: seq<Sample>) {
    && Inv(e, b)
    && b.flushed + b.local[..b.filled] == RetainedPoints(e, o, ss)
    && Accounted(e, b)
  }

  lemma StepFaithful(e: Engine, o: Orbits, b: Buffer, prefix: seq<Sample>, s: Sample)
    requires WorkerReady(e) && Faithful(e, o, b, prefix)
    ensures Faithful(e, o, StepIntended(e, o, b, s), prefix + [s])
  {
    var ss := prefix + [s];
    assert ss[..|ss| - 1] == prefix && ss[|ss| - 1] == s;
    var pts := Points(e, o, s);
    assert RetainedPoints(e, o, ss) == RetainedPoints(e, o, prefix) + pts;
    var b1 := b.(progress := b.progress + 1);
    var b2 := if FlushesBefore(e, b1) then FlushBuffer(e, b1) else b1;
    if FlushesBefore(e, b1) {
      FlushKeepsLog(e, b1);
    }
    var r := StepIntended(e, o, b, s);
    assert r.flushed == b2.flushed && r.local[..r.filled] == b2.local[..b2.filled] + pts;
    ConcatAssoc(b2.flushed, b2.local[..b2.filled], pts);
  }

  lemma ConcatAssoc(a: seq<nat>, b: seq<nat>, c: seq<nat>)
    ensures a + (b + c) == (a + b) + c
  {
  }

  /** A flush moves the pending entries to the log without changing the
      concatenation of the two, and keeps every cell accounted for. */
  lemma FlushKeepsLog(e: Engine, b: Buffer)
    requires Inv(e, b) && Accounted(e, b)
    ensures var r := FlushBuffer(e, b);
            r.flushed + r.local[..r.filled] == b.flushed + b.local[..b.filled] && Accounted(e, r)
  {
    var r := FlushBuffer(e, b);
    assert r.local[..r.filled] == [];
    assert r.flushed + [] == r.flushed;
  }

  lemma {:induction false} FoldFaithful(e: Engine, o: Orbits, ss: seq<Sample>)
    requires WorkerReady(e)
    ensures Faithful(e, o, FoldIntended(e, o, Init(e), ss), ss)
  {
    if |ss| > 0 {
      var prefix, s := ss[..|ss| - 1], ss[|ss| - 1];
      FoldFaithful(e, o, prefix);
      StepFaithful(e, o, FoldIntended(e, o, Init(e), prefix), prefix, s);
      assert prefix + [s] == ss;
    } else {
      var b := Init(e);
      assert b.local[..b.filled] == [];
    }
  }

  /** The intended worker adds to each cell exactly the number of in-range
      orbit points that name it, so the total grows by the number of such
      points; it counts the same progress as the worker as written. */
  lemma RunIntendedCounts(e: Engine, o: Orbits, from: U64, to: U64)
    requires WorkerReady(e)
    ensures var r := RunIntended(e, o, from, to);
            var pts := RetainedPoints(e, o, Samples(e.subpixelResolution, from, to));
            && |r.data| == |e.data|
            && (forall k :: 0 <= k < |e.data| ==> r.data[k] == e.data[k] + multiset(pts)[k])
            && Sum(r.data) == Sum(e.data) + |pts|
            && r.progress == RunWorker(e, o, from, to).progress
  {
    var ss := Samples(e.subpixelResolution, from, to);
    var b := FoldIntended(e, o, Init(e), ss);
    var pending := b.local[..b.filled];
    FoldFaithful(e, o, ss);
    var r := RunIntended(e, o, from, to);
    assert r.data == Flush(b.data, pending) && r.flushed == b.flushed + pending;
    assert r.flushed == RetainedPoints(e, o, ss);
    assert b.data == Flush(e.data, b.flushed) by {
      FlushAccounted(e.data, b.flushed, b.data);
    }
    FlushSum(e.data, b.flushed);
    FlushSum(b.data, pending);
    FoldIntendedProgress(e, o, Init(e), ss);
    FoldConserves(e, o, Init(e), ss);
  }

  lemma {:induction false} FoldIntendedProgress(e: Engine, o: Orbits, b: Buffer, ss: seq<Sample>)
    requires WorkerReady(e) && Inv(e, b)
    ensures FoldIntended(e, o, b, ss).progress == b.progress + |ss|
  {
    if |ss| > 0 {
      FoldIntendedProgress(e, o, b, ss[..|ss| - 1]);
    }
  }

  /** The smallest input on which the two differ: a 2x2 image, one sample
      whose single iterate lies outside it. */
  const Engine0 := Engine(2, 2, 0, 2, 1, 1, 4, 1, [0, 0, 0, 0])
  const Orbits0 := Orbits(_ => false, _ => [7])

  /** As written, the never-written slot 0 of `local_data` is flushed and
      cell 0 gains a count no orbit named; the intended worker adds nothing. */
  lemma StaleSlotCounted()
    ensures WorkerReady(Engine0)
    ensures RunWorker(Engine0, Orbits0, 0, 1).data == [1, 0, 0, 0]
    ensures RunIntended(Engine0, Orbits0, 0, 1).data == [0, 0, 0, 0]
  {
    var ss := Samples(1, 0, 1);
    assert Grid(1, 0, 1, 0, 0) == [Sample(0, 0, 0)];
    assert ss == [Sample(0, 0, 0)];
    var s := Sample(0, 0, 0);
    assert EscapeTime(Engine0, Orbits0, s) == 1;
    assert Retained(Engine0, Orbits0, s);
    var b := Step(Engine0, Orbits0, Init(Engine0), s);
    assert Fold(Engine0, Orbits0, Init(Engine0), ss) == b by {
      assert ss[..0] == [];
    }
    assert b.filled == 1 && b.local[0] == 0 && b.data == Engine0.data;
    assert b.local[..b.filled] == [0];
    assert Flush(Engine0.data, [0]) == [1, 0, 0, 0] by {
      assert [0][..0] == [];
    }
    assert InRange([7], 4) == [] by {
      assert [7][..0] == [];
    }
    assert Points(Engine0, Orbits0, s) == [] by {
      assert Orbits0.path(s)[..1] == [7];
    }
    var bi := StepIntended(Engine0, Orbits0, Init(Engine0), s);
    assert FoldIntended(Engine0, Orbits0, Init(Engine0), ss) == bi by {
      assert ss[..0] == [];
    }
    assert bi.filled == 0;
  }
}
