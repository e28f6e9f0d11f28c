/** The `Buddha` engine's state and its integer parts: the parameter record,
    the constructor, `get_empty_params`, `run`, and the conversions between
    linear and cartesian pixel indices. */
module Buddha {
  import opened Wrappers
  import opened MachineInts

  /** A `double`, carried as its IEEE-754 bit pattern: the engine only copies
      the radius, it never computes with it here. */
  type Double = bv64

  /** `Buddha::Params` (without the colouring-schema pointer). */
  datatype Params = Params(
    name: string,
    format: string,
    width: U64,
    radius: Double,
    maxIterations: U64,
    minIterations: U64,
    subpixelResolution: U64,
    numThreads: Int32)

  /** `Params()`: the value-initialised record `std::map::operator[]` inserts,
      every number zero. */
  const ValueInitialized: Params := Params("", "", 0, 0, 0, 0, 0, 0)

  /** `get_empty_params`: the strings are default-constructed and `num_threads`
      is -1; the other members of the default-initialised local are
      indeterminate, and `junk` supplies whatever they happen to hold. */
  function GetEmptyParams(junk: Params): (p: Params)
    ensures p.numThreads == -1 && p.name == "" && p.format == ""
    ensures p.(numThreads := junk.numThreads, name := junk.name, format := junk.format) == junk
  {
    junk.(name := "", format := "", numThreads := -1)
  }

  /** The members of a `Buddha` object that the constructor and the worker use.
      `data` is `data_`, the density buffer; its cells are counters. */
  datatype Engine = Engine(
    xSize: U64,
    ySize: U64,
    radius: Double,
    maxIterations: U64,
    minIterations: U64,
    subpixelResolution: U64,
    threadVectorSize: U64,
    numThreads: U64,
    data: seq<nat>)

  /** The constructor as written: a square image of side `p.width`, the radius
      and the iteration cap copied, and the buffer size taken from
      `p.num_threads` (converted to `size_t`) rather than from the
      `threadVectorSize` argument. `min_iterations_`, `subpixel_resolution_` and
      `num_threads_` are never assigned, so they keep whatever `prior` holds;
      `data_` stays an empty vector. Nothing is validated and nothing throws. */
  function Construct(p: Params, threadVectorSize: U64, prior: Engine): (e: Engine)
    ensures e.xSize == e.ySize == p.width
    ensures e.radius == p.radius && e.maxIterations == p.maxIterations
    ensures e.threadVectorSize == ToSize(p.numThreads)
    ensures e.minIterations == prior.minIterations
    ensures e.subpixelResolution == prior.subpixelResolution
    ensures e.numThreads == prior.numThreads
    ensures e.data == []
  {
    Engine(p.width, p.width, p.radius, p.maxIterations,
           prior.minIterations, prior.subpixelResolution,
           ToSize(p.numThreads), prior.numThreads, [])
  }

  /** The buffer-size argument has no influence on the constructed engine. */
  lemma ConstructIgnoresBufferSize(p: Params, a: U64, b: U64, prior: Engine)
    ensures Construct(p, a, prior) == Construct(p, b, prior)
  {
  }

  /** The errors `Buddha.h` declares for the constructor. */
  datatype ConstructError = MaxIterationsTooBig | MinGreaterThanMax

  /** The conditions under which `worker` stays within its buffers: an orbit
      fits in an empty local buffer, the density buffer has a cell for index 0
      (the buffer's initial filler), and `filled + max_iterations_` cannot wrap. */
  predicate WorkerReady(e: Engine) {
    && e.maxIterations <= e.threadVectorSize
    && e.threadVectorSize + e.maxIterations < U64_LIMIT
    && |e.data| > 0
  }

  /** The constructor as it is evidently meant to be: the buffer size from the
      argument, the two declared errors raised, every parameter member
      assigned, and `data_` holding one zero counter per pixel. */
  function ConstructValidated(p: Params, threadVectorSize: U64): (r: Result<Engine, ConstructError>)
    ensures r == Err(MaxIterationsTooBig) <==> p.maxIterations > threadVectorSize
    ensures r == Err(MinGreaterThanMax) <==>
              p.maxIterations <= threadVectorSize && p.minIterations > p.maxIterations
    ensures r.Ok? ==> && r.value.xSize == r.value.ySize == p.width
                      && r.value.minIterations <= r.value.maxIterations <= r.value.threadVectorSize
                      && |r.value.data| == p.width * p.width
                      && forall k :: 0 <= k < |r.value.data| ==> r.value.data[k] == 0
  {
    if p.maxIterations > threadVectorSize then Err(MaxIterationsTooBig)
    else if p.minIterations > p.maxIterations then Err(MinGreaterThanMax)
    else Ok(Engine(p.width, p.width, p.radius, p.maxIterations, p.minIterations,
                   p.subpixelResolution, threadVectorSize, ToSize(p.numThreads),
                   seq(p.width * p.width, _ => 0)))
  }

  /** A validated engine of non-zero width with a buffer below 2^63 entries
      satisfies everything the worker needs. */
  lemma ValidatedIsReady(p: Params, threadVectorSize: U64)
    requires ConstructValidated(p, threadVectorSize).Ok?
    requires p.width > 0 && threadVectorSize < U64_LIMIT / 2
    ensures WorkerReady(ConstructValidated(p, threadVectorSize).value)
  {
    assert p.width * p.width >= p.width by {
      MulMonotone(1, p.width, p.width);
    }
  }

  /** The constructor as written leaves the engine unfit for `worker` whatever
      the parameters: `data_` is empty. With the parameters `main` builds, the
      buffer size is even 2^64 - 1 entries. */
  lemma ConstructedIsNotReady(p: Params, threadVectorSize: U64, prior: Engine)
    ensures !WorkerReady(Construct(p, threadVectorSize, prior))
    ensures p.numThreads == -1 ==> Construct(p, threadVectorSize, prior).threadVectorSize == U64_LIMIT - 1
  {
  }

  /** With the default buffer of 10 MiB entries and four threads, the worker's
      buffer condition holds for the validated engine but fails for the
      constructed one: four entries cannot take a twenty-step orbit. */
  lemma BufferSizeFromThreadCount()
    ensures var p := ValueInitialized.(width := 64, maxIterations := 20, minIterations := 5, numThreads := 4);
            && Construct(p, 10 * 1024 * 1024, Engine(0, 0, 0, 0, 0, 0, 0, 0, [])).threadVectorSize == 4
            && Construct(p, 10 * 1024 * 1024, Engine(0, 0, 0, 0, 0, 0, 0, 0, [])).maxIterations > 4
            && ConstructValidated(p, 10 * 1024 * 1024).Ok?
            && WorkerReady(ConstructValidated(p, 10 * 1024 * 1024).value)
  {
    var p := ValueInitialized.(width := 64, maxIterations := 20, minIterations := 5, numThreads := 4);
    ValidatedIsReady(p, 10 * 1024 * 1024);
  }

  /** `run`: its body is empty. */
  function Run(e: Engine): (r: Engine)
    ensures r == e
  {
    e
  }

  lemma MulMonotone(a: nat, b: nat, c: nat)
    requires a <= b
    ensures a * c <= b * c
  {
  }

  /** `lin2car`: the column and the row of a linear index. */
  function Lin2Car(e: Engine, pos: U64): (xy: (U64, U64))
    requires e.xSize > 0
    ensures xy.0 < e.xSize
    ensures xy.1 * e.xSize + xy.0 == pos
  {
    (pos % e.xSize, pos / e.xSize)
  }

  /** `car2lin`: row-major flattening, in 64-bit arithmetic. Below 2^64 it is
      the exact row-major index. */
  function Car2Lin(e: Engine, x: U64, y: U64): (r: U64)
    ensures y * e.xSize + x < U64_LIMIT ==> r == y * e.xSize + x
  {
    var n: int := y * e.xSize + x;
    if n < U64_LIMIT then DivModUnique(n, U64_LIMIT, 0, n); n % U64_LIMIT
    else n % U64_LIMIT
  }

  /** Quotient and remainder are determined by the division equation. */
  lemma DivModUnique(n: int, d: int, q: int, r: int)
    requires d > 0 && 0 <= r < d && n == q * d + r
    ensures n / d == q && n % d == r
  {
    var q', r' := n / d, n % d;
    assert (q' - q) * d == r - r';
    if q' > q {
      MulMonotone(1, q' - q, d);
    } else if q' < q {
      MulMonotone(1, q - q', d);
    }
  }

  /** Every linear index survives the round trip through cartesian indices. */
  lemma Car2LinLin2Car(e: Engine, pos: U64)
    requires e.xSize > 0
    ensures var xy := Lin2Car(e, pos); Car2Lin(e, xy.0, xy.1) == pos
  {
  }

  /** A cartesian index inside the row width whose flattening does not wrap
      survives the round trip through the linear index. */
  lemma Lin2CarCar2Lin(e: Engine, x: U64, y: U64)
    requires x < e.xSize && y * e.xSize + x < U64_LIMIT
    ensures Lin2Car(e, Car2Lin(e, x, y)) == (x, y)
  {
    var n: int := y * e.xSize + x;
    DivModUnique(n, e.xSize, y, x);
  }

  /** Once the flattening wraps, the round trip fails: row 2^32 of a
      2^32-wide image flattens to index 0. */
  lemma Car2LinWraps()
    ensures var e := Engine(0x1_0000_0000, 0x1_0000_0000, 0, 0, 0, 0, 0, 0, []);
            Car2Lin(e, 0, 0x1_0000_0000) == 0 && Lin2Car(e, 0) == (0, 0)
  {
  }

  /** A pixel of an in-width column lies inside the image exactly when its row
      does (as long as the flattening does not wrap). */
  lemma Car2LinInImage(e: Engine, x: U64, y: U64)
    requires x < e.xSize && y * e.xSize + x < U64_LIMIT
    ensures Car2Lin(e, x, y) < e.xSize * e.ySize <==> y < e.ySize
  {
    if y < e.ySize {
      MulMonotone(y + 1, e.ySize, e.xSize);
    } else {
      MulMonotone(e.ySize, y, e.xSize);
    }
  }
}
