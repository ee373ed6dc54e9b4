/**
 * The chunked static schedule (`kmp_sch_static_chunked`) in index space:
 * the loop is cut into blocks of `ch = max(chunk, 1)` iterations, dealt
 * round-robin, so block `c` goes to executor `c % n` in round `c / n`.  The
 * routine returns an executor's block in round 0 and the stride that moves
 * it to its block in the next round.
 */
module ChunkedSplit {
  import opened Domains
  import opened Sched
  import opened Iterations

  /** Line 315: a chunk below one is taken as one. */
  function Effective(chunk: int): (ch: int)
    ensures ch >= 1 && (chunk >= 1 ==> ch == chunk)
    ensures chunk < 1 ==> ch == 1
  {
    if chunk < 1 then 1 else chunk
  }

  /** The executor that runs iteration `j`. */
  function Owner(chunk: int, n: int, j: int): int
    requires n >= 1
  {
    (j / Effective(chunk)) % n
  }

  /** The round in which its owner runs iteration `j`. */
  function Round(chunk: int, n: int, j: int): int
    requires n >= 1
  {
    (j / Effective(chunk)) / n
  }

  /** The block, span and stride fit their types. */
  predicate NoWrap(k: Kind, lower: int, incr: int, chunk: int, n: int, id: int)
    requires n >= 1
  {
    var ch := Effective(chunk);
    && InRange(SignedOf(k), ch * incr)
    && InRange(SignedOf(k), n * (ch * incr))
    && InRange(MaxMin(k), Iter(lower, incr, id * ch))
    && InRange(MaxMin(k), Iter(lower, incr, id * ch + ch - 1))
  }

  /**
   * Lines 318-321 (and 578-580, 688-690): when nothing wraps, executor `id`
   * starts with block `id`, and the stride is `n` blocks.
   */
  lemma FirstBlock(k: Kind, lower: int, incr: int, chunk: int, trip: int, n: int, id: int)
    requires LoopArgs(k, lower, lower, incr, chunk) && Executors(n, id) && InRange(UnsignedOf(k), trip)
    requires NoWrap(k, lower, incr, chunk, n, id)
    ensures var b := ChunkedChunk(k, lower, incr, chunk, trip, n, id);
      var ch := Effective(chunk);
      && b.lower == Iter(lower, incr, id * ch)
      && b.upper == Iter(lower, incr, id * ch + ch - 1)
      && b.stride == (n * ch) * incr
  {
    var T, S, ch := MaxMin(k), SignedOf(k), Effective(chunk);
    Fields(k, lower, incr, chunk, trip, n, id);
    var span := ch * incr;
    assert Wrap(S, span) == span;
    Products(ch, incr, n, id);
    StepFrom(lower, incr, id * ch, ch - 1);
  }

  /** The products of lines 318-321, regrouped. */
  lemma Products(ch: int, incr: int, n: int, id: int)
    ensures (ch * incr) * n == (n * ch) * incr
    ensures (ch * incr) * id == (id * ch) * incr
    ensures ch * incr - incr == (ch - 1) * incr
  {
  }

  /** The fields of lines 318-321, with the span's reduction made explicit. */
  lemma Fields(k: Kind, lower: int, incr: int, chunk: int, trip: int, n: int, id: int)
    requires LoopArgs(k, lower, lower, incr, chunk) && Executors(n, id) && InRange(UnsignedOf(k), trip)
    ensures var b := ChunkedChunk(k, lower, incr, chunk, trip, n, id);
      var span := Wrap(SignedOf(k), Effective(chunk) * incr);
      && b.stride == Wrap(SignedOf(k), span * n)
      && b.lower == Wrap(MaxMin(k), lower + span * id)
      && b.upper == Wrap(MaxMin(k), b.lower + span - incr)
  {
  }

  /**
   * In round `r` (the returned bounds plus `r` strides) executor `id` runs
   * block `r * n + id`: iteration `j` lies in that block exactly when
   * `id` owns it and `r` is its round.
   */
  lemma Rounds(k: Kind, lower: int, incr: int, chunk: int, trip: int, n: int, id: int, r: int, j: int)
    requires LoopArgs(k, lower, lower, incr, chunk) && incr != 0 && Executors(n, id) && InRange(UnsignedOf(k), trip)
    requires NoWrap(k, lower, incr, chunk, n, id) && r >= 0
    ensures var b := ChunkedChunk(k, lower, incr, chunk, trip, n, id);
      (Within(b.lower + r * b.stride, b.upper + r * b.stride, incr, Iter(lower, incr, j))
       <==> Owner(chunk, n, j) == id && Round(chunk, n, j) == r)
  {
    var ch := Effective(chunk);
    FirstBlock(k, lower, incr, chunk, trip, n, id);
    var c := r * n + id;
    RoundShift(lower, incr, ch, n, id, r);
    WithinIters(lower, incr, c * ch, c * ch + ch - 1, j);
    MulLe(0, r, n);
    OwnedIff(ch, c, j);
    BlockSplit(j / ch, n, r, id);
  }

  /** Block `c` is block `r * n + id` exactly when it goes to `id` in round `r`. */
  lemma BlockSplit(c: int, n: int, r: int, id: int)
    requires 0 <= id < n
    ensures c == r * n + id <==> c % n == id && c / n == r
  {
    if c == r * n + id {
      DivModUnique(c, n, r, id);
    }
    assert c == (c / n) * n + c % n;
  }

  /** Adding `r` strides to executor `id`'s first block gives block `r * n + id`. */
  lemma RoundShift(lower: int, incr: int, ch: int, n: int, id: int, r: int)
    ensures Iter(lower, incr, id * ch) + r * ((n * ch) * incr) == Iter(lower, incr, (r * n + id) * ch)
    ensures Iter(lower, incr, id * ch + ch - 1) + r * ((n * ch) * incr) == Iter(lower, incr, (r * n + id) * ch + ch - 1)
  {
    assert r * ((n * ch) * incr) == (r * n * ch) * incr;
    assert (r * n + id) * ch == id * ch + r * n * ch;
    StepFrom(lower, incr, id * ch, r * n * ch);
    StepFrom(lower, incr, id * ch + ch - 1, r * n * ch);
  }

  /**
   * Line 323 (and 580-581, 692): on a loop of `trip >= 1` iterations the
   * flag is set for the executor that owns the last iteration.
   */
  lemma Flag(k: Kind, lower: int, incr: int, chunk: int, trip: int, n: int, id: int)
    requires LoopArgs(k, lower, lower, incr, chunk) && Executors(n, id) && InRange(UnsignedOf(k), trip)
    requires trip >= 1
    ensures ChunkedChunk(k, lower, incr, chunk, trip, n, id).last <==> Owner(chunk, n, trip - 1) == id
  {
  }
}
