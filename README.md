# Static loop scheduling of the OpenMP runtime, modelled in Dafny

This project models the static loop scheduler of the LLVM OpenMP runtime, in
`kmp_sched.cpp`. It covers four pieces:

- `i_maxmin`: the limits of each loop-variable type.
- `__kmp_for_static_init`: splits a worksharing loop among the threads of a
  team, either unchunked (the balanced or greedy flavour) or in round-robin
  chunks.
- `__kmp_dist_for_static_init`: for a loop inside a `teams` construct, first
  splits the loop among the teams and then splits each team's chunk among
  its threads.
- `__kmp_team_static_init`: gives each team its first block under
  `dist_schedule(static, chunk)`.

Each routine stores into its out-parameters step by step and has no loop.
In the model each routine is a pure function, and each update is a `var`
binding. A store into a variable of:

- the loop type `T`,
- its signed counterpart (increment, chunk and stride), or
- its unsigned counterpart (the trip count)

is `Domains.Wrap`: the exact value reduced into that type's range. This is
how the source's unsigned arithmetic and its conversions behave, and, for
signed overflow, the wrap-around assumed under "## Left out". The
four instantiations (`_4`, `_4u`, `_8`, `_8u`) are the `Kind` parameter. A
`goto end` becomes an early branch. The consistency checker's fatal errors
and the unknown-schedule assertion are `Err` results.

Six lemmas only unfold one branch of a routine:
- `StaticInit.StaticResult`;
- `StaticInit.ChunkedResult`;
- `DistInit.EarlyExitResult`;
- `DistInit.StaticResult`;
- `DistInit.ChunkedResult`;
- `TeamInit.TeamResult`.

They keep the other proofs cheap, model nothing of their own, and have no row
under "## Model".

The properties are stated in index space. Iteration `j` of a loop is
`lower + j * incr` (`Iterations.Iter`), and the loop has
`Iterations.Count` iterations.

- **Per thread, unchunked schedules:** thread `tid` runs iteration `j`
  exactly when `j` is an iteration of the loop and `tid` owns it. This
  gives a partition: the ranges are disjoint and cover the loop. It is
  proved for:
  - the fewer-iterations-than-threads case;
  - balanced;
  - greedy;
  - both levels of the distribute routine.
- **Per round, chunked schedules** (the worksharing routine, and the
  distribute routine's thread level): round `r` of thread `tid` holds index
  `j` exactly when `tid` owns block `j / chunk` and `r` is that block's
  round. The rounds' ranges are therefore disjoint and cover the loop. The
  last block is not clamped to `upper` (lines 320 and 579), so its range may
  run past the loop's end; the caller's own loop test cuts it off.
- **Team routine:** the same statement is proved for the first round only,
  and there the block's end is clamped to `upper` (lines 697-706). For later
  rounds, only their starting iteration is stated (`TeamInit.RoundStart`).
- **Last flag:** in every routine, the flag is set exactly for the owner of
  the last iteration.

Some of the source's arithmetic can overflow. Where it can, the lemma says
which values must fit their type. Without that, the source as written gives
other answers, and lemmas with concrete inputs show them.

Modules: `Domains` (types, limits, reduction), `Sched` (the routines),
`Iterations` (index space and trip counts), `SingleSplit`, `BalancedSplit`,
`GreedySplit`, `ChunkedSplit` (the four splitting formulas), `StaticInit`,
`DistInit` and `TeamInit` (what each routine promises its caller).

At lines 185 and 214 a serialized or single thread's stride is the extent
of the bounds, `upper - lower + 1` (negated for a negative increment), not
the trip count. `Sched.SerialStride` models it, and `StaticInit.Serial`
proves that the next round's lower bound lands one past `upper`.

## Model

| member | source | states |
|---|---|---|
| Domains.MaxMin | contrib/libs/cxxsupp/openmp/kmp_sched.cpp:37-61 | the limits of each loop type span exactly 2^w values; `mn < 0` exactly for the signed types; `mn <= 0 < mx` |
| Domains.TDiv | contrib/libs/cxxsupp/openmp/kmp_sched.cpp:448 | C++ division truncates toward zero: for every sign of dividend and divisor, the remainder `a - q * b` is smaller than the divisor in magnitude and has the dividend's sign; it agrees with Euclidean division for a non-negative dividend and a positive divisor |
| Domains.LoopDiv | contrib/libs/cxxsupp/openmp/kmp_sched.cpp:246-249 | dividing a loop-type value by the signed increment, which is unsigned division for an unsigned loop type; it agrees with Euclidean division for non-negative operands |
| Domains.WrapDetectsOverflowUp | contrib/libs/cxxsupp/openmp/kmp_sched.cpp:295-296 | the overflow test `*pupper < *plower` is true exactly when the exact end passed the type's maximum, and then the stored end is the exact end minus 2^w |
| Domains.WrapDetectsOverflowDown | contrib/libs/cxxsupp/openmp/kmp_sched.cpp:301-302 | the mirror test `*pupper > *plower` is true exactly when the exact end passed the type's minimum |
| Domains.ClampUp | contrib/libs/cxxsupp/openmp/kmp_sched.cpp:295-299 | for a chunk less than a type's width long, the overflow correction to `mx` followed by the clamp gives the exact end clamped to `upper`; and the stored end compares with `upper - incr` as the exact end does, so the last flag is exact |
| Domains.ClampDown | contrib/libs/cxxsupp/openmp/kmp_sched.cpp:301-305 | the mirror image of `ClampUp` for a negative increment, with `mn` |
| Sched.TripCount | contrib/libs/cxxsupp/openmp/kmp_sched.cpp:239-250 | the trip count of the worksharing routine is a value of the unsigned type (its exactness is `TripCountIsCount`) |
| Sched.DistTripCount | contrib/libs/cxxsupp/openmp/kmp_sched.cpp:443-449 | the trip count of the distribute routines, computed through the signed cast, is a value of the unsigned type (its exactness is `DistTripCountIsCount`) |
| Sched.SingleIteration | contrib/libs/cxxsupp/openmp/kmp_sched.cpp:269-275 | thread `id` below the trip count gets a one-iteration range; any other thread's upper bound stays `upper`; the flag is set exactly for thread `trip - 1` |
| Sched.BalancedChunk | contrib/libs/cxxsupp/openmp/kmp_sched.cpp:277-283 | the bounds are values of the loop type; the flag is set exactly for thread `nth - 1` |
| Sched.GreedyChunk | contrib/libs/cxxsupp/openmp/kmp_sched.cpp:285-306 | the bounds are values of the loop type, and the upper bound never passes `upper` in the loop's direction |
| Sched.ChunkedChunk | contrib/libs/cxxsupp/openmp/kmp_sched.cpp:311-324 | the bounds are values of the loop type, and the stride is a value of the signed type |
| Sched.StaticPiece | contrib/libs/cxxsupp/openmp/kmp_sched.cpp:262-309 | with fewer iterations than threads, only thread `trip - 1` is flagged; with the balanced flavour, only thread `nth - 1` is flagged |
| Sched.ForStaticInit | contrib/libs/cxxsupp/openmp/kmp_sched.cpp:73-369 | the routine fails exactly when:<br>• checking is on and the increment is zero; or<br>• on a non-empty loop in a parallel team, the increment is zero, or the checked trip count overflowed, or the schedule is unknown.<br>A zero-trip loop keeps its bounds, gets stride `incr` and is not flagged. A serialized or single thread gets the whole loop, the extent stride and the flag. The unchunked schedule keeps the caller's stride. |
| Sched.TeamPiece | contrib/libs/cxxsupp/openmp/kmp_sched.cpp:467-507 | the team chunk's bounds are values of the loop type; a balanced team is flagged exactly when it is the last team |
| Sched.ThreadPiece | contrib/libs/cxxsupp/openmp/kmp_sched.cpp:519-569 | with no more team iterations than threads, only thread `trip - 1` is flagged; with the balanced flavour and more, only thread `nth - 1` is flagged |
| Sched.DistForStaticInit | contrib/libs/cxxsupp/openmp/kmp_sched.cpp:373-606 | a zero increment fails, and so does a checked zero-trip loop. The unchunked stride is `upper - lower`. With no more iterations than teams, the flag is the master of team `trip - 1`. Otherwise a flagged thread belongs to a flagged team. |
| Sched.TeamStaticInit | contrib/libs/cxxsupp/openmp/kmp_sched.cpp:610-719 | fails exactly for a zero increment or a checked zero-trip loop; the team's upper bound never passes `upper` in the loop's direction |
| Sched.SerialStride | contrib/libs/cxxsupp/openmp/kmp_sched.cpp:185 | the stride of a serialized thread (and, at line 214, of a single thread) is a value of the signed type; when the extent fits, one stride from `lower` lands one past `upper` in the loop's direction |
| Sched.CorrectedEnd | contrib/libs/cxxsupp/openmp/kmp_sched.cpp:695-706 | the corrected end never passes `upper`, and it is `upper`, the stored end or the type's extreme |
| Iterations.Count | contrib/libs/cxxsupp/openmp/kmp_sched.cpp:239-250 | the reference count of the loop's iterations, against which the trip counts are proved; a loop that fails the zero-trip test of line 134 has at least one iteration |
| Iterations.ZeroTripIsEmpty | contrib/libs/cxxsupp/openmp/kmp_sched.cpp:134 | the zero-trip test (`Sched.ZeroTrip`, also the illegal-loop test of lines 418 and 657) holds exactly when no iteration of the loop, whatever its index, lies between the bounds |
| Iterations.CountCounts | contrib/libs/cxxsupp/openmp/kmp_sched.cpp:239-250 | iteration `j >= 0` lies within the bounds exactly when `j < Count`, so `Count` is the number of iterations the source's trip count should give |
| Iterations.TripCountIsCount | contrib/libs/cxxsupp/openmp/kmp_sched.cpp:239-250 | the computed trip count equals the number of iterations when the bounds' difference and the count fit their types and `-incr` fits the signed type |
| Iterations.DistTripCountIsCount | contrib/libs/cxxsupp/openmp/kmp_sched.cpp:443-449 | the distribute trip count equals the number of iterations when the bounds' difference fits the signed type and the count fits the unsigned one |
| Iterations.DistTripCountSignedCast | contrib/libs/cxxsupp/openmp/kmp_sched.cpp:448 | for unsigned 32-bit bounds 0 and 0xFFFFFFFE stepped by 2, the worksharing count is 0x80000000 but the signed cast of the distribute count gives 0 |
| Iterations.IterInRange | contrib/libs/cxxsupp/openmp/kmp_sched.cpp:271-272 | every iteration of the loop lies between the bounds and is a value of the loop type, so storing it does not wrap |
| SingleSplit.Partition | contrib/libs/cxxsupp/openmp/kmp_sched.cpp:269-275 | thread `id` runs iteration `j` exactly when `j == id < trip`, and it is flagged exactly when it is thread `trip - 1` |
| SingleSplit.PastTheEndWraps | contrib/libs/cxxsupp/openmp/kmp_sched.cpp:273-274 | when `upper + incr` overflows (unsigned 32-bit, bounds 0xFFFFFFFE..0xFFFFFFFF, 4 threads), a thread with no iteration gets the non-empty range `[0, 0xFFFFFFFF]` |
| BalancedSplit.StartEnds | contrib/libs/cxxsupp/openmp/kmp_sched.cpp:280 | the first block starts at index 0 and the `n` blocks end at index `trip` |
| BalancedSplit.HandedIsStart | contrib/libs/cxxsupp/openmp/kmp_sched.cpp:278-280 | the first index of thread `t` computed by line 280 equals the sum of the block sizes of threads `0 .. t - 1`, where all blocks hold `trip / n` iterations and the first `trip % n` hold one more |
| BalancedSplit.HandedAll | contrib/libs/cxxsupp/openmp/kmp_sched.cpp:278-281 | the `n` block sizes add up to the trip count: no iteration is lost or duplicated |
| BalancedSplit.OwnerHolds | contrib/libs/cxxsupp/openmp/kmp_sched.cpp:278-281 | the owner of every iteration is a thread whose block holds it |
| BalancedSplit.OwnerUnique | contrib/libs/cxxsupp/openmp/kmp_sched.cpp:278-281 | an iteration in thread `t`'s block is owned by `t` |
| BalancedSplit.ChunkIsBlock | contrib/libs/cxxsupp/openmp/kmp_sched.cpp:277-283 | thread `t`'s range is exactly iterations `Start(t)` through `Start(t + 1) - 1`, with the flag for thread `n - 1` |
| BalancedSplit.BalancedFields | contrib/libs/cxxsupp/openmp/kmp_sched.cpp:280-281 | for every input, the stored lower bound is iteration `Start(t)` and the stored upper bound is iteration `Start(t + 1) - 1`, the last of the block, each reduced into the loop type |
| BalancedSplit.Partition | contrib/libs/cxxsupp/openmp/kmp_sched.cpp:277-283 | thread `t` runs iteration `j` exactly when `j` is an iteration and `t` owns it; it is flagged exactly when it owns the last iteration |
| BalancedSplit.Flag | contrib/libs/cxxsupp/openmp/kmp_sched.cpp:283 | thread `n - 1` owns the last iteration |
| BalancedSplit.Sizes | contrib/libs/cxxsupp/openmp/kmp_sched.cpp:278-281 | the first `trip % n` threads run `trip / n + 1` iterations and the others `trip / n` |
| BalancedSplit.Abutting | contrib/libs/cxxsupp/openmp/kmp_sched.cpp:280-281 | thread `t`'s range ends one increment before thread `t + 1`'s starts |
| BalancedSplit.FirstStart | contrib/libs/cxxsupp/openmp/kmp_sched.cpp:280 | thread 0's range starts at `lower` |
| BalancedSplit.LastEnd | contrib/libs/cxxsupp/openmp/kmp_sched.cpp:281 | thread `n - 1`'s range ends with the loop's last iteration |
| GreedySplit.QuotaFacts | contrib/libs/cxxsupp/openmp/kmp_sched.cpp:286-287 | the greedy chunk holds between 1 and `trip` iterations, and `n` chunks cover the loop |
| GreedySplit.HandedIsPrefix | contrib/libs/cxxsupp/openmp/kmp_sched.cpp:286-293 | when each thread in turn keeps at most `q` of the remaining iterations, the first `t` threads hold `min(t * q, trip)` of them |
| GreedySplit.HandedAll | contrib/libs/cxxsupp/openmp/kmp_sched.cpp:286-293 | with line 286's chunk size, the `n` threads' shares add up to the trip count |
| GreedySplit.OwnerInTeam | contrib/libs/cxxsupp/openmp/kmp_sched.cpp:286-292 | every iteration's chunk index is a thread of the team |
| GreedySplit.StoredLower | contrib/libs/cxxsupp/openmp/kmp_sched.cpp:292 | the stored lower bound is iteration `id * q` when that iteration fits the type |
| GreedySplit.StoredUpper | contrib/libs/cxxsupp/openmp/kmp_sched.cpp:293 | the stored upper bound is iteration `a + q - 1` reduced into the type |
| GreedySplit.UpperLessIncr | contrib/libs/cxxsupp/openmp/kmp_sched.cpp:298 | on a loop of two or more iterations, `upper - incr` does not wrap and lies within the bounds |
| GreedySplit.ShapeUp | contrib/libs/cxxsupp/openmp/kmp_sched.cpp:292-299 | for a positive increment, thread `id` gets `[Iter(a), min(Iter(a + q - 1), upper)]`, also when the chunk's end overflows; it is flagged exactly when its chunk starts within the loop and the next one would not |
| GreedySplit.ShapeDown | contrib/libs/cxxsupp/openmp/kmp_sched.cpp:300-305 | the mirror image of `ShapeUp` for a negative increment |
| GreedySplit.Partition | contrib/libs/cxxsupp/openmp/kmp_sched.cpp:285-306 | thread `id` runs iteration `j` exactly when `j` is an iteration and in chunk `id`; it is flagged exactly when the last iteration is in chunk `id` |
| GreedySplit.Shape | contrib/libs/cxxsupp/openmp/kmp_sched.cpp:285-306 | `ShapeUp` and `ShapeDown` together, with the flag stated through the loop's bounds |
| GreedySplit.ShareIsChunk | contrib/libs/cxxsupp/openmp/kmp_sched.cpp:285-306 | a thread whose chunk starts inside the loop gets a range of exactly `Share(trip, q, id)` iterations, the share `HandedIsPrefix` adds up |
| GreedySplit.Runs | contrib/libs/cxxsupp/openmp/kmp_sched.cpp:292-305 | the range half of `Partition` |
| GreedySplit.Flag | contrib/libs/cxxsupp/openmp/kmp_sched.cpp:298-304 | exactly one thread is flagged: the thread whose chunk holds the last iteration |
| GreedySplit.PastTheEndWraps | contrib/libs/cxxsupp/openmp/kmp_sched.cpp:292-299 | unsigned 32-bit bounds 0xFFFFFFFB..0xFFFFFFFF split by 4 threads give thread 3 the wrapped range `[1, 2]`, which is not part of the loop |
| ChunkedSplit.Effective | contrib/libs/cxxsupp/openmp/kmp_sched.cpp:314-316 | a chunk below one becomes one, and a positive chunk is kept |
| ChunkedSplit.FirstBlock | contrib/libs/cxxsupp/openmp/kmp_sched.cpp:317-321 | when nothing wraps, thread `id` starts with block `id` (`chunk` iterations from `id * chunk`), and the stride is `n` blocks |
| ChunkedSplit.RoundShift | contrib/libs/cxxsupp/openmp/kmp_sched.cpp:318-321 | advancing the first block by `r` strides gives block `r * n + id` |
| ChunkedSplit.Rounds | contrib/libs/cxxsupp/openmp/kmp_sched.cpp:311-324 | in round `r`, thread `id` runs iteration `j` exactly when `(j / chunk) % n == id` and `(j / chunk) / n == r` |
| ChunkedSplit.Flag | contrib/libs/cxxsupp/openmp/kmp_sched.cpp:322 | the flag is set exactly for the thread that owns the last iteration's block |
| StaticInit.OwnerInTeam | contrib/libs/cxxsupp/openmp/kmp_sched.cpp:262-309 | every iteration of an unchunked static loop has an owner in the team, so exactly one thread runs it |
| StaticInit.PiecePartition | contrib/libs/cxxsupp/openmp/kmp_sched.cpp:262-309 | the piece the unchunked schedule selects holds exactly the iterations its thread owns, and its flag marks the owner of the last iteration |
| StaticInit.StaticPartition | contrib/libs/cxxsupp/openmp/kmp_sched.cpp:262-309 | in a parallel team, `ForStaticInit` with the static schedule succeeds and keeps the stride; thread `tid` runs exactly the iterations it owns and is flagged exactly when it owns the last one |
| StaticInit.ChunkedRounds | contrib/libs/cxxsupp/openmp/kmp_sched.cpp:311-324 | `ForStaticInit` with the chunked schedule succeeds; in round `r` thread `tid` runs exactly the iterations whose block it owns in round `r`; it is flagged exactly when it owns the last iteration's block |
| StaticInit.Serial | contrib/libs/cxxsupp/openmp/kmp_sched.cpp:180-230 | a serialized or single thread gets the whole loop and the flag; when the extent fits, the stride moves the lower bound one past `upper` |
| StaticInit.HalfDomainWraps | contrib/libs/cxxsupp/openmp/kmp_sched.cpp:239-275 | on signed 32-bit bounds `INT_MIN..INT_MAX` stepped by 2 the loop has 2^31 iterations, but the trip count wraps to 1 and, with checking on, thread 0 of 4 gets the single iteration `INT_MIN` with the last flag |
| StaticInit.ZeroTripRunsNothing | contrib/libs/cxxsupp/openmp/kmp_sched.cpp:133-165 | a zero-trip loop gives every thread an empty range and no flag |
| DistInit.ThreadOwnerInTeam | contrib/libs/cxxsupp/openmp/kmp_sched.cpp:519-569 | every iteration of a team chunk has an owner among the team's threads |
| DistInit.TeamOwnership | contrib/libs/cxxsupp/openmp/kmp_sched.cpp:467-507 | team `t`'s indices `[a, a + m)` are a non-empty part of the loop, and exactly the iterations team `t` owns |
| DistInit.BalancedTeam | contrib/libs/cxxsupp/openmp/kmp_sched.cpp:467-474 | a balanced team chunk starts with iteration `TeamStart`, lies within the loop and holds `TeamSize` iterations |
| DistInit.GreedyTeam | contrib/libs/cxxsupp/openmp/kmp_sched.cpp:476-507 | a greedy team chunk starting inside the loop starts with iteration `TeamStart`, lies within the loop and holds `TeamSize` iterations |
| DistInit.TeamBlock | contrib/libs/cxxsupp/openmp/kmp_sched.cpp:467-507 | as `BalancedTeam` and `GreedyTeam`, and the team flag marks the owner of the loop's last iteration |
| DistInit.TeamParts | contrib/libs/cxxsupp/openmp/kmp_sched.cpp:443-516 | both trip counts are exact; `[lo, upperDist]` holds exactly the team's run of iterations; the team flag marks the owner of the last iteration |
| DistInit.ThreadBlock | contrib/libs/cxxsupp/openmp/kmp_sched.cpp:519-569 | a thread runs the `i`-th iteration of its team chunk exactly when it owns `i`, and it is flagged exactly when it owns the chunk's last iteration |
| DistInit.FewIterations | contrib/libs/cxxsupp/openmp/kmp_sched.cpp:451-465 | with no more iterations than teams, only the master of team `t` runs anything, namely iteration `t`, and only the master of team `trip - 1` is flagged |
| DistInit.EmptyTeam | contrib/libs/cxxsupp/openmp/kmp_sched.cpp:491-506 | a greedy team whose chunk starts past the loop leaves at once: its upper bound is set to `upperDist`, its range is empty and it is not flagged |
| DistInit.DistStatic | contrib/libs/cxxsupp/openmp/kmp_sched.cpp:467-569 | with the static schedule, the team's run `[lo, upperDist]` is the iterations it owns; thread `tid` runs exactly the iterations of that run it owns; it is flagged exactly when its team owns the loop's last iteration and it owns the run's last iteration |
| DistInit.DistChunked | contrib/libs/cxxsupp/openmp/kmp_sched.cpp:467-584 | with the chunked schedule, the same team run; in round `r`, thread `tid` runs the run's `i`-th iteration exactly when it owns `i` in round `r`; the flag combines the team's and the thread's |
| TeamInit.BlockFields | contrib/libs/cxxsupp/openmp/kmp_sched.cpp:687-692 | when the span, the stride and the block start fit, the stored lower bound is iteration `t * chunk`, the stored upper bound is iteration `t * chunk + chunk - 1` reduced, and the stride is `nteams` blocks |
| TeamInit.CorrectedBlockEnd | contrib/libs/cxxsupp/openmp/kmp_sched.cpp:695-706 | the correction and clamp turn the stored block end into the exact block end clamped to `upper` |
| TeamInit.FirstChunk | contrib/libs/cxxsupp/openmp/kmp_sched.cpp:679-706 | team `t` gets iterations `t * chunk` through `t * chunk + chunk - 1` clamped to `upper`, also when the end overflows; the stride is `nteams` blocks; the flag marks the team owning the last iteration |
| TeamInit.FirstRound | contrib/libs/cxxsupp/openmp/kmp_sched.cpp:679-706 | team `t`'s first block holds exactly the loop iterations it owns in round 0 |
| TeamInit.RoundStart | contrib/libs/cxxsupp/openmp/kmp_sched.cpp:690-691 | `r` strides past the first block start block `r * nteams + t` |

## Left out

- Tracing (`KD_TRACE`, `KE_TRACE`), OMPT callbacks, ITT notification, statistics counters and `KMP_DEBUG_ASSERT` checks are left out. They stay out of the results the model computes.
- The thread and team registry (`__kmp_threads`, `t_nproc`, `t_serialized`, `th_teams_size`, `t_master_tid`) is left out. Its values are inputs: `nth`, `tid`, `serialized`, `nteams`, `teamId`.
- Lines 166-177, where a distribute schedule becomes the team master's static schedule, are left out. The caller passes the resulting `Schedule`, `tid` and team.
- `__kmp_push_workshare` is left out: it is bookkeeping for the consistency checker.
- `__kmp_error_construct` is left out as a routine. It never returns, so each call becomes an `Err` result.
- A NULL `plastiter` or `p_last` argument is not modelled: the flag is always computed.
- The `extern "C"` entry points (`__kmpc_for_static_init_4` and the like) are left out. They only pick the `Kind`.
- Concurrency is left out: each call is one thread's pure computation.
- A `__kmp_static` value other than greedy or balanced only trips a debug assertion. The model has only the two flavours.
- With checking off, a zero increment makes the trip count divide by zero at lines 246-249, 448 and 681-685, which is undefined behaviour. The model returns `Err(IncrZeroProhibited)` there too; with checking on, the same result stands for the consistency checker's fatal error.
- Signed overflow, undefined in C++, is modelled as two's-complement wrap-around. This is the model's assumption: nothing in the code guarantees it, and an optimiser may fold the overflow tests at lines 295, 301, 485, 496, 551, 559, 697 and 702.
- Sched.DistForStaticInit: with checking off and a zero-trip loop, the distribute routines go on with a wrapped trip count. The model computes the same wrap, but no lemma states what such a loop then runs; such calls do arrive, since the comments at lines 425-427 (and 664-666) note that the compiler passes a loop with a negative run-time increment through unchecked.
- StaticInit.StaticPartition: proved only when `CountFits` holds. That requires the bounds' difference and the count to fit their types and `incr` not to be the signed minimum. On the full domain stepped by one, the count wraps to 0; `StaticInit.HalfDomainWraps` shows the full signed domain stepped by 2, whose count wraps to 1.
- StaticInit.StaticPartition: proved only when `EdgeFits` holds. A thread without iterations must get bounds that fit the type. `SingleSplit.PastTheEndWraps` and `GreedySplit.PastTheEndWraps` show that otherwise it gets a wrapped, non-empty range.
- GreedySplit.Partition: needs `trip >= 2`. With one iteration and one thread, the routine takes the single-thread path earlier.
- StaticInit.ChunkedRounds: proved only when `ChunkedSplit.NoWrap` holds, which requires the span, the stride and the thread's first block to fit their types. Later rounds whose bounds wrap past the type's end are not described.
- DistInit.DistStatic: assumes `DistCountFits` and `ThreadEdgeFits`. `Iterations.DistTripCountSignedCast` shows that a difference beyond the signed maximum breaks the count.
- DistInit.DistStatic: covers a team whose chunk starts inside the loop. A greedy team past the end is `DistInit.EmptyTeam`, proved when that start fits the type.
- DistInit.DistChunked: assumes `DistCountFits` and `ChunkedSplit.NoWrap` for the thread's first block.
- DistInit.FewIterations: assumes `upper + incr` fits the type for threads without an iteration, as `SingleSplit.PastTheEndWraps` shows is needed.
- TeamInit.FirstChunk: assumes `DistCountFits` and `TeamFits`, which requires the span, the stride and the team's first block start to fit. The block's end may overflow.
- TeamInit.RoundStart: says where later rounds start. Whether those starts fit the type is left to the caller's loop, which the model does not contain.
