# NDSL core in Dafny: the Thomas tridiagonal stencil, the in-process mock communicator, and the DSL typing helpers

This project models three parts of NDSL, the numerical DSL built on gt4py:

- **`tridiag_solve`** (`tridiag.dfy`, module `Tridiag`)
  - This is the stencil that solves one tridiagonal system per (i, j) column of a 3D grid with the Thomas algorithm.
  - Its FORWARD computation writes `x` and `delta` level by level, from the bottom up. Its BACKWARD computation overwrites `x` from the top down.
  - The fields are `array3<real>`. `TridiagSolve` runs both sweeps on every column, each sweep with loops and invariants.
  - It is proved against functions of one column: `Pivot`, `ForwardX`, `ForwardDelta` and `Solution`.
  - These functions are proved, in both directions, to give the unique vector satisfying every row of the matrix in the stencil's documentation (`SolvesSystem`).
- **`LocalComm`** (`local_comm.dfy`, module `LocalComm`)
  - This is the mock MPI communicator for tests. All ranks run in one process, one after another in rank order, and share one buffer dictionary.
  - The shared dictionary is the class `Buffer`. Its entries are:
    - the bcast and scatter logs;
    - the send/recv table, keyed by (from, to, tag);
    - the gather slots;
    - the Split registries.
  - The per-rank object is the class `LocalComm`, with its rank, its size and its private per-buffer cursors.
  - Python values are `Value<T>` (`Null` for `None`, a scalar, or an array of values).
  - Every error the code raises is a `Result.Err`:
    - a `ConcurrencyError` with its reason;
    - a `NotImplementedError`;
    - an `IndexError` (reading past a list);
    - a `TypeError` (indexing `None`).
  - Beside the methods, pure replay functions (`LogAfter`, `TableAfter`, `SlotsAfter`) run a whole schedule of calls from a fresh dictionary. They are folds of the same step functions the methods are specified by: `Appended`/`At`, `Put`/`Take` and `Deposited`/`Gathered`. The methods `BcastRun`, `P2PRun` and `GatherRun` run a schedule through the classes on fresh comms and prove that each call returns what the replay says. Lemmas about the replays state the protocol, each proved by induction:
    - the n-th bcast of a rank returns the root's n-th value, or `IndexError` when the root has not got that far;
    - each (from, to, tag) queue is first-in first-out;
    - gather at the root succeeds exactly when every rank has deposited a value, and otherwise names exactly the missing ranks.
- **DSL typing** (`typing.dfy`, module `Typing`)
  - It covers the precision setting and the choice of the model's `Float` type, `cast_to_index3d`, and `is_float`.

`wrappers.dfy` holds the shared `Option` and `Result` types.

For a column with a single level, the BACKWARD computation's `interval(-1, None)` overwrites the forward value of `x`. So the final result is `x[0] = d[0]/b[0]`, not `c[0]/b[0]`. `Tridiag.SingleLevel` states this.

## Model

| member | source | states |
|---|---|---|
| Tridiag.ForwardLevel | ndsl/stencils/tridiag.py:39-45 | with non-zero pivots, level k of the forward sweep multiplies out: pivot times x is c[k], and pivot times delta is d[k] minus a[k] times delta[k-1] |
| Tridiag.ForwardStep | ndsl/stencils/tridiag.py:43-45 | the stencil's own expressions at level k > 0, computed from the level below, equal the pivot, the forward x and the forward delta |
| Tridiag.EliminatedRow | ndsl/stencils/tridiag.py:14-28 | row k of the system with x[k-1] eliminated holds for the backward sweep's result |
| Tridiag.UpperRow | ndsl/stencils/tridiag.py:14-28 | every row above the first holds for the backward sweep's result |
| Tridiag.SolutionRow | ndsl/stencils/tridiag.py:14-28 | every row k of the system holds for the backward sweep's result |
| Tridiag.SolutionSolvesSystem | ndsl/stencils/tridiag.py:14-28 | with non-zero pivots, the result of both sweeps satisfies the whole tridiagonal system |
| Tridiag.AnyEliminated | ndsl/stencils/tridiag.py:39-45 | forward elimination holds for any solution of the system, not just the computed one |
| Tridiag.AnySolutionIsBackward | ndsl/stencils/tridiag.py:46-50 | every solution of the system equals the backward sweep's result at every level |
| Tridiag.SolvesSystemIff | ndsl/stencils/tridiag.py:13-50 | with non-zero pivots, a vector solves the system if and only if it is the stencil's result, so the solution exists and is unique |
| Tridiag.ForwardIgnoresBoundary | ndsl/stencils/tridiag.py:40-45 | pivots and delta never read a[0] or c[NK-1]; forward x reads c[NK-1] only at the top level |
| Tridiag.BackwardIgnoresBoundary | ndsl/stencils/tridiag.py:46-50 | the final x never depends on a[0] or c[NK-1] |
| Tridiag.BoundaryCoefficientsIgnored | ndsl/stencils/tridiag.py:39-50 | columns that differ only in a[0] and c[NK-1] are equally solvable and give the same x and delta |
| Tridiag.SingleLevel | ndsl/stencils/tridiag.py:40-48 | for one level, forward x is c/b, but the final x and delta are both d/b |
| Tridiag.IdentityForward | ndsl/stencils/tridiag.py:39-45 | on the identity system the pivots are 1, forward x is 0 and delta is d |
| Tridiag.IdentitySystem | ndsl/stencils/tridiag.py:39-50 | on the identity system the stencil returns x = d and delta = d |
| Tridiag.ThreeLevelExample | ndsl/stencils/tridiag.py:39-50 | a worked three-level column: forward x is 0.5, 2/3, 0; delta is 1.5, 1, 1.5; x is 1.5, 0, 1.5 |
| Tridiag.ForwardLevelAt | ndsl/stencils/tridiag.py:43-45 | writes exactly x and delta at (i, j, k), with the forward values, and leaves every other cell unchanged |
| Tridiag.ForwardSweep | ndsl/stencils/tridiag.py:39-45 | leaves the forward x and delta at every level of column (i, j) and changes no other column |
| Tridiag.BackwardLevelAt | ndsl/stencils/tridiag.py:49-50 | turns forward x at (i, j, k) into the solution, given the solution at k+1; no other cell changes |
| Tridiag.BackwardSweep | ndsl/stencils/tridiag.py:46-50 | turns forward x and delta into the solution at every level of column (i, j) and changes no other column |
| Tridiag.TridiagSolve | ndsl/stencils/tridiag.py:5-50 | every cell of x holds its column's solution and every cell of delta its forward delta; every column of x solves its system |
| LocalComm.Appended | ndsl/comm/local_comm.py:55-56 | only rank 0 appends its value to a log; any other rank leaves it unchanged |
| LocalComm.At | ndsl/comm/local_comm.py:57 | reading a log at the cursor succeeds exactly when the cursor is inside it, and otherwise raises IndexError |
| LocalComm.Element | ndsl/comm/local_comm.py:125 | `sendbuf[rank]`: None gives TypeError, a short array gives IndexError, otherwise the rank's element |
| LocalComm.Put | ndsl/comm/local_comm.py:73-77 | the table is created if absent, the value is appended to the key's queue, and every other key is unchanged |
| LocalComm.Take | ndsl/comm/local_comm.py:59-71 | no table gives ConcurrencyError (recv before any send), a missing key gives ConcurrencyError with both ranks, an empty queue gives IndexError; otherwise the head is popped and the rest is kept |
| LocalComm.PutTakeCommute | ndsl/comm/local_comm.py:59-77 | on a non-empty queue, appending and then popping equals popping and then appending |
| LocalComm.PutTakeEmpty | ndsl/comm/local_comm.py:59-77 | on an empty queue, a value that is appended is the value popped next |
| LocalComm.Uncalled | ndsl/comm/local_comm.py:134-137 | the uncalled ranks are exactly the None slots, in increasing order |
| LocalComm.EmptySlots | ndsl/comm/local_comm.py:91-95 | a new gather buffer has one None slot per rank |
| LocalComm.Deposited | ndsl/comm/local_comm.py:130-131 | the caller's slot takes the sent value and every other slot is kept |
| LocalComm.Gathered | ndsl/comm/local_comm.py:127-142 | a rank past the end gives IndexError; a non-root rank returns nothing; the root succeeds exactly when no slot is None and otherwise names the None slots |
| LocalComm.ScatterResult | ndsl/comm/local_comm.py:121-125 | scatter returns the rank's element of the value read from the log, or the read's own error |
| LocalComm.Buffer.constructor | ndsl/comm/local_comm.py:25-29 | a new shared dictionary has no logs, no send/recv table, no gather slots and no Split registries |
| LocalComm.LocalComm.constructor | ndsl/comm/local_comm.py:25-29 | a comm records its rank, its size and its shared buffer, and starts with no cursors |
| LocalComm.LocalComm.GetBuffer | ndsl/comm/local_comm.py:50-57 | advances this rank's cursor by one; only rank 0 appends to the log; returns the log entry at the old cursor or IndexError |
| LocalComm.LocalComm.Bcast | ndsl/comm/local_comm.py:97-105 | a root other than 0 raises NotImplementedError and changes nothing; otherwise the result is that of GetBuffer on the bcast log |
| LocalComm.LocalComm.Scatter | ndsl/comm/local_comm.py:113-125 | a root other than 0 raises NotImplementedError and changes nothing; otherwise it reads the scatter log and returns this rank's element |
| LocalComm.LocalComm.Gather | ndsl/comm/local_comm.py:127-142 | the shared gather slots and the result are those that Gathered gives |
| LocalComm.LocalComm.Send | ndsl/comm/local_comm.py:149-151 | appends the value to the queue keyed by (this rank, dest, tag) |
| LocalComm.LocalComm.Isend | ndsl/comm/local_comm.py:153-159 | sends at once and returns a completed request |
| LocalComm.LocalComm.Recv | ndsl/comm/local_comm.py:161-163 | pops from the queue keyed by (source, this rank, tag) as Take does; on an error the table is unchanged |
| LocalComm.LocalComm.Irecv | ndsl/comm/local_comm.py:165-169 | changes nothing and returns a request that receives when it is waited on |
| LocalComm.LocalComm.Split | ndsl/comm/local_comm.py:177-190 | the new comm's rank is the number of comms already under the color, and it is appended to that registry; all comms of the color share one buffer (fresh for a new color) and get the new size |
| LocalComm.Wait | ndsl/comm/local_comm.py:16-21 | waiting on a send gives nothing and changes nothing; waiting on a receive performs the deferred Recv, which changes only the send/recv table |
| LocalComm.LogIsRootValues | ndsl/comm/local_comm.py:50-57 | after any schedule of calls, the log holds exactly rank 0's values in order, and each rank's cursor counts its own calls |
| LocalComm.BufferReplay | ndsl/comm/local_comm.py:50-57 | the n-th bcast of any rank returns the root's n-th value, or IndexError when the root has made fewer calls |
| LocalComm.RootReadsOwnValue | ndsl/comm/local_comm.py:55-57 | rank 0 always gets back the value it passed |
| LocalComm.ScatterReplay | ndsl/comm/local_comm.py:113-125 | the n-th scatter of a rank returns its element of the root's n-th buffer, or IndexError |
| LocalComm.StepQueue | ndsl/comm/local_comm.py:59-77 | a send appends to one queue, a successful recv pops its head, and nothing else moves |
| LocalComm.TableExists | ndsl/comm/local_comm.py:61-64 | the send/recv table exists exactly when some send has happened |
| LocalComm.QueueExists | ndsl/comm/local_comm.py:65-69 | a key's queue exists exactly when a send was made on that key |
| LocalComm.FifoQueues | ndsl/comm/local_comm.py:59-77 | for every key, what was delivered followed by what is queued is exactly what was sent, in order |
| LocalComm.RecvReplay | ndsl/comm/local_comm.py:59-71 | a recv returns the first value sent on its key that has not been delivered yet; otherwise it gives the ConcurrencyError or IndexError that applies |
| LocalComm.SlotsAreLastSent | ndsl/comm/local_comm.py:127-131 | after any gather calls, each slot holds the last value its rank sent |
| LocalComm.GatherSlotsAt | ndsl/comm/local_comm.py:127-131 | after call m, each slot holds its rank's latest value up to and including that call |
| LocalComm.GatherReplay | ndsl/comm/local_comm.py:127-142 | gather at an in-range root succeeds exactly when every rank has sent, and returns their latest values; otherwise the error names exactly the ranks that have not sent. Earlier calls from out-of-range ranks are allowed and leave the slots alone |
| LocalComm.OnlySecondUncalled | ndsl/comm/local_comm.py:134-137 | with two slots and only rank 0's filled, the uncalled list is [1] |
| LocalComm.SplitInOrder | ndsl/comm/local_comm.py:177-190 | three Splits on one color give ranks 0, 1, 2, all of size 3, sharing one buffer |
| LocalComm.BcastInOrder | ndsl/comm/local_comm.py:97-105 | root first, then rank 1: both get the root's value |
| LocalComm.BcastBeforeRoot | ndsl/comm/local_comm.py:50-57 | a non-root bcast before the root's raises IndexError |
| LocalComm.SendRecvInOrder | ndsl/comm/local_comm.py:59-77 | recv before any send is a ConcurrencyError; two sends are received in order; a further recv raises IndexError |
| LocalComm.IrecvThenWait | ndsl/comm/local_comm.py:153-169 | an Irecv posted before the Send receives the value when it is waited on |
| LocalComm.GatherRootFirst | ndsl/comm/local_comm.py:132-140 | a root that gathers before rank 1 gets a ConcurrencyError naming [1] |
| LocalComm.GatherInOrder | ndsl/comm/local_comm.py:127-142 | rank 1, then root 0: the root gets both values in rank order |
| LocalComm.FreshWorld | ndsl/comm/local_comm.py:25-29 | a new empty dictionary and comms of ranks 0 .. size-1, each of that size, sharing it with no cursors |
| LocalComm.BcastCallAt | ndsl/comm/local_comm.py:97-105 | one bcast by the comm of the call's rank moves the log and that rank's cursor one step of the replay, leaves other ranks' replay cursors alone, and returns the replay's result |
| LocalComm.BcastResultsReplayed | ndsl/comm/local_comm.py:50-57 | every call of a bcast schedule gets the root's value of the same count, or IndexError |
| LocalComm.BcastRun | ndsl/comm/local_comm.py:97-105 | a schedule of bcasts run on real comms returns, call by call, the replay's result: the root's n-th value for a rank's n-th call, or IndexError |
| LocalComm.P2POpAt | ndsl/comm/local_comm.py:149-163 | one Send or Recv by the comm that makes it moves the table one step of the replay and returns the replay's result |
| LocalComm.P2PRun | ndsl/comm/local_comm.py:149-163 | a schedule of sends and receives run on real comms returns, operation by operation, the replay's result |
| LocalComm.GatherCallAt | ndsl/comm/local_comm.py:127-142 | one Gather by the comm of the call's rank moves the slots one step of the replay and returns the replay's result |
| LocalComm.GatherRootResults | ndsl/comm/local_comm.py:132-142 | in a schedule whose ranks are in range, every call on the root succeeds exactly when every rank has passed a value |
| LocalComm.GatherRun | ndsl/comm/local_comm.py:127-142 | a schedule of gathers with one root run on real comms returns the replay's results; a call on the root succeeds exactly when every rank has passed a value |
| LocalComm.Allgather | ndsl/comm/local_comm.py:144-147 | always raises NotImplementedError (inherent parallelism) |
| LocalComm.Sendrecv | ndsl/comm/local_comm.py:171-175 | always raises NotImplementedError (requires synchronicity) |
| LocalComm.AllreduceObject | ndsl/comm/local_comm.py:192-196 | always raises NotImplementedError (requires synchronicity) |
| LocalComm.Allreduce | ndsl/comm/local_comm.py:198-202 | always raises NotImplementedError (requires synchronicity) |
| Typing.FloatingPointPrecision | ndsl/dsl/typing.py:25-26 | the precision is 64 when PACE_FLOAT_PRECISION is unset, and the given value otherwise |
| Typing.GlobalSetFloatingPointPrecision | ndsl/dsl/typing.py:36-48 | float64 exactly for 64 bits, float32 exactly for 32 bits, and None for every other precision |
| Typing.CheckedFloatingPointPrecision | ndsl/dsl/typing.py:36-48 | succeeds exactly for 32 and 64 bits, with the same type as the function as written, which is a float kind; otherwise NotImplementedError with the precision |
| Typing.CastToIndex3D | ndsl/dsl/typing.py:88-91 | ValueError exactly when the length is not 3; otherwise the tuple, unchanged, as an Index3D |
| Typing.IsFloat | ndsl/dsl/typing.py:94-102 | when Float is a float kind or None, a type is accepted exactly when it is a float kind; None is accepted exactly when Float is None |
| Typing.IsFloatExactly | ndsl/dsl/typing.py:94-102 | for every precision setting, is_float accepts exactly float, float16, float32 and float64, and no int or bool type of DTypes |
| Typing.NoneIsFloatUnderUnsupportedPrecision | ndsl/dsl/typing.py:45-52 | as written, is_float(None) is true exactly when the precision is neither 32 nor 64 |
| Typing.Precision16Example | ndsl/dsl/typing.py:45-52 | precision 16 raises nothing, leaves Float as None, and makes None pass as a float; the corrected selection raises NotImplementedError(16) |
| Typing.CheckedPrecisionRejectsNone | ndsl/dsl/typing.py:94-102 | with the corrected selection, Float is a float kind and is_float(None) is false |

`LocalComm.LocalComm.GetRank` and `GetSize` (`local_comm.py:44-48`) return the `rank` and `totalRanks` fields. They have no contract of their own.

## Left out

- Floating point: field values are `real`. Rounding, overflow, NaN and the float32/float64 distinction of the stencil are not modelled.
- Tridiag.TridiagSolve: requires every pivot of every column to be non-zero (`Solvable`). The stencil divides regardless; a zero pivot there gives inf or NaN, and that case is not modelled.
- Tridiag.Quot: makes division total (0 at a zero divisor). No statement relies on that value.
- Tridiag.TridiagSolve: requires that x and delta alias neither each other nor the inputs. gt4py's semantics when fields alias are not modelled.
- The gt4py machinery itself is not modelled: stencil compilation, backends, the parallel execution of (i, j) columns and halo handling. The model solves columns one after another; each sweep reads and writes only its own column's cells, as the postconditions of `ForwardSweep` and `BackwardSweep` state.
- `ensure_contiguous`, `safe_assign_array` and `copy.deepcopy` are not modelled (`ndsl.utils` is not part of this model). Values are immutable, so a copy is the value itself. Writing into `recvbuf` is modelled as returning the value.
- `ndsl_log.debug` in bcast is logging only.
- The `Comm` abstract base class is not part of this model.
- `Barrier` and `barrier` do nothing and return nothing, so they are not modelled.
- `__repr__` (string formatting) is not modelled.
- LocalComm.LocalComm: ranks are `nat`, so Python's negative list indexing in Gather and Scatter (`gather_buffer[-1]`) is not modelled.
- LocalComm.LocalComm.Split: the `key` argument is ignored, as in the code.
- LocalComm.LocalComm.Gather: `recvbuf[i, :]` shapes are not modelled; the root returns the slot list.
- Real MPI concurrency is not modelled. The mock is sequential by design.
- LocalComm.Element: `Scalar` stands for a Python scalar such as an `int`, so indexing it raises TypeError. A numpy scalar or 0-d array would raise IndexError at `sendbuf[self.rank]` instead; numpy arrays are modelled only as `Array` of elements.
- LocalComm.BcastRun: scatter has no schedule run of its own. It uses the same `GetBuffer` step on its own log, and `ScatterReplay` states its result on the replay.
- Typing.FloatingPointPrecision: `os.getenv` and the parse done by `int(...)` are not modelled. The setting is an optional integer, and a string that fails to parse (a ValueError) is not modelled.
- numpy types are an enumeration (`DType`). numpy's `dtype` objects, which compare equal to their scalar types, and `Int`/`Bool` are not modelled.
- The `Field` type aliases and `set_4d_field_size` in the typing module only name gt4py types and are not modelled.

## Findings

| source | as written | input that shows it | evidently intended | confidence | as-written member | corrected member |
|---|---|---|---|---|---|---|
| ndsl/dsl/typing.py:45-48 | the `NotImplementedError` for an unsupported precision is built but not raised, so the function returns None and `Float` becomes None; then `is_float(None)` is true | PACE_FLOAT_PRECISION=16 | raise `NotImplementedError` for any precision other than 32 and 64 | high (not executed) | Typing.Precision16Example | Typing.CheckedFloatingPointPrecision |
