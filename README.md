# Oracle pallet feed engine, in Dafny

This project models the feed storage engine of the oracle pallet
(`pallets/oracle`). The pallet keeps one storage value, `Feed`: a bounded,
oldest-first list of `FeedEvent` records. Each record holds a byte payload of at
most `MaxEventBytes` bytes and the block number at which it was recorded. The
feed changes in exactly two ways:

- **Bounded append.** `submit_event` runs the origin check, then pushes
  `{value, block_number}` onto the feed. The push is refused with
  `EventTooLarge` once `MaxEventsInFeed` records are stored. Because the push
  runs inside `try_mutate`, a refused push commits nothing. A `NewFeedEvent` is
  deposited only after the push succeeds.
- **Age sweep.** `on_finalize(n)` keeps, in their original order, the records
  whose block number is at least `n.saturating_sub(MaxEventAge)`.

Files:

- `types.dfy` (module `FeedTypes`): the `FeedEvent` datatype and the
  payload-length bound (`types.rs`).
- `oracle.dfy` (module `Oracle`): the configuration, events and errors; the
  pure transition functions `Submit` and `Sweep` with their lemmas; and the class
  `Pallet`. The class holds the `feed` storage value and the event log and
  updates them in place. Each of its methods is proved against `Submit` or
  `Sweep` (`lib.rs`).
- `runtime.dfy` (module `Runtime`): the calls a runtime makes into the pallet,
  a run of calls from genesis, the capacity invariant over every reachable state,
  and the block driver `run_to_block` of the unit tests.
- `scenarios.dfy` (module `OracleTests`): the unit tests `test_basic_works` and
  `test_max_events_age` as verified scenarios, plus a capacity scenario.

Modelling choices:

- The three constants form a `Config` value. The class keeps it as `const cfg`.
- The current block number is an explicit argument.
- The origin check (`EnsureOrigin`, here root) is the boolean `authorized`.
  A refusal yields `Err(BadOrigin)`, the error that `ensure_origin` returns.
- Deposited events are the field `events`. `deposit_event` appends to it.
- Block numbers are `nat`. The pallet only compares them and subtracts with
  saturation, so no machine width matters.
- `BoundedVec::try_push` fails when the length is not below the bound. The
  model uses the same test, `|feed| >= maxEventsInFeed`. Under the storage
  invariant this is exactly the case `|feed| == maxEventsInFeed`.
- `Vec::retain` is a library loop. It is modelled by the recursive function
  `Retain`, which keeps the records that meet the threshold in their order.

## Model

| member | source | states |
|---|---|---|
| `FeedTypes.FeedEventEquality` | pallets/oracle/src/types.rs:12-20 | Two records are equal exactly when both their payloads and their block numbers are equal. |
| `Oracle.Submit` | pallets/oracle/src/lib.rs:127-147 | Fails with `BadOrigin` exactly when the origin is refused. Fails with `EventTooLarge` exactly when an authorized caller meets a full feed. Any failure leaves feed and events unchanged. On success the feed grows by one, with its earlier records unchanged and the new last record `{value, block}`. The event log likewise gains exactly one `NewFeedEvent(value, block)`. |
| `Oracle.SubmitPreservesInvariant` | pallets/oracle/src/lib.rs:131-135 | A submit with a payload of at most `MaxEventBytes` bytes keeps at most `MaxEventsInFeed` records, each within `MaxEventBytes`. |
| `Oracle.SubmitFullRejects` | pallets/oracle/src/lib.rs:131-138 | On a feed holding `MaxEventsInFeed` records, an authorized submit returns `EventTooLarge` and the state is unchanged. |
| `Oracle.SubmitEventMatchesRecord` | pallets/oracle/src/lib.rs:132-144 | After a successful submit, the emitted event and the stored record both carry the submitted payload and the submission block. |
| `Oracle.OldestAllowed` | pallets/oracle/src/lib.rs:163 | The saturating threshold is at most `n`. It is the least value `t` with `t + MaxEventAge >= n`, and it is 0 when `n <= MaxEventAge`. |
| `Oracle.Retain` | pallets/oracle/src/lib.rs:164 | The retained feed is never longer than the original. |
| `Oracle.Sweep` | pallets/oracle/src/lib.rs:159-166 | The sweep leaves the event log unchanged and never lengthens the feed. |
| `Oracle.RetainMembership` | pallets/oracle/src/lib.rs:164 | A record is in the retained feed if and only if it was in the feed and its block number meets the threshold. |
| `Oracle.RetainConcat` | pallets/oracle/src/lib.rs:164 | Retaining a concatenation is the concatenation of the retained parts, so the filter never reorders records. |
| `Oracle.RetainIdentity` | pallets/oracle/src/lib.rs:164 | The feed is unchanged if and only if every record meets the threshold. |
| `Oracle.RetainEmpty` | pallets/oracle/src/lib.rs:164 | The feed becomes empty if and only if no record meets the threshold. |
| `Oracle.RetainCompose` | pallets/oracle/src/lib.rs:162-165 | Two filters in a row equal one filter by the larger threshold. |
| `Oracle.RetainPosition` | pallets/oracle/src/lib.rs:164 | A kept record `i` sits in the result at the index equal to the number of kept records before `i`. |
| `Oracle.RetainOrder` | pallets/oracle/src/lib.rs:164 | Two kept records `i < j` appear in the result at positions `ki < kj`, so their relative order is preserved. |
| `Oracle.RetainSortedSuffix` | pallets/oracle/src/lib.rs:160-164 | On a feed ordered by block number, the sweep keeps a suffix: exactly the newest records. |
| `Oracle.SweepMembership` | pallets/oracle/src/lib.rs:159-166 | After `on_finalize(n)` a record is present if and only if it was present before and `n <= block_number + MaxEventAge`. So every survivor meets `max(n - MaxEventAge, 0)` and every record meeting it survives. |
| `Oracle.SweepPreservesInvariant` | pallets/oracle/src/lib.rs:159-166 | The sweep keeps the count and payload bounds. |
| `Oracle.SweepCompose` | pallets/oracle/src/lib.rs:162-165 | Sweeping block `a` and then block `b >= a` equals sweeping block `b` alone. |
| `Oracle.SweepIdempotent` | pallets/oracle/src/lib.rs:159-166 | Sweeping the same block twice equals sweeping it once. |
| `Oracle.SweepSaturates` | pallets/oracle/src/lib.rs:163-164 | For `n <= MaxEventAge` the threshold saturates to 0 and the sweep changes nothing. |
| `Oracle.Pallet.constructor` | pallets/oracle/src/lib.rs:84-93 | Genesis: the feed (`DefaultFeed`) is empty, no event has been emitted, and the invariant holds. |
| `Oracle.Pallet.SubmitEvent` | pallets/oracle/src/lib.rs:127-147 | The in-place append returns the result and produces the new feed and event log that `Submit` gives for the old state. It also keeps the storage invariant. |
| `Oracle.Pallet.OnInitialize` | pallets/oracle/src/lib.rs:153-157 | Does nothing and reports zero weight. |
| `Oracle.Pallet.OnFinalize` | pallets/oracle/src/lib.rs:159-166 | The in-place sweep produces the state that `Sweep` gives for the old state and keeps the storage invariant. |
| `Runtime.RunPreservesInvariant` | pallets/oracle/src/lib.rs:58 | Every sequence of submits and hooks with bounded payloads keeps the storage invariant. |
| `Runtime.Reachable` | pallets/oracle/src/lib.rs:58 | In every state reachable from genesis, the feed holds at most `MaxEventsInFeed` records, each of at most `MaxEventBytes` bytes. |
| `Runtime.RunAppend` | pallets/oracle/src/tests.rs:10-20 | Running two sequences of calls equals running the first and then the second. |
| `Runtime.SubmitsAppend` | pallets/oracle/src/lib.rs:131-135 | Authorized submits into a feed with room for all of them append their records, in call order, behind the unchanged existing feed. |
| `Runtime.RunToBlockSweeps` | pallets/oracle/src/tests.rs:10-20 | Driving blocks `from..target` (from at least 2) leaves the state that finalizing block `target - 1` alone gives. |
| `OracleTests.TestBasicWorks` | pallets/oracle/src/tests.rs:27-58 | A non-root submit at block 1 fails with `BadOrigin` and changes nothing. A root submit then succeeds, emits exactly `NewFeedEvent(value, 1)` and stores exactly `[{value, 1}]`. |
| `OracleTests.TestCapacity` | pallets/oracle/src/lib.rs:131-138 | With room for two records, a third submit fails with `EventTooLarge` and the feed stays `[X, Y]`. |
| `OracleTests.MaxEventsAge` | pallets/oracle/src/tests.rs:60-94 | With the mock constants and any `HOURS >= 50`, 100 submits give a feed of 100 records. Running to block `51 + HOURS` then leaves exactly 50 records: submits 50..99 in order, with block numbers 50..99. |

## Left out

- The origin check itself (`EnsureOrigin`, `EnsureRoot` in the mock). It is a foreign capability check and is reduced to the boolean `authorized`.
- `frame_system` block-number tracking. The current block is an argument.
- `deposit_event` and the system event store. They are modelled as appending to the `events` sequence.
- SCALE encoding and decoding, `TypeInfo`, `MaxEncodedLen`, the storage backend and the internals of `BoundedVec`. The length bounds are the predicates `Invariant` and `WithinBytes`.
- The `feed()` getter (lib.rs:91). It is a plain read of the `feed` field.
- Weights (`weights.rs`) and the benchmark harness (`benchmarking.rs`). They are cost accounting and an external macro, with no feed behaviour.
- The mock runtime (`mock.rs`), except its constants. `MaxEventAge = HOURS`, `MaxEventsInFeed = 2 * HOURS` and `MaxEventBytes = 65536` appear in `OracleTests.MaxEventsAge`. `HOURS` is defined in a crate that is not part of this model, so the lemma holds for every `HOURS >= 50`.
- `frame_system`'s own hooks, which `run_to_block` calls beside the pallet's. They do not touch the feed.
- A sortedness invariant over runs. Block numbers are supplied by the host, so `Oracle.RetainSortedSuffix` takes the ordering as a precondition rather than deriving it from a run.
