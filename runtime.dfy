/** The host side of the pallet: the calls a runtime makes into it (extrinsic
    dispatch and the block lifecycle hooks), a run of such calls from
    genesis, and the block-production driver of the unit tests. */
module Runtime {
  import opened FeedTypes
  import opened Oracle

  /** One call into the pallet: a `submit_event` extrinsic at some block, or
      one of the two lifecycle hooks. */
  datatype Call =
    | SubmitCall(authorized: bool, value: seq<byte>, block: BlockNumber)
    | InitializeCall(n: BlockNumber)
    | FinalizeCall(n: BlockNumber)

  /** The state after one call. */
  function Step(cfg: Config, s: PalletState, c: Call): PalletState
  {
    match c
    case SubmitCall(authorized, value, block) => Submit(cfg, s, authorized, value, block).1
    case InitializeCall(_) => s
    case FinalizeCall(n) => Sweep(cfg, s, n)
  }

  /** The state after a sequence of calls, first call first. */
  function Run(cfg: Config, s: PalletState, calls: seq<Call>): PalletState
    decreases |calls|
  {
    if calls == [] then s else Run(cfg, Step(cfg, s, calls[0]), calls[1..])
  }

  /** Every submitted payload is of the bounded payload type. */
  predicate WellTyped(cfg: Config, calls: seq<Call>)
  {
    forall i :: 0 <= i < |calls| && calls[i].SubmitCall? ==> |calls[i].value| <= cfg.maxEventBytes
  }

  /** Every call keeps the storage invariant. */
  lemma {:induction false} RunPreservesInvariant(cfg: Config, s: PalletState, calls: seq<Call>)
    requires Invariant(cfg, s.feed)
    requires WellTyped(cfg, calls)
    ensures Invariant(cfg, Run(cfg, s, calls).feed)
    decreases |calls|
  {
    if calls != [] {
      match calls[0] {
        case SubmitCall(authorized, value, block) =>
          SubmitPreservesInvariant(cfg, s, authorized, value, block);
        case InitializeCall(_) =>
        case FinalizeCall(n) =>
          SweepPreservesInvariant(cfg, s, n);
      }
      assert WellTyped(cfg, calls[1..]) by {
        forall i | 0 <= i < |calls[1..]| && calls[1..][i].SubmitCall?
          ensures |calls[1..][i].value| <= cfg.maxEventBytes
        {
          assert calls[1..][i] == calls[i + 1];
        }
      }
      RunPreservesInvariant(cfg, Step(cfg, s, calls[0]), calls[1..]);
    }
  }

  /** In every state reachable from genesis the feed holds at most
      `maxEventsInFeed` records, each within `maxEventBytes`. */
  lemma Reachable(cfg: Config, calls: seq<Call>)
    requires WellTyped(cfg, calls)
    ensures |Run(cfg, Genesis, calls).feed| <= cfg.maxEventsInFeed
    ensures forall e :: e in Run(cfg, Genesis, calls).feed ==> |e.value| <= cfg.maxEventBytes
  {
    RunPreservesInvariant(cfg, Genesis, calls);
  }

  /** Running two sequences of calls is running the first, then the second. */
  lemma {:induction false} RunAppend(cfg: Config, s: PalletState, a: seq<Call>, b: seq<Call>)
    ensures Run(cfg, s, a + b) == Run(cfg, Run(cfg, s, a), b)
    decreases |a|
  {
    if a == [] {
      assert a + b == b;
    } else {
      assert (a + b)[0] == a[0];
      assert (a + b)[1..] == a[1..] + b;
      RunAppend(cfg, Step(cfg, s, a[0]), a[1..], b);
    }
  }

  /** Authorized submissions into a feed with room for all of them append
      their records in order. */
  lemma {:induction false} SubmitsAppend(cfg: Config, s: PalletState, calls: seq<Call>)
    requires forall i :: 0 <= i < |calls| ==> calls[i].SubmitCall? && calls[i].authorized
    requires |s.feed| + |calls| <= cfg.maxEventsInFeed
    ensures var f := Run(cfg, s, calls).feed;
            && |f| == |s.feed| + |calls|
            && f[..|s.feed|] == s.feed
            && forall i :: 0 <= i < |calls| ==> f[|s.feed| + i] == FeedEvent(calls[i].value, calls[i].block)
    decreases |calls|
  {
    if calls != [] {
      var s1 := Step(cfg, s, calls[0]);
      assert s1.feed == s.feed + [FeedEvent(calls[0].value, calls[0].block)];
      assert forall i :: 0 <= i < |calls[1..]| ==> calls[1..][i] == calls[i + 1];
      SubmitsAppend(cfg, s1, calls[1..]);
      var f := Run(cfg, s, calls).feed;
      assert f[..|s1.feed|] == s1.feed;
      assert f[..|s.feed|] == s1.feed[..|s.feed|];
      forall i | 0 <= i < |calls|
        ensures f[|s.feed| + i] == FeedEvent(calls[i].value, calls[i].block)
      {
        if i == 0 {
          assert f[|s.feed|] == f[..|s1.feed|][|s.feed|];
        } else {
          assert f[|s.feed| + i] == f[|s1.feed| + (i - 1)];
        }
      }
    }
  }

  /** The calls the tests' `run_to_block(target)` makes from block `from`: for
      every block `b` below `target`, the finalization of `b` (skipped for block 1)
      and then the initialization of block `b + 1`. */
  function RunToBlock(from: BlockNumber, target: BlockNumber): (calls: seq<Call>)
    decreases target as int - from as int
  {
    if from >= target then []
    else (if from > 1 then [FinalizeCall(from)] else []) + [InitializeCall(from + 1)] + RunToBlock(from + 1, target)
  }

  /** Advancing from block `from` to block `target` sweeps exactly as the last
      finalization, that of block `target - 1`, does alone: the thresholds only
      grow. */
  lemma {:induction false} RunToBlockSweeps(cfg: Config, s: PalletState, from: BlockNumber, target: BlockNumber)
    requires 2 <= from < target
    ensures Run(cfg, s, RunToBlock(from, target)) == Sweep(cfg, s, target - 1)
    decreases target - from
  {
    var rest := RunToBlock(from + 1, target);
    var calls := RunToBlock(from, target);
    assert calls == [FinalizeCall(from), InitializeCall(from + 1)] + rest;
    assert calls[1..][1..] == rest;
    assert Run(cfg, s, calls) == Run(cfg, Sweep(cfg, s, from), calls[1..]);
    assert Run(cfg, Sweep(cfg, s, from), calls[1..]) == Run(cfg, Sweep(cfg, s, from), rest);
    if from + 1 < target {
      RunToBlockSweeps(cfg, Sweep(cfg, s, from), from + 1, target);
      SweepCompose(cfg, s, from, target - 1);
    }
  }
}
