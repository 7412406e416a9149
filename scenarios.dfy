/** The pallet's unit tests, restated as verified scenarios: one through the
    `Pallet` class and its method contracts, one through the pure model of a
    run of calls. */
module OracleTests {
  import opened FeedTypes
  import opened Oracle
  import opened Runtime

  /** `test_basic_works`: at block 1, a submit from a non-root origin fails
      and changes nothing; the same submit from root succeeds, emits one
      `NewFeedEvent` and stores exactly one record. */
  method TestBasicWorks(cfg: Config, value: seq<byte>)
    returns (rejected: DispatchResult, accepted: DispatchResult, feed: seq<FeedEvent>, events: seq<Event>)
    requires cfg.maxEventsInFeed >= 1
    requires |value| <= cfg.maxEventBytes
    ensures rejected == Err(BadOrigin)
    ensures accepted == Ok
    ensures events == [NewFeedEvent(value, 1)]
    ensures feed == [FeedEvent(value, 1)]
  {
    var pallet := new Pallet(cfg);
    rejected := pallet.SubmitEvent(false, value, 1);
    assert pallet.State() == Genesis;
    accepted := pallet.SubmitEvent(true, value, 1);
    feed, events := pallet.feed, pallet.events;
  }

  /** A feed with room for two records accepts two submits and refuses the
      third with `EventTooLarge`, keeping the first two. */
  method TestCapacity(maxEventAge: BlockNumber, x: seq<byte>, y: seq<byte>, z: seq<byte>, block: BlockNumber)
    returns (third: DispatchResult, feed: seq<FeedEvent>)
    requires |x| <= 64 && |y| <= 64 && |z| <= 64
    ensures third == Err(EventTooLarge)
    ensures feed == [FeedEvent(x, block), FeedEvent(y, block)]
  {
    var pallet := new Pallet(Config(2, maxEventAge, 64));
    var first := pallet.SubmitEvent(true, x, block);
    var second := pallet.SubmitEvent(true, y, block);
    assert first == Ok && second == Ok;
    third := pallet.SubmitEvent(true, z, block);
    feed := pallet.feed;
  }

  /** The submit loop of `test_max_events_age`: the test starts at block 1
      and sets the block number to `i + 1` after the `i`-th submit, so the
      first two submits happen at block 1 and the `i`-th one, for `i >= 1`,
      at block `i`. */
  function SubmitLoop(values: seq<seq<byte>>): (calls: seq<Call>)
  {
    seq(|values|, i requires 0 <= i < |values| => SubmitCall(true, values[i], if i == 0 then 1 else i))
  }

  /** `test_max_events_age`, for the mock runtime's constants with `HOURS`
      left as a parameter: 100 submits fill the feed; running from block 100
      to block `51 + HOURS` finalizes blocks 100 to `50 + HOURS`, the last
      with threshold 50, which leaves exactly the 50 newest records, oldest
      first. */
  lemma MaxEventsAge(hours: nat, values: seq<seq<byte>>)
    requires hours >= 50 && |values| == 100
    ensures var cfg := Config(2 * hours, hours, 65536);
            var filled := Run(cfg, Genesis, SubmitLoop(values));
            var swept := Run(cfg, filled, RunToBlock(100, 51 + hours));
            && |filled.feed| == 100
            && |swept.feed| == 50
            && forall i :: 0 <= i < 50 ==> swept.feed[i] == FeedEvent(values[i + 50], i + 50)
  {
    var cfg := Config(2 * hours, hours, 65536);
    var calls := SubmitLoop(values);
    SubmitsAppend(cfg, Genesis, calls);
    var filled := Run(cfg, Genesis, calls);
    var f := filled.feed;
    assert forall i :: 0 <= i < 100 ==> f[i] == FeedEvent(values[i], if i == 0 then 1 else i) by {
      forall i | 0 <= i < 100
        ensures f[i] == FeedEvent(values[i], if i == 0 then 1 else i)
      {
        assert f[|Genesis.feed| + i] == FeedEvent(calls[i].value, calls[i].block);
      }
    }
    RunToBlockSweeps(cfg, filled, 100, 51 + hours);
    assert OldestAllowed(50 + hours, hours) == 50;
    assert f == f[..50] + f[50..];
    RetainConcat(f[..50], f[50..], 50);
    assert forall i :: 0 <= i < |f[..50]| ==> f[..50][i].blockNumber < 50 by {
      forall i | 0 <= i < |f[..50]|
        ensures f[..50][i].blockNumber < 50
      {
        assert f[..50][i] == f[i];
      }
    }
    RetainEmpty(f[..50], 50);
    assert forall i :: 0 <= i < |f[50..]| ==> f[50..][i] == FeedEvent(values[i + 50], i + 50);
    RetainIdentity(f[50..], 50);
  }
}
