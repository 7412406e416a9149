/** The feed storage engine of the oracle pallet: a bounded, oldest-first list
    of records, changed only by a bounded append (`submit_event`) and by an
    age sweep run when a block is finalized (`on_finalize`).

    The pure functions `Submit` and `Sweep` specify the two transitions on a
    `PalletState`; the class `Pallet` holds the storage cell and the event log
    and updates them in place, each method proved against its function. */
module Oracle {
  import opened FeedTypes

  /** The three configured constants of the pallet. */
  datatype Config = Config(maxEventsInFeed: nat, maxEventAge: BlockNumber, maxEventBytes: nat)

  /** The notification deposited after a successful append. */
  datatype Event = NewFeedEvent(value: seq<byte>, blockNumber: BlockNumber)

  /** Why a call fails: the origin check refused the caller, or the feed is
      full (the pallet reuses the name `EventTooLarge` for that). */
  datatype Error = BadOrigin | EventTooLarge

  datatype DispatchResult = Ok | Err(error: Error)

  /** The `Feed` storage value together with the events deposited so far. */
  datatype PalletState = PalletState(feed: seq<FeedEvent>, events: seq<Event>)

  /** Genesis: the default feed is empty and nothing has been emitted. */
  const Genesis: PalletState := PalletState([], [])

  /** The storage type invariant: at most `maxEventsInFeed` records, each
      with a payload of at most `maxEventBytes` bytes. */
  predicate Invariant(cfg: Config, feed: seq<FeedEvent>)
  {
    && |feed| <= cfg.maxEventsInFeed
    && forall e :: e in feed ==> WithinBytes(e, cfg.maxEventBytes)
  }

  // ---------------------------------------------------------------------
  // Bounded append
  // ---------------------------------------------------------------------

  /** `submit_event`: the origin check first; then the push of a record
      stamped with the current block, refused when the feed already holds
      `maxEventsInFeed` records. A refused push commits nothing, and the
      event is deposited only after the push succeeded. */
  function Submit(cfg: Config, s: PalletState, authorized: bool, value: seq<byte>, block: BlockNumber)
    : (o: (DispatchResult, PalletState))
    ensures o.0 == Err(BadOrigin) <==> !authorized
    ensures o.0 == Err(EventTooLarge) <==> authorized && |s.feed| >= cfg.maxEventsInFeed
    ensures o.0.Err? ==> o.1 == s
    ensures o.0 == Ok ==>
              && |o.1.feed| == |s.feed| + 1
              && o.1.feed[..|s.feed|] == s.feed
              && o.1.feed[|s.feed|] == FeedEvent(value, block)
    ensures o.0 == Ok ==>
              && |o.1.events| == |s.events| + 1
              && o.1.events[..|s.events|] == s.events
              && o.1.events[|s.events|] == NewFeedEvent(value, block)
  {
    if !authorized then
      (Err(BadOrigin), s)
    else if |s.feed| < cfg.maxEventsInFeed then
      (Ok, PalletState(s.feed + [FeedEvent(value, block)], s.events + [NewFeedEvent(value, block)]))
    else
      (Err(EventTooLarge), s)
  }

  /** A submit keeps the storage invariant, given a payload of the bounded
      payload type. */
  lemma SubmitPreservesInvariant(cfg: Config, s: PalletState, authorized: bool, value: seq<byte>, block: BlockNumber)
    requires Invariant(cfg, s.feed)
    requires |value| <= cfg.maxEventBytes
    ensures Invariant(cfg, Submit(cfg, s, authorized, value, block).1.feed)
  {
  }

  /** On a full feed an authorized submit fails with `EventTooLarge` and
      changes neither the feed nor the event log. */
  lemma SubmitFullRejects(cfg: Config, s: PalletState, value: seq<byte>, block: BlockNumber)
    requires Invariant(cfg, s.feed)
    requires |s.feed| == cfg.maxEventsInFeed
    ensures Submit(cfg, s, true, value, block) == (Err(EventTooLarge), s)
  {
  }

  /** The record stored and the event emitted by a successful submit carry
      the same payload and the same block number. */
  lemma SubmitEventMatchesRecord(cfg: Config, s: PalletState, authorized: bool, value: seq<byte>, block: BlockNumber)
    requires Submit(cfg, s, authorized, value, block).0 == Ok
    ensures var s' := Submit(cfg, s, authorized, value, block).1;
            && s'.events[|s'.events| - 1].value == s'.feed[|s'.feed| - 1].value == value
            && s'.events[|s'.events| - 1].blockNumber == s'.feed[|s'.feed| - 1].blockNumber == block
  {
  }

  // ---------------------------------------------------------------------
  // Age sweep
  // ---------------------------------------------------------------------

  /** `n.saturating_sub(maxEventAge)`: the oldest block number a record may
      carry and survive the sweep of block `n`. It is the least `t` for which
      `t + maxEventAge >= n`. */
  function OldestAllowed(n: BlockNumber, maxEventAge: BlockNumber): (t: BlockNumber)
    ensures t <= n
    ensures n <= t + maxEventAge
    ensures t > 0 ==> t + maxEventAge == n
  {
    if n >= maxEventAge then n - maxEventAge else 0
  }

  /** `Vec::retain` with the predicate `block_number >= threshold`: the
      records that meet the threshold, in their original order. */
  function Retain(feed: seq<FeedEvent>, threshold: BlockNumber): (r: seq<FeedEvent>)
    ensures |r| <= |feed|
  {
    if feed == [] then []
    else (if feed[0].blockNumber >= threshold then [feed[0]] else []) + Retain(feed[1..], threshold)
  }

  /** `on_finalize(n)`: keep only the records no older than
      `OldestAllowed(n, maxEventAge)`. The event log is not touched. */
  function Sweep(cfg: Config, s: PalletState, n: BlockNumber): (s': PalletState)
    ensures s'.events == s.events
    ensures |s'.feed| <= |s.feed|
  {
    s.(feed := Retain(s.feed, OldestAllowed(n, cfg.maxEventAge)))
  }

  /** A record is retained exactly when it was in the feed and meets the
      threshold. */
  lemma {:induction false} RetainMembership(feed: seq<FeedEvent>, threshold: BlockNumber, x: FeedEvent)
    ensures x in Retain(feed, threshold) <==> x in feed && x.blockNumber >= threshold
  {
    if feed != [] {
      RetainMembership(feed[1..], threshold, x);
      assert feed == [feed[0]] + feed[1..];
    }
  }

  /** Retaining distributes over concatenation: the filter never moves a
      record across another one. */
  lemma {:induction false} RetainConcat(a: seq<FeedEvent>, b: seq<FeedEvent>, threshold: BlockNumber)
    ensures Retain(a + b, threshold) == Retain(a, threshold) + Retain(b, threshold)
  {
    if a == [] {
      assert a + b == b;
    } else {
      var head := if a[0].blockNumber >= threshold then [a[0]] else [];
      assert (a + b)[0] == a[0];
      assert (a + b)[1..] == a[1..] + b;
      assert Retain(a + b, threshold) == head + Retain(a[1..] + b, threshold);
      RetainConcat(a[1..], b, threshold);
      assert Retain(a, threshold) == head + Retain(a[1..], threshold);
    }
  }

  /** The feed is left as it is exactly when every record meets the
      threshold. */
  lemma {:induction false} RetainIdentity(feed: seq<FeedEvent>, threshold: BlockNumber)
    ensures Retain(feed, threshold) == feed <==> forall i :: 0 <= i < |feed| ==> feed[i].blockNumber >= threshold
  {
    if forall i :: 0 <= i < |feed| ==> feed[i].blockNumber >= threshold {
      if feed != [] {
        assert forall i :: 0 <= i < |feed[1..]| ==> feed[1..][i] == feed[i + 1];
        RetainIdentity(feed[1..], threshold);
        assert feed == [feed[0]] + feed[1..];
      }
    }
    if Retain(feed, threshold) == feed {
      forall i | 0 <= i < |feed|
        ensures feed[i].blockNumber >= threshold
      {
        RetainMembership(feed, threshold, feed[i]);
      }
    }
  }

  /** Every record is evicted exactly when no record meets the threshold. */
  lemma {:induction false} RetainEmpty(feed: seq<FeedEvent>, threshold: BlockNumber)
    ensures Retain(feed, threshold) == [] <==> forall i :: 0 <= i < |feed| ==> feed[i].blockNumber < threshold
  {
    if forall i :: 0 <= i < |feed| ==> feed[i].blockNumber < threshold {
      if feed != [] {
        assert forall i :: 0 <= i < |feed[1..]| ==> feed[1..][i] == feed[i + 1];
        RetainEmpty(feed[1..], threshold);
      }
    }
    if Retain(feed, threshold) == [] {
      forall i | 0 <= i < |feed|
        ensures feed[i].blockNumber < threshold
      {
        RetainMembership(feed, threshold, feed[i]);
      }
    }
  }

  /** Two filters in a row are the filter by the larger threshold. */
  lemma {:induction false} RetainCompose(feed: seq<FeedEvent>, t1: BlockNumber, t2: BlockNumber)
    ensures Retain(Retain(feed, t1), t2) == Retain(feed, if t1 >= t2 then t1 else t2)
  {
    if feed != [] {
      var head := if feed[0].blockNumber >= t1 then [feed[0]] else [];
      RetainCompose(feed[1..], t1, t2);
      RetainConcat(head, Retain(feed[1..], t1), t2);
      if head != [] {
        assert head[1..] == [];
      }
    }
  }

  /** Where a kept record ends up: after the kept records that precede it. */
  lemma RetainPosition(feed: seq<FeedEvent>, threshold: BlockNumber, i: nat)
    requires i < |feed| && feed[i].blockNumber >= threshold
    ensures |Retain(feed[..i], threshold)| < |Retain(feed, threshold)|
    ensures Retain(feed, threshold)[|Retain(feed[..i], threshold)|] == feed[i]
  {
    assert feed == feed[..i] + feed[i..];
    RetainConcat(feed[..i], feed[i..], threshold);
    assert feed[i..][0] == feed[i];
  }

  /** The sweep preserves order: two kept records keep their relative order. */
  lemma RetainOrder(feed: seq<FeedEvent>, threshold: BlockNumber, i: nat, j: nat)
    requires i < j < |feed|
    requires feed[i].blockNumber >= threshold && feed[j].blockNumber >= threshold
    ensures var r, ki, kj := Retain(feed, threshold), |Retain(feed[..i], threshold)|, |Retain(feed[..j], threshold)|;
            ki < kj < |r| && r[ki] == feed[i] && r[kj] == feed[j]
  {
    RetainPosition(feed, threshold, i);
    RetainPosition(feed, threshold, j);
    assert feed[..j] == feed[..i] + feed[i..j];
    RetainConcat(feed[..i], feed[i..j], threshold);
    assert feed[i..j][0] == feed[i];
  }

  /** Records ordered by block number, oldest first. */
  predicate SortedByBlock(feed: seq<FeedEvent>)
  {
    forall i, j :: 0 <= i <= j < |feed| ==> feed[i].blockNumber <= feed[j].blockNumber
  }

  /** On a feed ordered by block number the sweep keeps a suffix: exactly the
      newest records. */
  lemma {:induction false} RetainSortedSuffix(feed: seq<FeedEvent>, threshold: BlockNumber)
    requires SortedByBlock(feed)
    ensures Retain(feed, threshold) == feed[|feed| - |Retain(feed, threshold)|..]
  {
    if feed != [] {
      if feed[0].blockNumber >= threshold {
        RetainIdentity(feed, threshold);
      } else {
        RetainSortedSuffix(feed[1..], threshold);
        var k := |feed| - |Retain(feed, threshold)|;
        assert feed[1..][k - 1..] == feed[k..];
      }
    }
  }

  /** After the sweep of block `n` a record is present exactly when it was
      present before and is at most `maxEventAge` blocks older than `n`. */
  lemma SweepMembership(cfg: Config, s: PalletState, n: BlockNumber, e: FeedEvent)
    ensures e in Sweep(cfg, s, n).feed <==> e in s.feed && n <= e.blockNumber + cfg.maxEventAge
  {
    RetainMembership(s.feed, OldestAllowed(n, cfg.maxEventAge), e);
  }

  /** The sweep keeps the storage invariant. */
  lemma SweepPreservesInvariant(cfg: Config, s: PalletState, n: BlockNumber)
    requires Invariant(cfg, s.feed)
    ensures Invariant(cfg, Sweep(cfg, s, n).feed)
  {
    forall e | e in Sweep(cfg, s, n).feed
      ensures WithinBytes(e, cfg.maxEventBytes)
    {
      SweepMembership(cfg, s, n, e);
    }
  }

  /** Sweeping block `a` and then block `b >= a` is sweeping block `b`. */
  lemma SweepCompose(cfg: Config, s: PalletState, a: BlockNumber, b: BlockNumber)
    requires a <= b
    ensures Sweep(cfg, Sweep(cfg, s, a), b) == Sweep(cfg, s, b)
  {
    RetainCompose(s.feed, OldestAllowed(a, cfg.maxEventAge), OldestAllowed(b, cfg.maxEventAge));
  }

  /** Sweeping the same block twice changes nothing the second time. */
  lemma SweepIdempotent(cfg: Config, s: PalletState, n: BlockNumber)
    ensures Sweep(cfg, Sweep(cfg, s, n), n) == Sweep(cfg, s, n)
  {
    SweepCompose(cfg, s, n, n);
  }

  /** Until block `maxEventAge` the threshold saturates at 0 and nothing is
      evicted. */
  lemma SweepSaturates(cfg: Config, s: PalletState, n: BlockNumber)
    requires n <= cfg.maxEventAge
    ensures Sweep(cfg, s, n) == s
  {
    RetainIdentity(s.feed, 0);
  }

  // ---------------------------------------------------------------------
  // The pallet's storage, updated in place
  // ---------------------------------------------------------------------

  /** The pallet instance: its configuration, the `Feed` storage value and
      the events deposited so far. */
  class Pallet {
    const cfg: Config
    var feed: seq<FeedEvent>
    var events: seq<Event>

    ghost predicate Valid()
      reads this
    {
      Invariant(cfg, feed)
    }

    function State(): PalletState
      reads this
    {
      PalletState(feed, events)
    }

    /** Genesis: the default feed (`DefaultFeed`) is empty. */
    constructor (cfg: Config)
      ensures Valid()
      ensures this.cfg == cfg
      ensures State() == Genesis
    {
      this.cfg := cfg;
      feed := [];
      events := [];
    }

    /** `submit_event`: the payload is of the bounded payload type, so its
        length is at most `maxEventBytes`. */
    method SubmitEvent(authorized: bool, value: seq<byte>, currentBlock: BlockNumber) returns (r: DispatchResult)
      requires Valid()
      requires |value| <= cfg.maxEventBytes
      modifies this
      ensures Valid()
      ensures (r, State()) == Submit(cfg, old(State()), authorized, value, currentBlock)
    {
      if !authorized {
        return Err(BadOrigin);
      }
      // `try_mutate` works on a copy and writes it back only on success.
      var candidate := feed;
      if |candidate| >= cfg.maxEventsInFeed {
        return Err(EventTooLarge);
      }
      candidate := candidate + [FeedEvent(value, currentBlock)];
      feed := candidate;
      events := events + [NewFeedEvent(value, currentBlock)];
      r := Ok;
    }

    /** `on_initialize`: does nothing and reports zero weight. */
    method OnInitialize(n: BlockNumber) returns (weight: nat)
      ensures weight == 0
    {
      weight := 0;
    }

    /** `on_finalize(n)`: the age sweep, in place. */
    method OnFinalize(n: BlockNumber)
      requires Valid()
      modifies this
      ensures Valid()
      ensures State() == Sweep(cfg, old(State()), n)
    {
      SweepPreservesInvariant(cfg, State(), n);
      var oldestAllowed := OldestAllowed(n, cfg.maxEventAge);
      feed := Retain(feed, oldestAllowed);
    }
  }
}
