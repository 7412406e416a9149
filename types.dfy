/** The record type that the oracle feed stores. */
module FeedTypes {

  /** One unsigned byte of an event payload. */
  newtype byte = x: int | 0 <= x < 256

  /** Block numbers are unsigned. The feed only compares them and subtracts
      with saturation, so no machine width needs to be modelled. */
  type BlockNumber = nat

  /** One stored record: an opaque payload and the block in which it was
      recorded. Both fields are fixed when the record is created. */
  datatype FeedEvent = FeedEvent(value: seq<byte>, blockNumber: BlockNumber)

  /** The bound that the payload type `BoundedVec<u8, MaxEventBytes>` imposes
      by construction. */
  predicate WithinBytes(e: FeedEvent, maxEventBytes: nat)
  {
    |e.value| <= maxEventBytes
  }

  /** The derived equality of a record compares exactly its payload and its
      block number. */
  lemma FeedEventEquality(a: FeedEvent, b: FeedEvent)
    ensures a == b <==> a.value == b.value && a.blockNumber == b.blockNumber
  {
  }
}
