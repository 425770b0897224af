/**
 * Line states of the Dragon update-based protocol and the two snoop responder
 * tables (cache.cc, Cache::busRd(addr) and Cache::busUpd(addr)).
 */
module Coherence {

  /**
   * The flags of a cache line. `Invalid` is an empty slot; `Valid` is the
   * placeholder a freshly filled line holds until its access decides its state.
   */
  datatype Flags = Invalid | Valid | Modified | Exclusive | SharedClean | SharedModified

  /** One slot of the grid: flags, tag and the LRU stamp (`seq` in the source). */
  datatype Line = Line(flags: Flags, tag: nat, stamp: nat)

  /** isValid(): any flags other than Invalid. */
  predicate Present(f: Flags) { f != Invalid }

  /** A copy of the block in one of the four protocol states. */
  predicate Holds(f: Flags) { f == Modified || f == Exclusive || f == SharedClean || f == SharedModified }

  /** States whose eviction is counted as a writeback. */
  predicate Dirty(f: Flags) { f == Modified || f == SharedModified }

  /** States that own the block (answer for its contents). */
  predicate Owner(f: Flags) { f == Modified || f == Exclusive || f == SharedModified }

  /** States that claim to be the only copy. */
  predicate Sole(f: Flags) { f == Modified || f == Exclusive }

  /** The two snoop transactions of the bus. */
  datatype Snoop = ReadSnoop | UpdateSnoop

  /** What a responder does to its copy and what it answers. */
  datatype Reply = Reply(next: Flags, ack: bool)

  /** busRd(addr) on the flags of the line found for the address (Invalid: not found). */
  function BusRdReply(f: Flags): (r: Reply)
    ensures r.ack <==> Holds(f)
    ensures r.ack ==> Holds(r.next) && !Sole(r.next)
    ensures Dirty(r.next) <==> Dirty(f)
    ensures !r.ack ==> r.next == f
  {
    match f
    case Exclusive => Reply(SharedClean, true)
    case Modified => Reply(SharedModified, true)
    case SharedModified => Reply(SharedModified, true)
    case SharedClean => Reply(SharedClean, true)
    case _ => Reply(f, false)
  }

  /** busUpd(addr) on the flags of the line found for the address (Invalid: not found). */
  function BusUpdReply(f: Flags): (r: Reply)
    ensures r.ack <==> f == SharedClean || f == SharedModified
    ensures r.ack ==> r.next == SharedClean
    ensures !r.ack ==> r.next == f
  {
    if f == SharedClean || f == SharedModified then Reply(SharedClean, true)
    else Reply(f, false)
  }

  function Respond(kind: Snoop, f: Flags): (r: Reply)
    ensures Present(r.next) <==> Present(f)
    ensures r.next == Valid <==> f == Valid
    ensures Holds(r.next) <==> Holds(f)
  {
    match kind
    case ReadSnoop => BusRdReply(f)
    case UpdateSnoop => BusUpdReply(f)
  }
}
