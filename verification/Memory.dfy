/** The release/acquire memory that the step machines share.

    Every plain (non-atomic) access of a run is one entry of a log; the entry's index names the
    access. A set of indices says which accesses happen before a point of the run: a thread's
    set grows by its own accesses (sequenced before), a release store copies it into the message
    it publishes, and an acquire load that reads the message joins it (synchronizes with). */
module Memory {

  /** One value in an atomic's modification order, with what its release store publishes. tid, here and
      below, is the thread that made it, an annotation that no step reads. */
  datatype Msg = Msg(val: nat, hb: set<nat>, tid: nat)

  /** A plain access of cell `cell`, made for the unbounded queue position `pos` (an annotation
      that no step reads); `known` is what happened before it. */
  datatype Access = Access(write: bool, cell: nat, pos: nat, known: set<nat>, tid: nat)

  /** Every logged access of the cell is in hb. */
  ghost predicate Known(log: seq<Access>, cell: nat, hb: set<nat>) {
    forall e | 0 <= e < |log| && log[e].cell == cell :: e in hb
  }

  /** No data race: of two accesses to one cell, the earlier happens before the later. */
  ghost predicate RaceFree(log: seq<Access>) {
    forall i, j | 0 <= i < j < |log| && log[i].cell == log[j].cell :: i in log[j].known
  }

  /** hb names accesses made so far only. */
  ghost predicate Past(log: seq<Access>, hb: set<nat>) {
    forall e | e in hb :: e < |log|
  }

  /** What an access follows was made before it: happens-before never runs against the run. */
  ghost predicate KnownIsPast(log: seq<Access>) {
    forall j | 0 <= j < |log| :: forall e | e in log[j].known :: e < j
  }
}
