/**
 * The frame-coalescing discipline shared by ScrollManager and
 * ActiveSectionManager: a `ticking` flag guards a call to
 * requestAnimationFrame, and the queued callback clears the flag when the
 * browser renders the next frame. `pending` counts the callbacks handed to
 * requestAnimationFrame that have not run yet.
 */
module Frames {

  datatype Flag = Flag(ticking: bool, pending: nat)

  const Idle := Flag(false, 0)

  /** The invariant the flag keeps: a callback is queued exactly while ticking, so never more than one. */
  predicate Coalesced(f: Flag) {
    f.pending == if f.ticking then 1 else 0
  }

  /** requestTick(): schedule a frame callback unless one is already on its way. */
  function Requested(f: Flag): (r: Flag)
    ensures r.ticking
    ensures f.ticking ==> r == f
    ensures Coalesced(f) ==> Coalesced(r) && r.pending == 1
  {
    if !f.ticking then Flag(true, f.pending + 1) else f
  }

  /** `k` calls of requestTick() in a row. */
  function RequestedTimes(f: Flag, k: nat): Flag
    decreases k
  {
    if k == 0 then f else RequestedTimes(Requested(f), k - 1)
  }

  /** A burst of any length schedules exactly one callback. */
  lemma {:induction false} BurstSchedulesOnce(f: Flag, k: nat)
    requires Coalesced(f) && k >= 1
    ensures RequestedTimes(f, k) == Flag(true, 1)
    decreases k
  {
    if k > 1 {
      BurstSchedulesOnce(Requested(f), k - 1);
    }
  }

  /**
   * The browser renders a frame: every queued callback runs once (performing
   * one update) and sets `ticking` back to false.
   */
  function Rendered(f: Flag): (r: (Flag, nat))
    ensures r.1 == f.pending
    ensures f.pending > 0 ==> r.0 == Idle
    ensures f.pending == 0 ==> r.0 == f
    ensures Coalesced(f) ==> Coalesced(r.0) && r.1 <= 1
  {
    if f.pending > 0 then (Idle, f.pending) else (f, 0)
  }
}
