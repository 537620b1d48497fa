/** The two sides wired together: the native flush invokes the managed callback
    (synchronously) on the buffer both sides share. */
module PencilBridge {
  import opened PencilState
  import opened Ring
  import opened NativeBridge
  import opened ManagedPencil

  /** Draining the range a flush reports, from the flush cursor, visits exactly the
      records written since the previous flush, oldest first, as long as fewer than
      a full lap of them are pending. */
  lemma {:induction false} DrainDeliversPending(slots: seq<ApplePencilState>, written: seq<ApplePencilState>,
                                                flushed: nat)
    requires Holds(slots, written)
    requires flushed <= |written| && 0 < |written| - flushed < |slots|
    ensures DrainOrder(slots, flushed % |slots|, |written| - flushed) == written[flushed..]
  {
    var n, count := |slots|, |written| - flushed;
    var drained := DrainOrder(slots, flushed % n, count);
    forall i | 0 <= i < count
      ensures drained[i] == written[flushed..][i]
    {
      SlotOfReduced(flushed, i, n);
      assert drained[i] == slots[(flushed + i) % n];
    }
  }

  /** A native flush whose handler is the managed callback, called on the shared
      buffer. The callback queues what the flush reported; while fewer than a full
      lap of records are pending, that is exactly the records added since the last
      flush, in the order they were added, each queued once. */
  method FlushToManaged(manager: ApplePencilManager, statics: ApplePencilStatics)
    returns (call: HandlerCall, outcome: DrainOutcome)
    requires manager.Valid() && manager.buffer == statics.buffer
    modifies manager`lastNotifiedOffset, manager`flushed, statics`queue
    ensures manager.Valid()
    ensures call == NotCalled ==>
      manager.lastNotifiedOffset == old(manager.lastNotifiedOffset) && manager.flushed == old(manager.flushed)
    ensures call.Called? ==>
      manager.lastNotifiedOffset == manager.bufferOffset && manager.flushed == |manager.written|
    ensures |old(manager.Pending())| == 0 ==> call == NotCalled
    ensures outcome == Drained
    ensures call == NotCalled ==> statics.queue == old(statics.queue)
    ensures call.Called? ==> 0 <= call.offset < statics.buffer.Length && 1 <= call.numEvents
    ensures call.Called? ==>
      statics.queue == old(statics.queue) +
        EventsFor(statics.current, DrainOrder(statics.buffer[..], call.offset, call.numEvents))
    ensures manager.handlerSet && 0 < |old(manager.Pending())| < manager.bufferLength ==>
      statics.queue == old(statics.queue) + EventsFor(statics.current, old(manager.Pending()))
  {
    ghost var written, flushed := manager.written, manager.flushed;
    call := manager.FlushApplePencilEvents();
    outcome := Drained;
    if call.Called? {
      if manager.handlerSet && 0 < |written| - flushed < manager.bufferLength {
        DrainDeliversPending(statics.buffer[..], written, flushed);
      }
      outcome := statics.OnApplePencilEvent(call.offset, call.numEvents);
    }
  }
}
