/** The managed consumer: the `ApplePencil` input device, its static shared buffer,
    the "current device" it tracks, and the callback that drains new slots into the
    input system's event queue. */
module ManagedPencil {
  import opened PencilState
  import opened Ring

  /** One call of the input system's state-event queueing: the device the state is
      for and the state, byte for byte as it sat in the buffer. */
  datatype StateEvent = StateEvent(device: ApplePencil?, state: ApplePencilState)

  /** How a drain ended: normally, or with the index-out-of-range exception the
      shared array's indexer raises when asked for a slot it does not have. */
  datatype DrainOutcome = Drained | IndexOutOfRange

  /** The slots a drain of `numEvents` records from `offset` visits, in visiting
      order: none when `numEvents` is not positive, otherwise the i-th is the slot
      `i` steps after `offset` with wraparound. */
  function DrainOrder(slots: seq<ApplePencilState>, offset: int, numEvents: int): (r: seq<ApplePencilState>)
    requires numEvents > 0 ==> 0 <= offset < |slots|
    ensures |r| == if numEvents > 0 then numEvents else 0
  {
    if numEvents <= 0 then []
    else seq(numEvents, i requires 0 <= i < numEvents => slots[Slot(offset, i, |slots|)])
  }

  /** The queue entries for `states`, all addressed to `device`, in order. */
  function EventsFor(device: ApplePencil?, states: seq<ApplePencilState>): (r: seq<StateEvent>)
    ensures |r| == |states|
  {
    seq(|states|, i requires 0 <= i < |states| => StateEvent(device, states[i]))
  }

  /** Draining less than one full lap visits each slot at most once. */
  lemma DrainVisitsDistinctSlots(n: int, offset: int, numEvents: int, i: int, j: int)
    requires 0 <= offset < n && numEvents <= n
    requires 0 <= i < j < numEvents
    ensures Slot(offset, i, n) != Slot(offset, j, n)
  {
    DistinctSlots(offset + i, offset + j, n);
  }

  /** The static members of the managed `ApplePencil` class that the drain and the
      current-device tracking use. */
  class ApplePencilStatics {
    /** The shared circular buffer. */
    var buffer: array<ApplePencilState>
    /** The device made current most recently, unless it has been removed since. */
    var current: ApplePencil?
    /** Every state event handed to the input system, oldest first. */
    var queue: seq<StateEvent>

    constructor (buffer: array<ApplePencilState>)
      ensures this.buffer == buffer && current == null && queue == []
    {
      this.buffer := buffer;
      current := null;
      queue := [];
    }

    /** The callback the native side invokes: queues the state in each of the
      `numEvents` slots from `offset` on, wrapping at the end of the buffer, for the
      current device. It only reads the buffer. An `offset` outside the buffer
      raises the indexer's exception before anything is queued, and only then; a
      non-positive `numEvents` queues nothing. */
    method OnApplePencilEvent(offset: int, numEvents: int) returns (outcome: DrainOutcome)
      modifies this`queue
      ensures outcome == IndexOutOfRange <==> numEvents > 0 && !(0 <= offset < buffer.Length)
      ensures outcome == IndexOutOfRange ==> queue == old(queue)
      ensures outcome == Drained ==>
        queue == old(queue) + EventsFor(current, DrainOrder(buffer[..], offset, numEvents))
    {
      var at, remaining := offset, numEvents;
      ghost var done := 0;
      while remaining > 0
        invariant remaining == numEvents - done
        invariant 0 <= done <= (if numEvents > 0 then numEvents else 0)
        invariant done > 0 ==> 0 <= offset < buffer.Length && at == Slot(offset, done, buffer.Length)
        invariant done > 0 ==> queue == old(queue) + EventsFor(current, DrainOrder(buffer[..], offset, done))
        invariant done == 0 ==> at == offset && queue == old(queue)
      {
        if !(0 <= at < buffer.Length) {
          return IndexOutOfRange;
        }
        var state := buffer[at];
        if done == 0 {
          SlotStart(offset, buffer.Length);
        }
        SlotAdvance(offset, done, buffer.Length);
        DrainOrderGrows(buffer[..], offset, done);
        EventsForAppend(current, DrainOrder(buffer[..], offset, done), state);
        queue := queue + [StateEvent(current, state)];
        at := at + 1;
        if at == buffer.Length {
          at := 0;
        }
        remaining := remaining - 1;
        done := done + 1;
      }
      assert numEvents <= 0 ==> EventsFor(current, DrainOrder(buffer[..], offset, numEvents)) == [];
      outcome := Drained;
    }
  }

  /** Draining one more record appends the slot after the last one visited. */
  lemma DrainOrderGrows(slots: seq<ApplePencilState>, offset: int, done: nat)
    requires 0 <= offset < |slots|
    ensures DrainOrder(slots, offset, done + 1) == DrainOrder(slots, offset, done) + [slots[Slot(offset, done, |slots|)]]
  {
  }

  lemma EventsForAppend(device: ApplePencil?, states: seq<ApplePencilState>, s: ApplePencilState)
    ensures EventsFor(device, states + [s]) == EventsFor(device, states) + [StateEvent(device, s)]
  {
  }

  /** A drain starts at its own offset. */
  lemma SlotStart(offset: int, n: int)
    requires 0 <= offset < n
    ensures Slot(offset, 0, n) == offset
  {
    assert offset == 0 * n + offset;
    ModOfSum(0, offset, n);
  }

  /** Stepping from slot `offset + done` reaches slot `offset + done + 1`. */
  lemma SlotAdvance(offset: int, done: int, n: int)
    requires n > 0 && 0 <= offset < n
    ensures Next(Slot(offset, done, n), n) == Slot(offset, done + 1, n)
  {
    SlotStep(offset + done, n);
  }

  /** An input device of the Apple Pencil layout. */
  class ApplePencil {
    constructor ()
    {
    }

    /** Makes this device the current Apple Pencil. */
    method MakeCurrent(statics: ApplePencilStatics)
      modifies statics`current
      ensures statics.current == this
    {
      statics.current := this;
    }

    /** On removal, forgets this device if it is the current one; another current
      device stays current. */
    method OnRemoved(statics: ApplePencilStatics)
      modifies statics`current
      ensures old(statics.current) == this ==> statics.current == null
      ensures old(statics.current) != this ==> statics.current == old(statics.current)
    {
      if statics.current == this {
        statics.current := null;
      }
    }
  }
}
