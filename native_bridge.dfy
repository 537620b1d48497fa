/** The native producer: the static `ApplePencilManager` that writes pencil samples
    into the shared circular buffer and tells the managed side which slots are new. */
module NativeBridge {
  import opened PencilState
  import opened Ring

  predicate IsInt32(x: int) { -0x8000_0000 <= x < 0x8000_0000 }

  /** What a flush did with the managed callback: nothing, or one call with the
      first new slot and the number of new slots. */
  datatype HandlerCall = NotCalled | Called(offset: int, numEvents: int)

  /** Slot `k % |slots|` holds `written[k]` for each of the last `|slots|` records
      written: older records have been overwritten. */
  ghost predicate Holds(slots: seq<ApplePencilState>, written: seq<ApplePencilState>)
  {
    |slots| > 0 &&
    forall k :: 0 <= k < |written| && |written| - |slots| <= k ==> slots[k % |slots|] == written[k]
  }

  /** Writing the next record into the slot the write cursor names keeps the last
      `|slots|` records in their slots. */
  lemma {:induction false} HoldsAfterWrite(slots: seq<ApplePencilState>, written: seq<ApplePencilState>,
                                           r: ApplePencilState)
    requires Holds(slots, written)
    ensures Holds(slots[|written| % |slots| := r], written + [r])
  {
    var n, w := |slots|, |written|;
    var slots', written' := slots[w % n := r], written + [r];
    forall k | 0 <= k < |written'| && |written'| - n <= k
      ensures slots'[k % n] == written'[k]
    {
      if k < w {
        DistinctSlots(k, w, n);
      }
    }
  }

  /** The native bridge's static state, as one object. `handlerSet` stands for a
      non-null callback pointer; `buffer` and `bufferLength` are the shared array
      and the slot count the managed side handed over. */
  class ApplePencilManager {
    var handlerSet: bool
    var buffer: array?<ApplePencilState>
    var bufferLength: int
    /** The slot the next record is written to. */
    var bufferOffset: int
    /** The slot up to which records have been reported to the managed side. */
    var lastNotifiedOffset: int

    /** Every record written since the buffer was last set or unset, oldest first. */
    ghost var written: seq<ApplePencilState>
    /** How many of `written` have been reported by a flush. */
    ghost var flushed: nat

    /** Whether an add writes a record: a buffer is set and has at least one slot. */
    predicate Writable()
      reads this
    {
      buffer != null && bufferLength != 0
    }

    ghost predicate Valid()
      reads this, buffer
    {
      IsInt32(bufferLength) &&
      (buffer != null ==> buffer.Length == bufferLength) &&
      flushed <= |written| &&
      if Writable() then
        bufferOffset == |written| % bufferLength &&
        lastNotifiedOffset == flushed % bufferLength &&
        Holds(buffer[..], written)
      else
        bufferOffset == 0 && lastNotifiedOffset == 0 && written == [] && flushed == 0
    }

    /** The records written but not yet reported, oldest first. */
    ghost function Pending(): (p: seq<ApplePencilState>)
      reads this
      requires flushed <= |written|
      ensures |p| == |written| - flushed
    {
      written[flushed..]
    }

    /** The initial values of the statics: no handler, no buffer, both cursors at 0. */
    constructor ()
      ensures Valid()
      ensures !handlerSet && buffer == null && bufferLength == 0
      ensures bufferOffset == 0 && lastNotifiedOffset == 0
      ensures written == [] && flushed == 0
    {
      handlerSet, buffer, bufferLength := false, null, 0;
      bufferOffset, lastNotifiedOffset := 0, 0;
      written, flushed := [], 0;
    }

    /** Writes `r` into the slot at the write cursor and advances the cursor by one
      slot, back to 0 past the last one. */
    method Store(r: ApplePencilState)
      requires Valid() && Writable()
      modifies this`bufferOffset, this`written, buffer
      ensures Valid()
      ensures bufferOffset == Next(old(bufferOffset), bufferLength)
      ensures buffer[..] == old(buffer[..])[old(bufferOffset) := r]
      ensures written == old(written) + [r]
    {
      SlotStep(|written|, bufferLength);
      HoldsAfterWrite(buffer[..], written, r);
      buffer[bufferOffset] := r;
      written := written + [r];
      bufferOffset := bufferOffset + 1;
      if bufferOffset >= bufferLength {
        bufferOffset := 0;
      }
    }

    /** Records one pencil sample. Without a buffer, or with an empty one, nothing
      happens; otherwise the slot at the write cursor gets the sample (its padding
      is left as it was) and the cursor advances with wraparound. */
    method AddApplePencilEvent(positionX: Float32, positionY: Float32, tip: bool, pressure: Float32,
                               tiltX: Float32, tiltY: Float32, estimatedPropertiesExpectingUpdates: bv32,
                               estimationUpdateIndex: bv32, isEstimationUpdate: bool, isPredicted: bool)
      requires Valid()
      modifies this`bufferOffset, this`written, buffer
      ensures Valid()
      ensures !old(Writable()) ==>
        bufferOffset == old(bufferOffset) && written == old(written) &&
        (buffer != null ==> buffer[..] == old(buffer[..]))
      ensures old(Writable()) ==>
        bufferOffset == (old(bufferOffset) + 1) % bufferLength &&
        buffer[..] == old(buffer[..])[old(bufferOffset) := old(buffer[bufferOffset]).(
          positionX := positionX, positionY := positionY,
          estimationUpdateIndex := estimationUpdateIndex,
          buttons := PackButtons(tip, estimatedPropertiesExpectingUpdates, isEstimationUpdate, isPredicted),
          pressure := pressure, tiltX := tiltX, tiltY := tiltY)] &&
        written == old(written) + [buffer[old(bufferOffset)]]
    {
      if buffer == null || bufferLength == 0 {
        return;
      }
      var r := buffer[bufferOffset].(
        positionX := positionX, positionY := positionY,
        estimationUpdateIndex := estimationUpdateIndex,
        buttons := PackButtons(tip, estimatedPropertiesExpectingUpdates, isEstimationUpdate, isPredicted),
        pressure := pressure, tiltX := tiltX, tiltY := tiltY);
      Store(r);
    }

    /** Records a barrel tap: like a sample with only bit 7 of `buttons` set and
      zero position, pressure, tilt and estimation-update index. */
    method AddApplePencilBarrelTapEvent()
      requires Valid()
      modifies this`bufferOffset, this`written, buffer
      ensures Valid()
      ensures !old(Writable()) ==>
        bufferOffset == old(bufferOffset) && written == old(written) &&
        (buffer != null ==> buffer[..] == old(buffer[..]))
      ensures old(Writable()) ==>
        bufferOffset == (old(bufferOffset) + 1) % bufferLength &&
        buffer[..] == old(buffer[..])[old(bufferOffset) := old(buffer[bufferOffset]).(
          positionX := Zero, positionY := Zero, estimationUpdateIndex := 0,
          buttons := BarrelTapButtons, pressure := Zero, tiltX := Zero, tiltY := Zero)] &&
        written == old(written) + [buffer[old(bufferOffset)]]
    {
      if buffer == null || bufferLength == 0 {
        return;
      }
      var r := buffer[bufferOffset].(
        positionX := Zero, positionY := Zero, estimationUpdateIndex := 0,
        buttons := BarrelTapButtons, pressure := Zero, tiltX := Zero, tiltY := Zero);
      Store(r);
    }

    /** Reports the slots written since the last flush: one call with the old flush
      cursor and the wrapping distance to the write cursor, after which the flush
      cursor catches up. Nothing happens without a buffer, without a handler, or
      when the cursors coincide. While fewer than `bufferLength` records are
      pending, the call names exactly the pending records; after exactly
      `bufferLength` of them the cursors coincide and nothing is reported. */
    method FlushApplePencilEvents() returns (call: HandlerCall)
      requires Valid()
      modifies this`lastNotifiedOffset, this`flushed
      ensures Valid()
      ensures old(buffer == null || bufferOffset == lastNotifiedOffset || !handlerSet) ==>
        call == NotCalled && lastNotifiedOffset == old(lastNotifiedOffset) && flushed == old(flushed)
      ensures !old(buffer == null || bufferOffset == lastNotifiedOffset || !handlerSet) ==>
        call == Called(old(lastNotifiedOffset), Gap(old(lastNotifiedOffset), bufferOffset, bufferLength)) &&
        lastNotifiedOffset == bufferOffset && flushed == |written|
      ensures call.Called? ==>
        0 <= call.offset < bufferLength && 1 <= call.numEvents <= bufferLength - 1 &&
        Slot(call.offset, call.numEvents, bufferLength) == bufferOffset
      ensures handlerSet && 0 < |old(Pending())| < bufferLength ==>
        call == Called(old(flushed) % bufferLength, |old(Pending())|)
      ensures |old(Pending())| == bufferLength ==> call == NotCalled
    {
      if buffer == null || bufferOffset == lastNotifiedOffset || !handlerSet {
        call := NotCalled;
        GapCountsPending(flushed, |written|, if bufferLength > 0 then bufferLength else 1);
        return;
      }
      var numEvents := 0;
      if bufferOffset > lastNotifiedOffset {
        numEvents := bufferOffset - lastNotifiedOffset;
      } else {
        numEvents := bufferLength - lastNotifiedOffset;
        numEvents := numEvents + bufferOffset;
      }
      GapCountsPending(flushed, |written|, bufferLength);
      GapByCases(lastNotifiedOffset, bufferOffset, bufferLength);
      GapCloses(lastNotifiedOffset, bufferOffset, bufferLength);
      call := Called(lastNotifiedOffset, numEvents);
      lastNotifiedOffset := bufferOffset;
      flushed := |written|;
    }

    /** Installs the callback and the shared buffer and restarts both cursors. The
      caller guarantees the buffer has `bufferLength` slots. */
    method SetApplePencilEventHandler(handler: bool, buffer: array?<ApplePencilState>, bufferLength: int)
      requires IsInt32(bufferLength)
      requires buffer != null ==> buffer.Length == bufferLength
      modifies this
      ensures Valid()
      ensures handlerSet == handler && this.buffer == buffer && this.bufferLength == bufferLength
      ensures bufferOffset == 0 && lastNotifiedOffset == 0
      ensures written == [] && flushed == 0
    {
      handlerSet := handler;
      this.buffer := buffer;
      this.bufferLength := bufferLength;
      bufferOffset := 0;
      lastNotifiedOffset := 0;
      written, flushed := [], 0;
    }

    /** Forgets the callback and the buffer and restarts both cursors. */
    method UnsetApplePencilEventHandler()
      modifies this
      ensures Valid()
      ensures !handlerSet && buffer == null && bufferLength == 0
      ensures bufferOffset == 0 && lastNotifiedOffset == 0
      ensures written == [] && flushed == 0
    {
      handlerSet := false;
      buffer := null;
      bufferLength := 0;
      bufferOffset := 0;
      lastNotifiedOffset := 0;
      written, flushed := [], 0;
    }
  }
}
