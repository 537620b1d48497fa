# Apple Pencil bridge: a verified model of the shared sample ring

This project models the bridge that passes Apple Pencil samples from native iOS
code to Unity's input system. The two sides share a fixed-length circular buffer
of 32-byte `ApplePencilState` records. There is one producer and one consumer.

- **Native producer** (`ApplePencilManager`, module `NativeBridge`). It keeps a
  write cursor `bufferOffset` and a flush cursor `lastNotifiedOffset`. Each
  `AddApplePencilEvent` or `AddApplePencilBarrelTapEvent` writes one record into
  the slot at the write cursor, then advances the cursor and wraps it at
  `bufferLength`. `FlushApplePencilEvents` reports `(lastNotifiedOffset,
  numEvents)` to the managed callback, then moves the flush cursor up to the
  write cursor. `SetApplePencilEventHandler` and `UnsetApplePencilEventHandler`
  reset both cursors.
- **Managed consumer** (`ApplePencil`, module `ManagedPencil`). The callback
  `OnApplePencilEvent(offset, numEvents)` reads `numEvents` slots from `offset`,
  wrapping at the buffer's length. It queues each slot, unchanged and in order,
  as a state event for the current device. `MakeCurrent` and `OnRemoved` keep
  track of the current device.
- **Record** (module `PencilState`). The nine packed native fields and the six
  managed fields at explicit offsets describe the same 32 bytes. Bits 0-6 of the
  `buttons` word carry the tip, the four expecting-update flags, the
  estimation-update flag and the predicted flag. A barrel tap sets bit 7 alone.
- **Wiring** (module `PencilBridge`). A flush whose handler is the managed
  callback runs on the buffer both sides share.
- **Ring arithmetic** (module `Ring`). This module holds the slot, step and gap
  arithmetic that both sides use.

The producer carries two ghost fields:
- `written` holds every record added since the last set or unset, oldest first.
- `flushed` counts how many of those records a flush has reported.

The object invariant says that slot `k % bufferLength` holds `written[k]` for
each of the last `bufferLength` records. From it the model proves what the
bridge is for: while fewer than `bufferLength` records are pending, a
flush followed by the drain it triggers queues exactly the pending records, each
once, in the order they were added. The model also shows what happens after
exactly `bufferLength` adds without a flush. The two cursors then coincide, so
the flush reports nothing and that lap of records is never delivered.

The consumer does not filter estimation-update or predicted records, and it
does not carry the last confirmed press bit forward from one record to the next: `OnApplePencilEvent` forwards every record
verbatim (ApplePencil.cs:117-118). The model does the same.

## Model

| member | source | states |
|---|---|---|
| `PencilState.PackButtons` | iOSApplePencil.hpp:82-85 | the packed word reads back as `tip` (bit 0), the low four bits of the expecting-updates set (bits 1-4), the estimation-update flag (bit 5) and the predicted flag (bit 6); bit 7 is clear and the value is below 128 |
| `PencilState.PackButtonsInjective` | iOSApplePencil.hpp:82-85 | two flag combinations with the same packed word agree on tip, on the low four expecting-update bits, on estimation-update and on predicted |
| `PencilState.BarrelTapDistinct` | iOSApplePencil.hpp:100 | the barrel-tap word `1 << 7` has only the barrel bit set and never equals a packed pencil-sample word |
| `PencilState.Packed` | iOSApplePencil.hpp:44-56 | laying fields out back to back, as `#pragma pack(1)` does, keeps their names and sizes and tiles the bytes from the start offset to the total size |
| `PencilState.NativePacking` | iOSApplePencil.hpp:44-56 | the nine packed native fields sit at bytes 0, 4, 8, 12, 16, 20, 22, 26 and 30 and total 32 bytes |
| `PencilState.ManagedTiling` | ApplePencil.cs:25-49 | the managed fields at explicit offsets 0, 8, 12, 20, 22 and 30 follow one another with no gap or overlap and fill exactly the declared 32 bytes |
| `PencilState.TilesDisjoint` | ApplePencil.cs:25-49 | in a tiling layout every field lies inside the span and no two fields share a byte |
| `PencilState.TilesBounds` | ApplePencil.cs:25-49 | in a tiling layout each field lies inside the tiled span |
| `PencilState.SpansCover` | ApplePencil.cs:25-49 | each managed field starts where a native field starts, ends where a native field ends, and covers exactly the native fields it stands for: `position` covers `positionX` and `positionY`, `tilt` covers `tiltX` and `tiltY`, the managed `padding1` covers the native `estimationUpdateIndex` and `padding1`, and `pressure`, `buttons` and `padding2` cover their native namesakes |
| `PencilState.LayoutsAgree` | ApplePencil.cs:23-49 | both sides use 32 bytes, `buttons` is the 2 bytes at offset 20 on both sides, no two fields on either side share a byte, and each managed field covers exactly the native fields of the same meaning |
| `Ring.Next` | iOSApplePencil.hpp:89-91 | the increment-then-reset-to-0 step stays in `[0, n)` and equals `(i + 1) mod n` |
| `Ring.SlotStep` | ApplePencil.cs:119-121 | stepping from slot `k mod n` reaches slot `(k + 1) mod n` |
| `Ring.GapByCases` | iOSApplePencil.hpp:115-121 | for distinct cursors the source's two-branch count equals the wrapping distance `(to - from) mod n`; that distance is 0 exactly when the cursors are equal |
| `Ring.GapCloses` | iOSApplePencil.hpp:116-124 | advancing the flush cursor by the reported count lands on the write cursor; between distinct cursors the count is in `[1, n-1]` |
| `Ring.GapCountsPending` | iOSApplePencil.hpp:113-121 | the cursor distance is the number of records written since the last flush, modulo n: it is exact below n and 0 after exactly n |
| `NativeBridge.HoldsAfterWrite` | iOSApplePencil.hpp:79-91 | writing the next record into the slot the write cursor names keeps each of the last `n` records in its slot |
| `NativeBridge.ApplePencilManager.constructor` | iOSApplePencil.hpp:130-134 | the statics start with no handler, no buffer, length 0 and both cursors at 0 |
| `NativeBridge.ApplePencilManager.Store` | iOSApplePencil.hpp:89-91 | writes one slot and advances the write cursor with wraparound; no other slot changes |
| `NativeBridge.ApplePencilManager.AddApplePencilEvent` | iOSApplePencil.hpp:74-92 | without a buffer or with length 0, nothing changes; otherwise only the slot at the old cursor is written (position, pressure, tilt, index and the packed buttons, with padding kept), the cursor becomes `(old + 1) mod bufferLength`, and the flush cursor is untouched |
| `NativeBridge.ApplePencilManager.AddApplePencilBarrelTapEvent` | iOSApplePencil.hpp:94-107 | the same guard and cursor step; the slot gets `buttons == 1 << 7` and zero position, pressure, tilt and estimation-update index |
| `NativeBridge.ApplePencilManager.FlushApplePencilEvents` | iOSApplePencil.hpp:110-125 | with no buffer, no handler or equal cursors, there is no call and no change; otherwise exactly one call with the old flush cursor and a count in `[1, bufferLength-1]` that closes the gap, after which the flush cursor equals the write cursor; below a full lap the call names exactly the pending records, and after exactly a full lap it makes no call |
| `NativeBridge.ApplePencilManager.SetApplePencilEventHandler` | iOSApplePencil.hpp:140-147 | installs the handler, buffer and length and sets both cursors to 0 |
| `NativeBridge.ApplePencilManager.UnsetApplePencilEventHandler` | iOSApplePencil.hpp:150-156 | clears the handler, buffer and length and sets both cursors to 0 |
| `ManagedPencil.DrainOrder` | ApplePencil.cs:115-124 | a drain of `numEvents` slots from `offset` visits exactly `max(0, numEvents)` slots, in order, wrapping at the buffer length; `OnApplePencilEvent` and `DrainDeliversPending` are stated with it |
| `ManagedPencil.DrainVisitsDistinctSlots` | ApplePencil.cs:116-122 | a drain of at most one lap never visits a slot twice |
| `ManagedPencil.ApplePencilStatics.OnApplePencilEvent` | ApplePencil.cs:115-124 | an offset outside the buffer with a positive count raises before anything is queued (and only that case raises); otherwise the queue grows by exactly the visited slots, unchanged and in order, for the current device; the buffer is only read; the loop keeps the offset in range |
| `ManagedPencil.ApplePencilStatics.constructor` | ApplePencil.cs:78-82 | the statics start with the given shared buffer, no current device and an empty queue |
| `ManagedPencil.ApplePencil.MakeCurrent` | ApplePencil.cs:94-97 | the device becomes current |
| `ManagedPencil.ApplePencil.OnRemoved` | ApplePencil.cs:103-107 | the current device becomes null only if it is the removed device; otherwise it is unchanged |
| `PencilBridge.DrainDeliversPending` | ApplePencil.cs:115-124 | below a full lap, draining from the flush cursor for the reported count yields exactly the records written since the previous flush, oldest first |
| `PencilBridge.FlushToManaged` | iOSApplePencil.hpp:122-124 | a flush that calls the managed callback queues exactly the reported range and moves the flush cursor to the write cursor, marking every written record as reported; below a full lap, what is queued is exactly the pending records, in add order and each once; with nothing pending there is no call; without a call neither the queue nor the flush cursor changes |

## Left out

- Floating-point values. Position, pressure and tilt are kept as 32-bit patterns
  (`bv32`) and passed through untouched. 0.0f is the all-zero pattern.
- The callback pointer. It is a boolean, "a non-null handler is installed". The
  flush returns the call it makes (`HandlerCall`) and `PencilBridge` passes that
  call on to the managed callback. So the callback runs synchronously, after the
  flush has stored its new cursor. The callback reads neither cursor, so the
  order makes no difference.
- Unity's `InputSystem.QueueStateEvent` is an append to a queue of `(device,
  state)` pairs. Its own checks, such as rejecting a null or unregistered
  device, are not part of this model.
- The shared array's indexer. The model raises `IndexOutOfRange` for a slot
  outside the buffer, as the array does when its safety checks are enabled. A
  build with those checks disabled reads outside the buffer; that is not
  modelled.
- `NativeBridge.ApplePencilManager.SetApplePencilEventHandler` requires the
  buffer, when present, to have exactly `bufferLength` slots, because its only
  caller passes the array's own length (ApplePencil.cs:82). A different length
  is well defined in the source but not modelled: the producer would wrap at
  `bufferLength` (or, for a negative length, write slot 0 every time) while the
  drain wraps at the array's length, so the two sides would disagree on slots.
- 32-bit `int` arithmetic. Integers are unbounded in the model. The invariant
  keeps `bufferLength` in the 32-bit range and both cursors in `[0,
  bufferLength)`, so no increment or count in the source can overflow.
- Cross-thread visibility between producer and consumer. The model is
  sequential.
- Device registration and `Initialize`, including the 1000-slot buffer
  allocation, `OnAdded`,
  `Debug.Log`, input-control attributes and the `PNCL` format code: these are
  host-framework plumbing.
- The effects of `base.MakeCurrent()` and `base.OnRemoved()` in Unity's `Pen`
  base class. That code is not part of this model.
- The `extern "C"` exports, `ApplePencilHandlerIsEnabled`, the `DllImport`
  declarations, `MonoPInvokeCallback` and the Windows `DllEntryPoint`/`WinMain`
  stubs. These are foreign-call boundaries. The managed `AddApplePencilEvent`
  import declares 6 parameters while the native export takes 10; that
  interop mismatch is outside the modelled logic.
- The unused local `state` in the drain reads the same slot as the queued
  value. In a sequential model the two reads are equal, so the model reads once.
- Filtering of estimation-update and predicted records, and carrying the press
  bit forward. The source has no such logic.
