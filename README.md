# libdragon display ring, binary writer narrowing and stage-2 loader size rule

This project models four small cores of libdragon, the Nintendo 64 SDK, in Dafny and proves properties about them.

- **Framebuffer ring of the display module** (`src/display.c`, `include/display.h`).
  - `display_init` clamps the buffer count to 1..32, checks the requested mode, and builds the VI control value from bit depth, gamma and filter options.
  - `display_try_get` scans the ring after the buffer on screen for one that is neither drawing nor ready, and locks it.
  - `display_show` moves a locked buffer from drawing to ready.
  - The vblank handler flips to the next buffer in ring order, and only if that buffer is ready.
  - `display_close` resets the state.
  - The file-level state is the class `Display.DisplayState`, one method per operation. Each critical section (interrupts disabled, or the interrupt handler itself) is one atomic step.
  - The two 32-bit masks are sets of bit indices.
  - A ghost sequence `Pending` lists the drawing and ready buffers in the order they were gotten. The invariant `FramebufferRing.Ring` says that:
    - the masks are disjoint;
    - together they hold exactly the buffers of `Pending`;
    - `Pending` is the contiguous run of the ring right after the buffer on screen.
  - `TryGet` appends to `Pending`, `Show` leaves it alone, and `Flip` removes only its head. That is why surfaces reach the screen in the order they were gotten, whatever the order of the `display_show` calls.
- **Value types and presets of the display API** (`include/display.h`): the enums, `vi_borders_t`, `resolution_t`, the border and resolution presets, and the deprecated `ANTIALIAS_*` names (module `DisplayTypes`).
- **`_wconv`, the narrowing check of the big-endian writers** `w8`, `w16` and `w32` (`tools/common/binout.h`, module `BinOut`).
  - When the argument is wider than the target, it is accepted exactly when its arithmetic shift right by the target width is 0 or -1, that is when it lies in [-2^n, 2^n).
  - The result is the C cast, reduction modulo 2^n.
  - A `uint64_t` argument is first cast to `int64_t`, so values of 2^63 and above are judged as negative numbers.
- **The stage-2 size rule of the IPL3 compatibility loader** (`boot/loader_compat.c`, module `LoaderCompat`).
  - It reads the entrypoint and payload size from the ROM header.
  - It replaces a size of 0, or one above `8 MiB - (entrypoint & 0x1FFFFFFF) - 32 KiB`, by 1 MiB.
  - It programs a PI DMA from cartridge address 0x10001000 to the entrypoint with length register `size - 1`.
  - The bound is computed in `uint32_t` arithmetic, written out as reduction modulo 2^32.

Notes on the code as written. Where a comment says otherwise, the model follows the code.

- The buffer count is `MAX(1, MIN(NUM_BUFFERS, num_buffers))` (`src/display.c:248`). A single buffer is therefore accepted, although the comment above it says the minimum is two.
- With a single buffer, `display_try_get` examines buffer 0 itself, even while it is on screen.
- When the entrypoint's physical part exceeds 8 MiB - 32 KiB, the loader's bound wraps around to 2^32 + 8 MiB - 32 KiB - phys, which is more than 2^32 - 2^29. Nonzero sizes up to that are kept as read. Larger sizes are still replaced, so it is not every nonzero size.
- The 1 MiB fallback is not checked against the bound itself. When the entrypoint's physical part is above 7 MiB - 32 KiB, a rejected size (0 included) becomes a 1 MiB DMA that runs into the 32 KiB reserved for the loader at the top of 8 MiB, for example at entrypoint 0x80700000. `LoaderCompat.FallbackFits` states exactly when this happens.

## Model

| member | source | states |
|---|---|---|
| FramebufferRing.BufferNext | src/display.c:107-113 | the next index is below the buffer count and is `idx + 1` modulo the count, so -1 (closed) leads to 0 |
| FramebufferRing.ScanLength | src/display.c:496-511 | one scan examines every buffer but the one on screen (n - 1 of them), or the single buffer once when there is only one |
| FramebufferRing.RingIndex | src/display.c:107-113 | the buffer j + 1 places after `now` in ring order is `(now + 1 + j) mod n` |
| FramebufferRing.Segment | src/display.c:496-511 | the vocabulary of the ring invariant: the k ring places after `now`, in order; what it means for the scan and the flip is stated by `SegmentShift`, `SegmentExcludesNow` and `FirstFreeAfterPending` |
| FramebufferRing.RingIndexStep | src/display.c:503-511 | one `buffer_next` step advances one place along the ring |
| FramebufferRing.RingIndexWrapsToNow | src/display.c:511 | n - 1 places after `now` the scan is back at `now`, where the do/while stops |
| FramebufferRing.RingIndexInjective | src/display.c:107-113 | within one turn, distinct ring places are distinct buffers |
| FramebufferRing.SegmentShift | src/display.c:214-222 | the run after `buffer_next(now)` is the run after `now` without its head |
| FramebufferRing.SegmentExcludesNow | src/display.c:496-511 | with more than one buffer the run after `now` never contains `now` |
| FramebufferRing.FirstFreeFrom | src/display.c:504-511 | the reference definition of the do/while scan from a given place: a buffer it returns is below the count and free in both masks |
| FramebufferRing.FirstFree | src/display.c:503-511 | the first buffer in ring order after `now_showing` that is in neither mask, over ScanLength(n) places; None (NULL) exactly when every scanned place is busy |
| FramebufferRing.FirstFreeFromFinds | src/display.c:504-511 | if position j is free and all earlier positions are busy, the scan returns position j |
| FramebufferRing.FirstFreeFromNone | src/display.c:504-516 | the scan returns NULL exactly when every scanned position is busy |
| FramebufferRing.FirstFreeAfterPending | src/display.c:488-517 | under the ring invariant, the scan returns the buffer just after the pending run, and NULL exactly when the run already fills the scan |
| FramebufferRing.RingInit | src/display.c:389-392 | buffer 0 on screen with both masks empty satisfies the invariant |
| FramebufferRing.RingShownIsIdle | src/display.c:496-511 | with more than one buffer, the buffer on screen is in neither mask |
| FramebufferRing.RingMasksBelowCount | src/display.c:505-507 | the masks only use bits below the buffer count |
| FramebufferRing.RingAfterGet | src/display.c:505-508 | locking the buffer the scan found appends it to the pending run and keeps the invariant |
| FramebufferRing.RingAfterShow | src/display.c:575-576 | moving a drawing buffer to ready keeps the invariant and the pending run |
| FramebufferRing.RingAfterFlip | src/display.c:214-222 | a ready `buffer_next(now)` is the head of the pending run; flipping to it drops exactly that head and keeps the invariant |
| DisplayTypes.BytesPerPixel | src/display.c:369 | the stored bit depth counts bytes: 2 for 16 bpp, 4 for 32 bpp |
| DisplayTypes.PresetsShape | include/display.h:249-259 | every preset lies in the documented range and has no borders; the 480-line presets use INTERLACE_HALF and the 240-line ones INTERLACE_OFF |
| DisplayConfig.ClampBuffers | src/display.c:247-248 | the buffer count always lies in 1..32; a request in range is kept, 0 becomes 1, more than 32 becomes 32 |
| DisplayConfig.ViControl | src/display.c:242-351 | for each VI control flag, the exact condition on bbPlayer, interlacing, depth, gamma and filters under which `display_init` sets it |
| DisplayConfig.InitFailure | src/display.c:287-365 | `display_init` passes all its assertions exactly when the mode is accepted: width 1..800, height 1..720, width a multiple of 4 at 16 bpp and of 2 at 32 bpp, and width above 320 for the unfiltered 16 bpp options |
| DisplayConfig.AcceptedModeInDocumentedRange | include/display.h:136-140 | every accepted mode lies in the documented 2..800 by 1..720 range, and the byte length of a line is a multiple of 8 |
| DisplayConfig.Dedither32IsDisabled | src/display.c:314-326 | at 32 bpp FILTERS_DEDITHER gives the same control value as FILTERS_DISABLED |
| DisplayConfig.AntialiasDedither32IsAntialias | src/display.c:343-350 | at 32 bpp FILTERS_RESAMPLE_ANTIALIAS_DEDITHER gives the same control value as FILTERS_RESAMPLE_ANTIALIAS |
| DisplayConfig.PresetsAccepted | include/display.h:249-259 | every preset is accepted with FILTERS_RESAMPLE at both depths; 256x240 and 320x240 are refused FILTERS_DISABLED at 16 bpp, 640x480 is not |
| Display.ShowFailure | src/display.c:556-573 | `display_show` passes its assertions exactly on NULL or on an in-range index that is drawing and not ready |
| Display.DisplayState.constructor | src/display.c:36-54 | the static initial state: 32 buffers, display closed, masks empty, bit depth 0 |
| Display.DisplayState.Init | src/display.c:239-440 | fails exactly as the assertions do, leaving the state alone; otherwise the clamped count, buffer 0 on screen, empty masks, the requested geometry and the mapped control value, with the ring invariant |
| Display.DisplayState.Close | src/display.c:442-486 | now_showing -1, both masks empty, width and height 0 |
| Display.DisplayState.TryGet | src/display.c:488-517 | returns the first free buffer in ring order after the one on screen, or NULL exactly when every scanned buffer is busy; locks it in `drawing_mask` and appends it to the pending run; with more than one buffer it is never the buffer on screen; `ready_mask` and `now_showing` do not change |
| Display.DisplayState.Lock | include/display.h:514-517 | `display_lock` behaves exactly as `display_try_get` |
| Display.DisplayState.Show | src/display.c:556-579 | fails exactly as the assertions do; on success clears exactly that drawing bit and sets exactly that ready bit; NULL changes nothing; the pending run and `now_showing` do not change |
| Display.DisplayState.Flip | src/display.c:214-222 | a flip happens exactly when the field gate and the frame-skip gate allow it and `buffer_next(now_showing)` is ready; it then shows the head of the pending run, never a later ready buffer; `drawing_mask` is never touched |
| Display.DisplayState.Width | src/display.c:602-605 | 0 while closed, within 2..800 while open |
| Display.DisplayState.Height | src/display.c:607-610 | 0 while closed, within 1..720 while open |
| Display.DisplayState.Bitdepth | src/display.c:612-615 | 2 or 4 bytes per pixel while open |
| Display.DisplayState.NumBuffers | src/display.c:617-620 | the buffer count, within 1..32 |
| Display.ShownInGetOrder | include/display.h:396-400 | two surfaces gotten in turn and shown in reverse order reach the screen in the order they were gotten |
| BinOut.Wconv | tools/common/binout.h:17-27 | accepts exactly when the argument is not wider than the target or lies in [-2^n, 2^n) after the cast to `int64_t`; an accepted value is the argument modulo 2^n |
| BinOut.W8 | tools/common/binout.h:42 | narrows through the check to a value of at most 0xFF |
| BinOut.W16 | tools/common/binout.h:43 | narrows through the check to a value of at most 0xFFFF |
| BinOut.W32 | tools/common/binout.h:44 | narrows through the check to a value of at most 0xFFFFFFFF |
| BinOut.AsrSignRange | tools/common/binout.h:20-21 | the shift is 0 exactly on [0, 2^n) and -1 exactly on [-2^n, 0) |
| BinOut.WconvKeepsInRange | tools/common/binout.h:17-27 | values already in [0, 2^n) pass through unchanged |
| BinOut.WconvWrapsNegative | tools/common/binout.h:20-26 | negative values down to -2^n are accepted and wrap to v + 2^n |
| BinOut.WconvExamples | tools/common/binout.h:17-27 | -1 through `w16` is 0xFFFF, 256 through `w8` is refused, a 64-bit 2^32 through `w32` is refused, and the largest `uint64_t` through `w8` is 0xFF |
| LoaderCompat.IoRead32 | boot/loader_compat.c:16-21 | on a physical address below 2^29, the word read is the one at the uncached KSEG1 address 0xA0000000 plus that address |
| LoaderCompat.SizeBound | boot/loader_compat.c:41 | the `uint32_t` bound is 8 MiB - phys - 32 KiB while that is not negative, and that value plus 2^32 once it wraps |
| LoaderCompat.Kseg1 | boot/loader_compat.c:16-18 | OR-ing 0xA0000000 sets bits 31 and 29 and keeps every other bit; on a physical address it is base plus address |
| LoaderCompat.PayloadSize | boot/loader_compat.c:39-42 | the size is never 0 and is either the header's size or 1 MiB; 0 becomes 1 MiB; while the entrypoint leaves room, the size is kept exactly when the payload ends at or below 8 MiB - 32 KiB |
| LoaderCompat.Stage2 | boot/loader_compat.c:36-52 | the DMA copies from 0x10001000 to the entrypoint read at 0x10000008; its length register plus one is the sanitised size of the word at 0x10000010, so it never underflows; `stage3` gets the entrypoint |
| LoaderCompat.BoundWrapsPastRdram | boot/loader_compat.c:41 | past 8 MiB - 32 KiB the bound wraps to more than 2^32 - 2^29, and nonzero sizes up to that are kept |
| LoaderCompat.FallbackFits | boot/loader_compat.c:41-42 | a rejected size becomes 1 MiB, and that DMA ends below the reserved area exactly when the entrypoint's physical part is at most 7 MiB - 32 KiB |
| LoaderCompat.PayloadSizeExamples | boot/loader_compat.c:39-42 | at entrypoint 0x80000400, 0x7F7C00 bytes are kept, one byte more and 0 are replaced by 1 MiB; at 0x80700000 a size of 0 becomes a 1 MiB DMA that overlaps the reserved area |

## Left out

- The dynamic linker (`include/dlfcn.h`): only its declarations are available, and modelling it would mean inventing its behaviour.
- Floating point in `src/display.c`: the Kalman filters, FPS and delta-time estimation, `calc_refresh_rate`, `display_set_fps_limit` and the `fps_limit_ok` accumulator. The verdict of `fps_limit_ok()` is the `fpsLimitOk` input of `Flip`, and `update_fps` is not modelled.
- `vi_calc_borders`: float arithmetic.
- Hardware:
  - VI register reads and writes, `vi_write_config`, PAL60 timing, border and scale programming, and the `V_BURST` workaround;
  - the reset `die()` check and the scan-out address written each vblank;
  - interrupt enabling and handler registration.
  - The odd/even field is the `oddField` input of `Flip`.
- VI control bit values (defined in vi.h, which is not part of this model): each bit is an abstract flag, and `control` is the set of flags set.
- Memory management: `surface_alloc`, `malloc` and `free`, the framebuffer contents, and the z-buffer of `display_get_zbuf`. Surfaces are identified by their index in `surfaces`, and `surf - surfaces` is the `int` passed to `Show`.
- `display_get`: its wait loop (`RSP_WAIT_LOOP`, kirq waits) is blocking hardware synchronisation. Each attempt is a `TryGet`.
- `display_show_force`: an internal combination of `display_show` and the vblank handler, both of which are modelled.
- `display_get_fps`, `display_get_refresh_rate`, `display_get_delta_time` and `display_get_current_framebuffer`: float values or hardware reads.
- Display.DisplayState.Init: a failing assertion aborts the program in C after `__buffers` has already been written. Here it is returned as an error and the state is unchanged.
- Display.DisplayState.Show: a failing assertion aborts the program in C. Here it is returned as an error and the state is unchanged.
- Display.DisplayState.TryGet: it requires the display to be open. After `display_close`, `now_showing` is -1, so the C do/while never meets it again and loops forever once every buffer is busy.
- Display.DisplayState.Flip: it models only the buffer-flip part of `__display_callback`.
- The 32-bit masks are sets of bit indices below 32, so `1 << i`, `|` and `&= ~` are set insertion, union and removal.
- `binout.h` beyond `_wconv`: the file writers `_w8`, `_w16` and `_w32`, the placeholder and alignment helpers, and the float writers `wf32` and `wf32approx`. `BinOut.Wconv` returns the value that is written; the fatal message is the `Truncation` error, without its text.
- The PI polling loops `pi_read_async` and `pi_wait`, `rcp_reset`, the jump into `stage3`, and `boot/cleanup.c`: register polling and hardware bring-up. `LoaderCompat.Stage2` returns the register values of the DMA request and the jump target.
