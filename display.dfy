/**
 * The display module's file-level state (src/display.c) and the operations
 * that update it in place: `display_init`, `display_close`,
 * `display_try_get`, `display_show` and the buffer flip of the vblank
 * handler `__display_callback`.
 *
 * Each operation runs with interrupts disabled, or is the interrupt handler
 * itself, so each is one atomic step here. Surfaces are identified by their
 * index in the `surfaces` array.
 */
module Display {
  import opened Wrappers
  import opened DisplayTypes
  import opened FramebufferRing
  import opened DisplayConfig

  /** The assertion of `display_show` that fails first. */
  datatype ShowError =
    | InvalidContext  // the surface is not one of the display's buffers
    | AlreadyShown    // its ready bit is already set
    | NotLocked       // its drawing bit is not set

  /**
   * The checks of `display_show` on surface index `surf` (None is NULL), in
   * the order the C code makes them.
   */
  function ShowFailure(surf: Option<int>, n: nat, drawing: set<nat>, ready: set<nat>): (r: Option<ShowError>)
    ensures r.None? <==> surf.None? || (0 <= surf.value < n && surf.value in drawing && surf.value !in ready)
  {
    match surf
    case None => None
    case Some(i) =>
      if !(0 <= i < n) then Some(InvalidContext)
      else if i in ready then Some(AlreadyShown)
      else if i !in drawing then Some(NotLocked)
      else None
  }

  class DisplayState {
    /** `__buffers`: number of active buffers. */
    var buffers: nat
    /** `now_showing`: the buffer being scanned out, -1 while closed. */
    var nowShowing: int
    /** `drawing_mask`: buffers handed to the caller for drawing. */
    var drawingMask: set<nat>
    /** `ready_mask`: buffers queued for display. */
    var readyMask: set<nat>
    /** `__width`, `__height`, `__bitdepth` (bytes per pixel). */
    var width: nat
    var height: nat
    var bitdepth: nat
    /** `__interlace_mode`, `__borders`. */
    var interlaceMode: InterlaceMode
    var borders: ViBorders
    /** The value last written to the VI control register by `display_init`. */
    var control: set<ViCtrlFlag>

    /** The drawing and ready buffers, in the order they were gotten. */
    ghost var Pending: seq<nat>

    predicate IsOpen()
      reads this
    {
      nowShowing >= 0
    }

    ghost predicate Valid()
      reads this
    {
      && 1 <= buffers <= NUM_BUFFERS
      && -1 <= nowShowing
      && bitdepth in {0, 2, 4}
      && (!IsOpen() ==>
            drawingMask == {} && readyMask == {} && Pending == [] && width == 0 && height == 0)
      && (IsOpen() ==>
            && Ring(buffers, nowShowing, drawingMask, readyMask, Pending)
            && 2 <= width <= 800 && 1 <= height <= 720 && bitdepth != 0)
    }

    /** The state before the first `display_init`: the static initialisers. */
    constructor ()
      ensures Valid() && !IsOpen()
      ensures buffers == NUM_BUFFERS && bitdepth == 0 && interlaceMode == InterlaceOff
    {
      buffers := NUM_BUFFERS;
      nowShowing := -1;
      drawingMask, readyMask := {}, {};
      width, height, bitdepth := 0, 0, 0;
      interlaceMode := InterlaceOff;
      borders := ViBorders(0, 0, 0, 0);
      control := {};
      Pending := [];
    }

    /**
     * `display_init`. `bbPlayer` is `sys_bbplayer()`. A failing assertion
     * stops the program in C; here it is returned and nothing changes.
     */
    method Init(res: Resolution, bit: BitDepth, numBuffers: nat, gamma: Gamma, filters: FilterOptions, bbPlayer: bool)
      returns (err: Option<InitError>)
      requires Valid()
      requires numBuffers < 0x1_0000_0000
      modifies this
      ensures Valid()
      ensures err == InitFailure(res, bit, filters)
      ensures err.Some? ==> unchanged(this)
      ensures err.None? ==>
                && buffers == ClampBuffers(numBuffers)
                && nowShowing == 0 && drawingMask == {} && readyMask == {} && Pending == []
                && width == res.width && height == res.height && bitdepth == BytesPerPixel(bit)
                && interlaceMode == res.interlaced && borders == res.borders
                && control == ViControl(res.interlaced != InterlaceOff, bit, gamma, filters, bbPlayer)
    {
      err := InitFailure(res, bit, filters);
      if err.Some? {
        return;
      }
      AcceptedModeInDocumentedRange(res, bit, filters);
      buffers := ClampBuffers(numBuffers);
      control := ViControl(res.interlaced != InterlaceOff, bit, gamma, filters, bbPlayer);
      width, height := res.width, res.height;
      bitdepth := BytesPerPixel(bit);
      interlaceMode := res.interlaced;
      borders := res.borders;
      nowShowing := 0;
      drawingMask, readyMask := {}, {};
      Pending := [];
      RingInit(buffers);
    }

    /** `display_close`: back to the closed state; the buffer count is kept. */
    method Close()
      requires Valid()
      modifies this`nowShowing, this`drawingMask, this`readyMask, this`width, this`height, this`Pending
      ensures Valid() && !IsOpen()
      ensures nowShowing == -1 && drawingMask == {} && readyMask == {} && Pending == []
      ensures width == 0 && height == 0
    {
      nowShowing := -1;
      drawingMask, readyMask := {}, {};
      width, height := 0, 0;
      Pending := [];
    }

    /**
     * `display_try_get`: lock the first buffer after the one on screen, in
     * ring order, that is neither drawing nor ready; None (NULL) if there is
     * none. Only meaningful while the display is open.
     */
    method TryGet() returns (r: Option<nat>)
      requires Valid() && IsOpen()
      modifies this`drawingMask, this`Pending
      ensures Valid()
      ensures r == FirstFree(buffers, nowShowing, old(drawingMask), readyMask)
      ensures r.None? <==> |old(Pending)| == ScanLength(buffers)
      ensures r.Some? ==>
                && r.value < buffers
                && r.value !in old(drawingMask) && r.value !in readyMask
                && (buffers > 1 ==> r.value != nowShowing)
                && drawingMask == old(drawingMask) + {r.value}
                && Pending == old(Pending) + [r.value]
      ensures r.None? ==> drawingMask == old(drawingMask) && Pending == old(Pending)
    {
      var n := buffers;
      var next := BufferNext(nowShowing, n);
      ghost var d: nat := 0;
      r := None;
      while true
        invariant d < ScanLength(n)
        invariant next == RingIndex(nowShowing, d, n)
        invariant r.None? && drawingMask == old(drawingMask) && Pending == old(Pending)
        invariant FirstFree(n, nowShowing, drawingMask, readyMask)
               == FirstFreeFrom(n, nowShowing, drawingMask + readyMask, d)
        decreases ScanLength(n) - d
      {
        if next !in drawingMask + readyMask {
          r := Some(next);
          drawingMask := drawingMask + {next};
          break;
        }
        if d + 1 < n {
          RingIndexStep(nowShowing, d, n);
        }
        next := BufferNext(next, n);
        if d + 1 == ScanLength(n) {
          if n > 1 { RingIndexWrapsToNow(nowShowing, n); }
          assert next == nowShowing;
        } else {
          RingIndexInjective(nowShowing, d + 1, n - 1, n);
          RingIndexWrapsToNow(nowShowing, n);
        }
        if next == nowShowing {
          break;
        }
        d := d + 1;
      }
      FirstFreeAfterPending(n, nowShowing, old(drawingMask), readyMask, Pending);
      if r.Some? {
        RingAfterGet(n, nowShowing, old(drawingMask), readyMask, Pending, r.value);
        if n > 1 {
          RingShownIsIdle(n, nowShowing, drawingMask, readyMask, Pending + [r.value]);
        }
        Pending := Pending + [r.value];
      }
    }

    /** `display_lock`, the deprecated name of `display_try_get`. */
    method Lock() returns (r: Option<nat>)
      requires Valid() && IsOpen()
      modifies this`drawingMask, this`Pending
      ensures Valid()
      ensures r == FirstFree(buffers, nowShowing, old(drawingMask), readyMask)
      ensures r.None? ==> drawingMask == old(drawingMask) && Pending == old(Pending)
      ensures r.Some? ==> drawingMask == old(drawingMask) + {r.value} && Pending == old(Pending) + [r.value]
    {
      r := TryGet();
    }

    /**
     * `display_show`: move a locked buffer from drawing to ready. NULL is
     * ignored; a failing assertion stops the program in C and is returned
     * here with nothing changed.
     */
    method Show(surf: Option<int>) returns (err: Option<ShowError>)
      requires Valid()
      modifies this`drawingMask, this`readyMask
      ensures Valid()
      ensures err == ShowFailure(surf, buffers, old(drawingMask), old(readyMask))
      ensures err.None? && surf.Some? ==>
                drawingMask == old(drawingMask) - {surf.value} && readyMask == old(readyMask) + {surf.value}
      ensures err.Some? || surf.None? ==>
                drawingMask == old(drawingMask) && readyMask == old(readyMask)
    {
      err := ShowFailure(surf, buffers, drawingMask, readyMask);
      if surf.None? || err.Some? {
        return;
      }
      var i := surf.value;
      RingAfterShow(buffers, nowShowing, drawingMask, readyMask, Pending, i);
      drawingMask := drawingMask - {i};
      readyMask := readyMask + {i};
    }

    /**
     * The buffer flip of the vblank handler. `oddField` is the low bit of
     * the current VI line and `fpsLimitOk` the verdict of `fps_limit_ok()`.
     * The next buffer in ring order is shown if it is ready; no later ready
     * buffer is ever taken instead.
     */
    method Flip(oddField: bool, fpsLimitOk: bool) returns (newFrame: bool)
      requires Valid()
      modifies this`nowShowing, this`readyMask, this`Pending
      ensures Valid()
      ensures newFrame <==>
                && !(interlaceMode == InterlaceFull && oddField) && fpsLimitOk
                && BufferNext(old(nowShowing), buffers) in old(readyMask)
      ensures newFrame ==>
                && old(Pending) != []
                && nowShowing == old(Pending)[0] == BufferNext(old(nowShowing), buffers)
                && readyMask == old(readyMask) - {nowShowing}
                && Pending == old(Pending)[1..]
      ensures !newFrame ==>
                nowShowing == old(nowShowing) && readyMask == old(readyMask) && Pending == old(Pending)
    {
      newFrame := false;
      if !(interlaceMode == InterlaceFull && oddField) && fpsLimitOk {
        var next := BufferNext(nowShowing, buffers);
        if next in readyMask {
          RingAfterFlip(buffers, nowShowing, drawingMask, readyMask, Pending);
          nowShowing := next;
          readyMask := readyMask - {next};
          Pending := Pending[1..];
          newFrame := true;
        }
      }
    }

    /** `display_get_width`: 0 while closed, else within 2..800. */
    method Width() returns (w: nat)
      requires Valid()
      ensures w == width
      ensures IsOpen() ==> 2 <= w <= 800
      ensures !IsOpen() ==> w == 0
    {
      w := width;
    }

    /** `display_get_height`: 0 while closed, else within 1..720. */
    method Height() returns (h: nat)
      requires Valid()
      ensures h == height
      ensures IsOpen() ==> 1 <= h <= 720
      ensures !IsOpen() ==> h == 0
    {
      h := height;
    }

    /** `display_get_bitdepth`: bytes per pixel, 2 or 4 once initialised. */
    method Bitdepth() returns (b: nat)
      requires Valid()
      ensures b == bitdepth
      ensures IsOpen() ==> b == 2 || b == 4
    {
      b := bitdepth;
    }

    /** `display_get_num_buffers` */
    method NumBuffers() returns (n: nat)
      requires Valid()
      ensures n == buffers && 1 <= n <= NUM_BUFFERS
    {
      n := buffers;
    }
  }

  /**
   * Surfaces reach the screen in the order they were gotten, whatever the
   * order of the `display_show` calls: with three buffers, two surfaces
   * gotten in turn and shown in reverse order are displayed first to last.
   */
  method ShownInGetOrder(d: DisplayState) returns (a: nat, b: nat, first: int, second: int)
    requires d.Valid() && d.IsOpen() && d.buffers == 3 && d.Pending == []
    modifies d
    ensures a != b
    ensures first == a && second == b
  {
    var ra := d.TryGet();
    var rb := d.TryGet();
    a, b := ra.value, rb.value;
    assert d.Pending == [a, b];
    var showB := d.Show(Some(b));
    var showA := d.Show(Some(a));
    assert d.Pending == [a, b] && a in d.readyMask;
    var flipped := d.Flip(false, true);
    first := d.nowShowing;
    assert first == a && d.Pending == [b] && b in d.readyMask;
    flipped := d.Flip(false, true);
    second := d.nowShowing;
  }
}
