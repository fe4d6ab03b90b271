/**
 * The framebuffer ring of the display module (src/display.c), as values.
 *
 * `n` buffers are used in ring order. `now` is the buffer being scanned
 * out, `drawing` holds the buffers handed to the caller for drawing, and
 * `ready` the buffers queued for display. The two masks of the C code are
 * modelled as the sets of the bit indices they contain.
 *
 * The ghost sequence `pending` lists the buffers that are drawing or ready
 * in the order they were gotten; the invariant `Ring` says that this is
 * the contiguous run of the ring just after `now`.
 */
module FramebufferRing {
  import opened Wrappers

  /** Maximum number of video backbuffers (`NUM_BUFFERS`), the width of the masks. */
  const NUM_BUFFERS: nat := 32

  /** `buffer_next`: the next buffer index, wrapping to 0 at `n`. */
  function BufferNext(idx: int, n: nat): (r: nat)
    requires 1 <= n
    requires -1 <= idx < n
    ensures r < n
    ensures r == (idx + 1) % n
  {
    WrapOnce(idx + 1, n);
    if idx + 1 == n then 0 else idx + 1
  }

  /**
   * How many buffers one call of `display_try_get` examines: every buffer
   * but the one on screen, or the single buffer itself when there is one.
   */
  function ScanLength(n: nat): (r: nat)
    requires 1 <= n
    ensures 1 <= r <= n
    ensures n > 1 ==> r == n - 1
  {
    if n == 1 then 1 else n - 1
  }

  /** The buffer `j + 1` places after `now` in ring order. */
  function RingIndex(now: nat, j: nat, n: nat): (r: nat)
    requires now < n && j < n
    ensures r < n
    ensures r == (now + 1 + j) % n
  {
    WrapOnce(now + 1 + j, n);
    if now + 1 + j < n then now + 1 + j else now + 1 + j - n
  }

  /** Below `2 * n`, reduction modulo `n` subtracts `n` at most once. */
  lemma WrapOnce(x: nat, n: nat)
    requires 0 < n && x < 2 * n
    ensures x % n == if x < n then x else x - n
  {
    if x >= n {
      assert x == 1 * n + (x - n);
    }
  }

  /** The `k` buffers just after `now`, in ring order. */
  function Segment(now: nat, k: nat, n: nat): (s: seq<nat>)
    requires now < n && k <= n
    ensures |s| == k
    ensures forall j :: 0 <= j < k ==> s[j] == RingIndex(now, j, n)
  {
    seq(k, j requires 0 <= j < k => RingIndex(now, j, n))
  }

  /**
   * The loop of `display_try_get`: starting at scan position `d`, the first
   * buffer in ring order after `now` that is not busy, if any.
   */
  function FirstFreeFrom(n: nat, now: nat, busy: set<nat>, d: nat): (r: Option<nat>)
    requires 1 <= n && now < n && d <= ScanLength(n)
    ensures r.Some? ==> r.value < n && r.value !in busy
    decreases ScanLength(n) - d
  {
    if d == ScanLength(n) then None
    else if RingIndex(now, d, n) !in busy then Some(RingIndex(now, d, n))
    else FirstFreeFrom(n, now, busy, d + 1)
  }

  /**
   * The buffer `display_try_get` locks: the first buffer in ring order after
   * `now` that is in neither `drawing_mask` nor `ready_mask`, or None (NULL)
   * when every scanned buffer is in one of them.
   */
  function FirstFree(n: nat, now: nat, drawing: set<nat>, ready: set<nat>): (r: Option<nat>)
    requires 1 <= n && now < n
    ensures r.Some? ==> r.value < n && r.value !in drawing && r.value !in ready
    ensures r.None? <==> forall j :: 0 <= j < ScanLength(n) ==> RingIndex(now, j, n) in drawing + ready
  {
    FirstFreeFromNone(n, now, drawing + ready, 0);
    FirstFreeFrom(n, now, drawing + ready, 0)
  }

  /**
   * The ring invariant: the masks are disjoint and hold exactly the buffers
   * of `pending`, which is the run of the ring right after `now`.
   */
  ghost predicate Ring(n: nat, now: nat, drawing: set<nat>, ready: set<nat>, pending: seq<nat>)
  {
    && 1 <= n <= NUM_BUFFERS
    && now < n
    && |pending| <= ScanLength(n)
    && pending == Segment(now, |pending|, n)
    && drawing !! ready
    && drawing + ready == set i | i in pending
  }

  // ---------------------------------------------------------------------
  // Ring arithmetic

  /** Stepping with `buffer_next` walks the ring one place further. */
  lemma RingIndexStep(now: nat, j: nat, n: nat)
    requires now < n && j + 1 < n
    ensures BufferNext(RingIndex(now, j, n), n) == RingIndex(now, j + 1, n)
  {
  }

  /** `n - 1` places after `now` the ring is back at `now`. */
  lemma RingIndexWrapsToNow(now: nat, n: nat)
    requires now < n
    ensures RingIndex(now, n - 1, n) == now
  {
  }

  /** Within one turn of the ring, distinct places are distinct buffers. */
  lemma RingIndexInjective(now: nat, j1: nat, j2: nat, n: nat)
    requires now < n && j1 < n && j2 < n
    ensures RingIndex(now, j1, n) == RingIndex(now, j2, n) <==> j1 == j2
  {
  }

  /** The segment after `buffer_next(now)` is the segment after `now` without its head. */
  lemma {:induction false} SegmentShift(now: nat, k: nat, n: nat)
    requires now < n && 1 <= k <= ScanLength(n)
    ensures Segment(BufferNext(now, n), k - 1, n) == Segment(now, k, n)[1..]
  {
    var next := BufferNext(now, n);
    forall j | 0 <= j < k - 1
      ensures Segment(next, k - 1, n)[j] == Segment(now, k, n)[1..][j]
    {
      assert next == RingIndex(now, 0, n);
    }
  }

  /** With more than one buffer, the buffer on screen is not in its own segment. */
  lemma SegmentExcludesNow(now: nat, k: nat, n: nat)
    requires 1 < n && now < n && k <= n - 1
    ensures now !in Segment(now, k, n)
  {
    forall j | 0 <= j < k ensures Segment(now, k, n)[j] != now {
      RingIndexWrapsToNow(now, n);
      RingIndexInjective(now, j, n - 1, n);
    }
  }

  // ---------------------------------------------------------------------
  // The scan of display_try_get

  /** If position `j` is free and every earlier position is busy, the scan returns position `j`. */
  lemma {:induction false} FirstFreeFromFinds(n: nat, now: nat, busy: set<nat>, d: nat, j: nat)
    requires 1 <= n && now < n && d <= j < ScanLength(n)
    requires RingIndex(now, j, n) !in busy
    requires forall j' :: d <= j' < j ==> RingIndex(now, j', n) in busy
    ensures FirstFreeFrom(n, now, busy, d) == Some(RingIndex(now, j, n))
    decreases j - d
  {
    if d < j {
      FirstFreeFromFinds(n, now, busy, d + 1, j);
    }
  }

  /** The scan returns nothing exactly when every scanned position is busy. */
  lemma {:induction false} FirstFreeFromNone(n: nat, now: nat, busy: set<nat>, d: nat)
    requires 1 <= n && now < n && d <= ScanLength(n)
    ensures FirstFreeFrom(n, now, busy, d).None? <==>
              forall j :: d <= j < ScanLength(n) ==> RingIndex(now, j, n) in busy
    decreases ScanLength(n) - d
  {
    if d < ScanLength(n) {
      FirstFreeFromNone(n, now, busy, d + 1);
    }
  }

  /**
   * Under the ring invariant the scan finds the buffer just after the
   * pending run, and fails exactly when the run already fills the scan.
   */
  lemma FirstFreeAfterPending(n: nat, now: nat, drawing: set<nat>, ready: set<nat>, pending: seq<nat>)
    requires Ring(n, now, drawing, ready, pending)
    ensures FirstFree(n, now, drawing, ready) ==
              if |pending| == ScanLength(n) then None else Some(RingIndex(now, |pending|, n))
  {
    var busy := drawing + ready;
    forall j | 0 <= j < |pending| ensures RingIndex(now, j, n) in busy {
      assert pending[j] == RingIndex(now, j, n);
    }
    if |pending| == ScanLength(n) {
      FirstFreeFromNone(n, now, busy, 0);
    } else {
      var k := |pending|;
      if RingIndex(now, k, n) in busy {
        var j :| 0 <= j < k && pending[j] == RingIndex(now, k, n);
        RingIndexInjective(now, j, k, n);
      }
      FirstFreeFromFinds(n, now, busy, 0, k);
    }
  }

  // ---------------------------------------------------------------------
  // The invariant is kept by every transition

  /** Init establishes the ring: buffer 0 on screen, both masks empty. */
  lemma RingInit(n: nat)
    requires 1 <= n <= NUM_BUFFERS
    ensures Ring(n, 0, {}, {}, [])
  {
  }

  /** With more than one buffer, the buffer on screen is neither drawing nor ready. */
  lemma RingShownIsIdle(n: nat, now: nat, drawing: set<nat>, ready: set<nat>, pending: seq<nat>)
    requires Ring(n, now, drawing, ready, pending) && n > 1
    ensures now !in drawing && now !in ready
  {
    SegmentExcludesNow(now, |pending|, n);
  }

  /** The masks only use bits below the buffer count. */
  lemma RingMasksBelowCount(n: nat, now: nat, drawing: set<nat>, ready: set<nat>, pending: seq<nat>)
    requires Ring(n, now, drawing, ready, pending)
    ensures forall i :: i in drawing + ready ==> i < n
  {
    forall i | i in drawing + ready ensures i < n {
      var j :| 0 <= j < |pending| && pending[j] == i;
      assert pending[j] == RingIndex(now, j, n);
    }
  }

  /** Getting a buffer appends it to the pending run. */
  lemma RingAfterGet(n: nat, now: nat, drawing: set<nat>, ready: set<nat>, pending: seq<nat>, i: nat)
    requires Ring(n, now, drawing, ready, pending)
    requires FirstFree(n, now, drawing, ready) == Some(i)
    ensures Ring(n, now, drawing + {i}, ready, pending + [i])
  {
    FirstFreeAfterPending(n, now, drawing, ready, pending);
    assert pending + [i] == Segment(now, |pending| + 1, n);
    assert (set x | x in pending + [i]) == (set x | x in pending) + {i};
  }

  /** Showing a drawing buffer moves it to ready; the pending run does not change. */
  lemma RingAfterShow(n: nat, now: nat, drawing: set<nat>, ready: set<nat>, pending: seq<nat>, i: nat)
    requires Ring(n, now, drawing, ready, pending)
    requires i in drawing
    ensures Ring(n, now, drawing - {i}, ready + {i}, pending)
  {
  }

  /**
   * Flipping to a ready `buffer_next(now)` shows the head of the pending run
   * and drops it from the run.
   */
  lemma RingAfterFlip(n: nat, now: nat, drawing: set<nat>, ready: set<nat>, pending: seq<nat>)
    requires Ring(n, now, drawing, ready, pending)
    requires BufferNext(now, n) in ready
    ensures pending != [] && pending[0] == BufferNext(now, n)
    ensures Ring(n, BufferNext(now, n), drawing, ready - {BufferNext(now, n)}, pending[1..])
  {
    var next := BufferNext(now, n);
    assert next in set x | x in pending;
    assert pending[0] == RingIndex(now, 0, n) == next;
    SegmentShift(now, |pending|, n);
    assert pending[1..] == Segment(next, |pending[1..]|, n);
    PopHeadSet(now, n, pending);
  }

  /** Dropping the head of a run removes exactly that buffer from its set. */
  lemma PopHeadSet(now: nat, n: nat, pending: seq<nat>)
    requires now < n && 1 <= |pending| <= n && pending == Segment(now, |pending|, n)
    ensures (set x | x in pending[1..]) == (set x | x in pending) - {pending[0]}
  {
    forall j | 1 <= j < |pending| ensures pending[j] != pending[0] {
      RingIndexInjective(now, 0, j, n);
    }
    assert pending == [pending[0]] + pending[1..];
  }
}
