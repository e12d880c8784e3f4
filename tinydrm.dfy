/**
 * The inline helpers of the tinydrm header: the prepared/enabled toggles of
 * `struct tinydrm_device`, which forward to the DRM panel only on a real
 * change of state, and the full-clip test and reset of a `drm_clip_rect`.
 */
module TinyDrm {
  import opened Common

  /** A call into the `drm_panel` that a toggle forwards. */
  datatype PanelCall = PanelPrepare | PanelUnprepare | PanelEnable | PanelDisable

  /** Whether the last prepare-or-unprepare call of `calls` was a prepare. */
  function PreparedAfter(calls: seq<PanelCall>): bool
  {
    if calls == [] then false
    else if calls[|calls| - 1] == PanelPrepare then true
    else if calls[|calls| - 1] == PanelUnprepare then false
    else PreparedAfter(calls[..|calls| - 1])
  }

  /** Whether the last enable-or-disable call of `calls` was an enable. */
  function EnabledAfter(calls: seq<PanelCall>): bool
  {
    if calls == [] then false
    else if calls[|calls| - 1] == PanelEnable then true
    else if calls[|calls| - 1] == PanelDisable then false
    else EnabledAfter(calls[..|calls| - 1])
  }

  /**
   * The panel is never prepared while prepared nor unprepared while
   * unprepared, and likewise for enable and disable.
   */
  predicate Alternating(calls: seq<PanelCall>)
  {
    forall i :: 0 <= i < |calls| ==>
      (calls[i] == PanelPrepare ==> !PreparedAfter(calls[..i])) &&
      (calls[i] == PanelUnprepare ==> PreparedAfter(calls[..i])) &&
      (calls[i] == PanelEnable ==> !EnabledAfter(calls[..i])) &&
      (calls[i] == PanelDisable ==> EnabledAfter(calls[..i]))
  }

  /** The number of times `c` occurs in `calls`. */
  function Count(calls: seq<PanelCall>, c: PanelCall): nat
  {
    if calls == [] then 0
    else Count(calls[..|calls| - 1], c) + (if calls[|calls| - 1] == c then 1 else 0)
  }

  /** The calls after one more call: the flags follow its kind and stay otherwise. */
  lemma AfterSnoc(calls: seq<PanelCall>, c: PanelCall)
    ensures PreparedAfter(calls + [c]) ==
      (if c == PanelPrepare then true else if c == PanelUnprepare then false else PreparedAfter(calls))
    ensures EnabledAfter(calls + [c]) ==
      (if c == PanelEnable then true else if c == PanelDisable then false else EnabledAfter(calls))
    ensures forall d :: Count(calls + [c], d) == Count(calls, d) + (if c == d then 1 else 0)
  {
    assert (calls + [c])[..|calls|] == calls;
  }

  /** A call allowed in the state after `calls` keeps the trace alternating. */
  lemma AlternatingSnoc(calls: seq<PanelCall>, c: PanelCall)
    requires Alternating(calls)
    requires c == PanelPrepare ==> !PreparedAfter(calls)
    requires c == PanelUnprepare ==> PreparedAfter(calls)
    requires c == PanelEnable ==> !EnabledAfter(calls)
    requires c == PanelDisable ==> EnabledAfter(calls)
    ensures Alternating(calls + [c])
  {
    var t := calls + [c];
    forall i | 0 <= i < |t|
      ensures (t[i] == PanelPrepare ==> !PreparedAfter(t[..i])) &&
              (t[i] == PanelUnprepare ==> PreparedAfter(t[..i])) &&
              (t[i] == PanelEnable ==> !EnabledAfter(t[..i])) &&
              (t[i] == PanelDisable ==> EnabledAfter(t[..i]))
    {
      if i < |calls| {
        assert t[..i] == calls[..i] && t[i] == calls[i];
      } else {
        assert t[..i] == calls;
      }
    }
  }

  /**
   * In an alternating trace the panel saw exactly one more prepare than
   * unprepare while it is prepared, and as many otherwise; likewise for
   * enable and disable.
   */
  lemma {:induction false} CallsBalance(calls: seq<PanelCall>)
    requires Alternating(calls)
    ensures Count(calls, PanelPrepare) == Count(calls, PanelUnprepare) + (if PreparedAfter(calls) then 1 else 0)
    ensures Count(calls, PanelEnable) == Count(calls, PanelDisable) + (if EnabledAfter(calls) then 1 else 0)
  {
    if calls != [] {
      var init, c := calls[..|calls| - 1], calls[|calls| - 1];
      assert calls == init + [c];
      assert Alternating(init) by {
        forall i | 0 <= i < |init|
          ensures (init[i] == PanelPrepare ==> !PreparedAfter(init[..i])) &&
                  (init[i] == PanelUnprepare ==> PreparedAfter(init[..i])) &&
                  (init[i] == PanelEnable ==> !EnabledAfter(init[..i])) &&
                  (init[i] == PanelDisable ==> EnabledAfter(init[..i]))
        {
          assert init[..i] == calls[..i] && init[i] == calls[i];
        }
      }
      assert calls[..|init|] == init;
      CallsBalance(init);
      AfterSnoc(init, c);
    }
  }

  /** The panel-facing part of `struct tinydrm_device`. */
  class TinyDrmDevice {
    var prepared: bool
    var enabled: bool
    /** The calls made into `tdev->panel`, oldest first. */
    ghost var calls: seq<PanelCall>

    /** The flags are what the panel was last told, and the panel never saw a repeated call. */
    ghost predicate Valid()
      reads this
    {
      prepared == PreparedAfter(calls) && enabled == EnabledAfter(calls) && Alternating(calls)
    }

    /** A zero-filled device: neither prepared nor enabled, the panel not yet called. */
    constructor ()
      ensures Valid() && !prepared && !enabled && calls == []
    {
      prepared, enabled := false, false;
      calls := [];
    }

    /** `tinydrm_prepare`: prepare the panel unless it is prepared already. */
    method Prepare()
      requires Valid()
      modifies this
      ensures Valid() && prepared && enabled == old(enabled)
      ensures calls == old(calls) + (if old(prepared) then [] else [PanelPrepare])
    {
      if !prepared {
        AfterSnoc(calls, PanelPrepare);
        AlternatingSnoc(calls, PanelPrepare);
        calls := calls + [PanelPrepare];
        prepared := true;
      }
    }

    /** `tinydrm_unprepare`: unprepare the panel unless it is unprepared already. */
    method Unprepare()
      requires Valid()
      modifies this
      ensures Valid() && !prepared && enabled == old(enabled)
      ensures calls == old(calls) + (if old(prepared) then [PanelUnprepare] else [])
    {
      if prepared {
        AfterSnoc(calls, PanelUnprepare);
        AlternatingSnoc(calls, PanelUnprepare);
        calls := calls + [PanelUnprepare];
        prepared := false;
      }
    }

    /** `tinydrm_enable`: enable the panel unless it is enabled already. */
    method Enable()
      requires Valid()
      modifies this
      ensures Valid() && enabled && prepared == old(prepared)
      ensures calls == old(calls) + (if old(enabled) then [] else [PanelEnable])
    {
      if !enabled {
        AfterSnoc(calls, PanelEnable);
        AlternatingSnoc(calls, PanelEnable);
        calls := calls + [PanelEnable];
        enabled := true;
      }
    }

    /** `tinydrm_disable`: disable the panel unless it is disabled already. */
    method Disable()
      requires Valid()
      modifies this
      ensures Valid() && !enabled && prepared == old(prepared)
      ensures calls == old(calls) + (if old(enabled) then [PanelDisable] else [])
    {
      if enabled {
        AfterSnoc(calls, PanelDisable);
        AlternatingSnoc(calls, PanelDisable);
        calls := calls + [PanelDisable];
        enabled := false;
      }
    }
  }

  /** A `struct drm_clip_rect` as a value: unsigned 16-bit corners. */
  datatype Rect = Rect(x1: u16, y1: u16, x2: u16, y2: u16)

  /**
   * `tinydrm_is_full_clip`: `x2` and `y2` are compared as unsigned 32-bit
   * values with `width - 1` and `height - 1`, which wrap to 2^32 - 1 for a
   * zero size. The clip is full exactly when it starts at the origin and
   * reaches the last column and row of a non-empty display.
   */
  function IsFullClip(clip: Rect, width: u32, height: u32): (r: bool)
    ensures r <==> clip.x1 == 0 && clip.y1 == 0 &&
                   1 <= width <= clip.x2 + 1 && 1 <= height <= clip.y2 + 1
  {
    clip.x1 == 0 && clip.x2 >= U32(width - 1) && clip.y1 == 0 && clip.y2 >= U32(height - 1)
  }

  /** The clip `tinydrm_reset_clip` leaves: the empty rectangle, corners crossed. */
  const ResetRect: Rect := Rect(0xFFFF, 0xFFFF, 0, 0)

  /** A reset clip is empty and is never a full clip. */
  lemma ResetClipIsEmpty(width: u32, height: u32)
    ensures ResetRect.x1 > ResetRect.x2 && ResetRect.y1 > ResetRect.y2
    ensures !IsFullClip(ResetRect, width, height)
  {
  }

  /** A clip rectangle updated in place. */
  class ClipRect {
    var x1: u16
    var y1: u16
    var x2: u16
    var y2: u16

    /** The rectangle as a value. */
    function Value(): Rect
      reads this
    {
      Rect(x1, y1, x2, y2)
    }

    /** `tinydrm_reset_clip`: x1 and y1 to all ones, x2 and y2 to zero. */
    method Reset()
      modifies this
      ensures Value() == ResetRect
      ensures forall w: u32, h: u32 :: !IsFullClip(Value(), w, h)
    {
      x1 := 0xFFFF;
      x2 := 0;
      y1 := 0xFFFF;
      y2 := 0;
    }
  }
}
