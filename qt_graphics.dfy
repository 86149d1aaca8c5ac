/**
 * The bookkeeping of OpenGLQtGraphicsManager: stretch-mode validation and its
 * cycle, hotkey recognition, mouse clamping into the draw rectangle, and the
 * flags that decide whether a video-mode request really resizes the window.
 * OpenGL itself is not modelled; the members the manager inherits from its
 * base classes (overlay visibility, draw rectangle, screen-change counter,
 * cursor position, the last size handed to handleResize) are plain fields here.
 */
module Graphics {
  import opened Wrappers
  import opened Events
  import opened Window

  const STRETCH_CENTER := 0
  const STRETCH_INTEGRAL := 1
  const STRETCH_FIT := 2
  const STRETCH_STRETCH := 3

  /** OSystem::GraphicsMode: a null name ends a table. */
  datatype GraphicsMode = GraphicsMode(name: Option<string>, description: Option<string>, id: int)

  /** qtGlStretchModes: the four stretch modes followed by the terminating entry. */
  const StretchModes: seq<GraphicsMode> := [
    GraphicsMode(Some("center"), Some("Center"), STRETCH_CENTER),
    GraphicsMode(Some("pixel-perfect"), Some("Pixel-perfect scaling"), STRETCH_INTEGRAL),
    GraphicsMode(Some("fit"), Some("Fit to window"), STRETCH_FIT),
    GraphicsMode(Some("stretch"), Some("Stretch to window"), STRETCH_STRETCH),
    GraphicsMode(None, None, 0)
  ]

  /** A named entry of the table carries this id. */
  predicate IsStretchMode(mode: int) {
    exists i | 0 <= i < |StretchModes| :: StretchModes[i].name.Some? && StretchModes[i].id == mode
  }

  /** The valid ids are exactly STRETCH_CENTER .. STRETCH_STRETCH; the terminator's 0 does not count. */
  lemma StretchModeIds(mode: int)
    ensures IsStretchMode(mode) <==> STRETCH_CENTER <= mode <= STRETCH_STRETCH
  {
    if STRETCH_CENTER <= mode <= STRETCH_STRETCH {
      assert StretchModes[mode].name.Some? && StretchModes[mode].id == mode;
    }
    if IsStretchMode(mode) {
      var i :| 0 <= i < |StretchModes| && StretchModes[i].name.Some? && StretchModes[i].id == mode;
      assert i < 4;
    }
  }

  /** Where a table walk from `from` stops: the first entry with this id, or the terminator. */
  function IndexFrom(mode: int, from: nat): (i: nat)
    requires from < |StretchModes|
    requires forall j | 0 <= j < from :: StretchModes[j].name.Some? && StretchModes[j].id != mode
    ensures from <= i < |StretchModes|
    ensures forall j | 0 <= j < i :: StretchModes[j].name.Some? && StretchModes[j].id != mode
    ensures StretchModes[i].name.None? || StretchModes[i].id == mode
    decreases |StretchModes| - from
  {
    if StretchModes[from].name.None? || StretchModes[from].id == mode then from
    else IndexFrom(mode, from + 1)
  }

  /** The index the walks over qtGlStretchModes stop at. */
  function StretchIndex(mode: int): (i: nat)
    ensures i < |StretchModes|
    ensures StretchModes[i].name.Some? <==> IsStretchMode(mode)
    ensures StretchModes[i].name.Some? ==> StretchModes[i].id == mode
  {
    var i := IndexFrom(mode, 0);
    assert StretchModes[|StretchModes| - 1].name.None?;
    i
  }

  /** The mode after `mode` in the table, wrapping to the first entry at the terminator. */
  function NextStretchMode(mode: int): (next: int)
    requires IsStretchMode(mode)
    ensures IsStretchMode(next) && next != mode
  {
    var i := StretchIndex(mode) + 1;
    StretchModeIds(mode);
    if StretchModes[i].name.None? then
      StretchModes[0].id
    else
      assert StretchModes[i].name.Some?; StretchModes[i].id
  }

  /** The cycle is center, pixel-perfect, fit, stretch and back, so four steps return to the start. */
  lemma StretchCycle(mode: int)
    requires IsStretchMode(mode)
    ensures NextStretchMode(NextStretchMode(NextStretchMode(NextStretchMode(mode)))) == mode
    ensures NextStretchMode(STRETCH_CENTER) == STRETCH_INTEGRAL
    ensures NextStretchMode(STRETCH_INTEGRAL) == STRETCH_FIT
    ensures NextStretchMode(STRETCH_FIT) == STRETCH_STRETCH
    ensures NextStretchMode(STRETCH_STRETCH) == STRETCH_CENTER
  {
    StretchModeIds(STRETCH_CENTER);
    StretchModeIds(STRETCH_INTEGRAL);
    StretchModeIds(STRETCH_FIT);
    StretchModeIds(STRETCH_STRETCH);
    assert StretchIndex(STRETCH_CENTER) == 0;
    assert StretchIndex(STRETCH_INTEGRAL) == 1;
    assert StretchIndex(STRETCH_FIT) == 2;
    assert StretchIndex(STRETCH_STRETCH) == 3;
    StretchModeIds(mode);
  }

  /**
   * The index computation of the Ctrl+Alt+s hotkey: walk to the current mode, step
   * once, and go back to the first entry when that lands on the terminator.
   */
  method CycleIndex(mode: int) returns (index: int)
    requires IsStretchMode(mode)
    ensures 0 <= index < |StretchModes| && StretchModes[index].name.Some?
    ensures StretchModes[index].id == NextStretchMode(mode)
  {
    index := 0;
    while StretchModes[index].name.Some?
      invariant 0 <= index <= StretchIndex(mode)
      invariant forall j | 0 <= j < index :: StretchModes[j].id != mode
      decreases |StretchModes| - index
    {
      if StretchModes[index].id == mode {
        break;
      }
      index := index + 1;
    }
    assert index == StretchIndex(mode);
    index := index + 1;
    if StretchModes[index].name.None? {
      index := 0;
    }
  }

  /** OpenGLQtGraphicsManager::hasFeature: fullscreen, stretch mode and iconify, else the base answer. */
  function HasFeature(f: Feature, base: Feature -> bool): (r: bool)
    ensures f in {kFeatureFullscreenMode, kFeatureStretchMode, kFeatureIconifyWindow} ==> r
    ensures !(f in {kFeatureFullscreenMode, kFeatureStretchMode, kFeatureIconifyWindow}) ==> r == base(f)
  {
    match f
    case kFeatureFullscreenMode => true
    case kFeatureStretchMode => true
    case kFeatureIconifyWindow => true
    case _ => base(f)
  }

  /** The action a hotkey asks for. */
  datatype Hotkey = NoHotkey | ToggleFullScreen | SaveScreenshot | ToggleAspectRatio | ToggleFiltering | CycleStretchMode

  /** isHotkey, with KeyState::hasFlags passed in. */
  function IsHotkey(event: Event, hasFlags: (bv8, bv8) -> bool): (r: bool)
    ensures r ==> event.kbd.keycode in {KEYCODE_RETURN, KEYCODE_Letter('a'), KEYCODE_Letter('f'), KEYCODE_Letter('s')}
    ensures r ==> hasFlags(event.kbd.flags, KBD_ALT) || hasFlags(event.kbd.flags, KBD_CTRL | KBD_ALT)
  {
    if hasFlags(event.kbd.flags, KBD_ALT) then
      event.kbd.keycode == KEYCODE_RETURN || event.kbd.keycode == KEYCODE_Letter('s')
    else if hasFlags(event.kbd.flags, KBD_CTRL | KBD_ALT) then
      event.kbd.keycode in {KEYCODE_Letter('a'), KEYCODE_Letter('f'), KEYCODE_Letter('s')}
    else
      false
  }

  /**
   * The branches notifyEvent takes for a key-down event; it reports the event as
   * handled exactly when isHotkey accepts it.
   */
  function KeyDownHotkey(event: Event, hasFlags: (bv8, bv8) -> bool): (h: Hotkey)
    ensures h != NoHotkey <==> IsHotkey(event, hasFlags)
  {
    if hasFlags(event.kbd.flags, KBD_ALT) then
      if event.kbd.keycode == KEYCODE_RETURN then ToggleFullScreen
      else if event.kbd.keycode == KEYCODE_Letter('s') then SaveScreenshot
      else NoHotkey
    else if hasFlags(event.kbd.flags, KBD_CTRL | KBD_ALT) then
      if event.kbd.keycode == KEYCODE_Letter('a') then ToggleAspectRatio
      else if event.kbd.keycode == KEYCODE_Letter('f') then ToggleFiltering
      else if event.kbd.keycode == KEYCODE_Letter('s') then CycleStretchMode
      else NoHotkey
    else NoHotkey
  }

  /** hasFlags read as "every requested bit is set". */
  const AllBitsSet: (bv8, bv8) -> bool := (flags, f) => HasFlagsAll(flags, f)

  /** hasFlags read as ScummVM's KeyState defines it: the non-sticky flags are exactly the requested ones. */
  const ExactFlags: (bv8, bv8) -> bool := (flags, f) => HasFlagsExact(flags, f)

  /**
   * Under the "every requested bit is set" reading the Alt test also accepts
   * Ctrl+Alt, so the Ctrl+Alt hotkeys can never be chosen.
   */
  lemma CtrlAltDeadUnderAllBits(event: Event)
    ensures KeyDownHotkey(event, AllBitsSet) !in {ToggleAspectRatio, ToggleFiltering, CycleStretchMode}
    ensures IsHotkey(event, AllBitsSet) <==>
              event.kbd.flags & KBD_ALT != 0 && event.kbd.keycode in {KEYCODE_RETURN, KEYCODE_Letter('s')}
  {
    var flags := event.kbd.flags;
    if AllBitsSet(flags, KBD_CTRL | KBD_ALT) {
      assert flags & KBD_ALT == KBD_ALT by {
        assert (KBD_CTRL | KBD_ALT) == flags & (KBD_CTRL | KBD_ALT);
      }
    }
    assert AllBitsSet(flags, KBD_ALT) <==> flags & KBD_ALT != 0;
  }

  /** Under ScummVM's exact reading, Alt alone and Ctrl+Alt are told apart, so every hotkey is reachable. */
  lemma HotkeysUnderExactFlags(event: Event)
    ensures IsHotkey(event, ExactFlags) <==>
              (event.kbd.flags & !KBD_STICKY == KBD_ALT
                 && event.kbd.keycode in {KEYCODE_RETURN, KEYCODE_Letter('s')})
              || (event.kbd.flags & !KBD_STICKY == KBD_CTRL | KBD_ALT
                 && event.kbd.keycode in {KEYCODE_Letter('a'), KEYCODE_Letter('f'), KEYCODE_Letter('s')})
    ensures event.kbd.flags == KBD_CTRL | KBD_ALT && event.kbd.keycode == KEYCODE_Letter('s') ==>
              KeyDownHotkey(event, ExactFlags) == CycleStretchMode
  {
    assert (KBD_CTRL | KBD_ALT) & !KBD_STICKY == KBD_CTRL | KBD_ALT;
  }

  /** p.x (or p.y) brought into [lo, hi], as CLIP<int> does. */
  function Clip(v: int, lo: int, hi: int): (r: int)
    ensures lo <= hi ==> lo <= r <= hi
    ensures lo <= v <= hi ==> r == v
    ensures v < lo ==> r == lo
    ensures lo <= hi && v > hi ==> r == hi
  {
    if v < lo then lo else if v > hi then hi else v
  }

  /** The clamping step of notifyMousePosition, including the store back into int16 coordinates. */
  function ClampIntoRect(p: Point, r: Rect): (q: Point)
    ensures r.Contains(p) ==> q == p
    ensures r.left < r.right ==> r.left <= q.x < r.right && (r.left <= p.x < r.right ==> q.x == p.x)
    ensures r.top < r.bottom ==> r.top <= q.y < r.bottom && (r.top <= p.y < r.bottom ==> q.y == p.y)
    ensures !r.Contains(p) && r.left < r.right ==>
              q.x == if p.x < r.left then r.left else if p.x >= r.right then r.right - 1 else p.x
    ensures !r.Contains(p) && r.top < r.bottom ==>
              q.y == if p.y < r.top then r.top else if p.y >= r.bottom then r.bottom - 1 else p.y
  {
    if r.Contains(p) then p
    else Point(ToInt16(Clip(p.x, r.left, r.right - 1)), ToInt16(Clip(p.y, r.top, r.bottom - 1)))
  }

  /** Clamping into a non-empty rectangle lands inside it, so clamping again changes nothing. */
  lemma ClampIdempotent(p: Point, r: Rect)
    requires r.left < r.right && r.top < r.bottom
    ensures r.Contains(ClampIntoRect(p, r))
    ensures ClampIntoRect(ClampIntoRect(p, r), r) == ClampIntoRect(p, r)
  {
  }

  /** All fields of the manager that its methods update, its own and its base classes'. */
  datatype GfxState = GfxState(
    stretchMode: int, ignoreLoadVideoMode: bool, gotResize: bool, wantsFullScreen: bool,
    lastFlags: bv32, cursorLastInActiveArea: bool, overlayVisible: bool, drawRect: Rect,
    screenChangeID: int, cursorPosition: Point, handledSize: Option<Size>)

  /**
   * notifyResize on the manager's fields: a size that differs from the QWindow's
   * current size is ignored; a matching one sets gotResize and is handed to handleResize.
   */
  function AfterNotifyResize(s: GfxState, width: int, height: int, current: Size): (r: GfxState)
    ensures Size(width, height) != current ==> r == s
    ensures Size(width, height) == current ==> r.gotResize && r.handledSize == Some(current)
    ensures r.stretchMode == s.stretchMode && r.ignoreLoadVideoMode == s.ignoreLoadVideoMode
  {
    if width != current.width || height != current.height then s
    else s.(gotResize := true, handledSize := Some(Size(width, height)))
  }

  /**
   * notifyMousePosition on the manager's fields: the clamped point is recorded as the
   * cursor position, and a point inside the draw rectangle marks the cursor active.
   */
  function MouseNoted(s: GfxState, mouse: Point): (r: GfxState)
    ensures r.cursorPosition == ClampIntoRect(mouse, s.drawRect)
    ensures r.cursorLastInActiveArea <==> s.drawRect.Contains(mouse) || s.cursorLastInActiveArea
    ensures r.(cursorPosition := s.cursorPosition, cursorLastInActiveArea := s.cursorLastInActiveArea) == s
  {
    var active := if s.drawRect.Contains(mouse) then true else s.cursorLastInActiveArea;
    s.(cursorPosition := ClampIntoRect(mouse, s.drawRect), cursorLastInActiveArea := active)
  }

  /** The bookkeeping effect of notifyEvent's hotkey branches; `fullScreenNow` is getFeatureState(fullscreen). */
  function AfterHotkey(s: GfxState, h: Hotkey, fullScreenNow: bool): (r: GfxState)
    requires IsStretchMode(s.stretchMode)
    ensures IsStretchMode(r.stretchMode)
    ensures h == ToggleFullScreen ==> r.wantsFullScreen == !fullScreenNow
    ensures h in {ToggleFiltering, CycleStretchMode} ==> r.ignoreLoadVideoMode
    ensures h == ToggleAspectRatio ==> r.ignoreLoadVideoMode == s.gotResize
    ensures h == CycleStretchMode ==> r.stretchMode == NextStretchMode(s.stretchMode)
    ensures h in {NoHotkey, SaveScreenshot} ==> r == s
  {
    match h
    case ToggleFullScreen => s.(wantsFullScreen := !fullScreenNow)
    case ToggleAspectRatio => s.(ignoreLoadVideoMode := s.gotResize)
    case ToggleFiltering => s.(ignoreLoadVideoMode := true)
    case CycleStretchMode => s.(ignoreLoadVideoMode := true, stretchMode := NextStretchMode(s.stretchMode))
    case _ => s
  }

  /** The flag part of loadVideoMode: a pending "ignore" is consumed, otherwise gotResize is cleared. */
  function LoadVideoModeFlags(s: GfxState): (r: GfxState)
    ensures !r.ignoreLoadVideoMode
    ensures s.ignoreLoadVideoMode ==> r.gotResize == s.gotResize
    ensures !s.ignoreLoadVideoMode ==> !r.gotResize
  {
    if s.ignoreLoadVideoMode then s.(ignoreLoadVideoMode := false) else s.(gotResize := false)
  }

  /**
   * The assertions after the Ctrl+Alt+a and Ctrl+Alt+f transactions hold exactly
   * when the commit ran loadVideoMode: Ctrl+Alt+f always, and Ctrl+Alt+a after a
   * user resize, leave the flag set until it does, and that call skips the setup.
   */
  lemma ToggleAssertionsNeedVideoModeLoad(s: GfxState, h: Hotkey, fullScreenNow: bool)
    requires IsStretchMode(s.stretchMode)
    requires h in {ToggleAspectRatio, ToggleFiltering}
    ensures !LoadVideoModeFlags(AfterHotkey(s, h, fullScreenNow)).ignoreLoadVideoMode
    ensures AfterHotkey(s, h, fullScreenNow).ignoreLoadVideoMode <==> h == ToggleFiltering || s.gotResize
    ensures AfterHotkey(s, h, fullScreenNow).ignoreLoadVideoMode ==>
              LoadVideoModeFlags(AfterHotkey(s, h, fullScreenNow)).gotResize == s.gotResize
  {
  }

  /** The size a requested dimension becomes: multiplied by the scale in uint arithmetic. */
  function ScaledDimension(requested: UInt32, scale: UInt32): (r: UInt32)
    ensures requested * scale < 0x1_0000_0000 ==> r == requested * scale
    ensures r == (requested * scale) % 0x1_0000_0000
  {
    ToUInt32(requested * scale)
  }

  /** createOrUpdateWindow only touches the window without a QWindow, on a flag change or with the overlay up. */
  predicate NeedsWindowUpdate(hasQWindow: bool, lastFlags: bv32, flags: bv32, overlayVisible: bool) {
    !hasQWindow || lastFlags != flags || overlayVisible
  }

  /**
   * Once createOrUpdateWindow has updated the window and recorded its flags, a repeat
   * request with the same flags leaves the window alone unless the overlay is visible,
   * and a request with other flags updates it again.
   */
  lemma WindowUpdateSettles(flags: bv32, other: bv32, overlayVisible: bool)
    requires other != flags
    ensures NeedsWindowUpdate(true, flags, flags, overlayVisible) <==> overlayVisible
    ensures NeedsWindowUpdate(true, flags, other, overlayVisible)
    ensures NeedsWindowUpdate(false, flags, flags, overlayVisible)
  {
  }

  class QtGraphicsManager {
    const window: QtWindow?
    const graphicsScale: UInt32
    const desiredFullscreenWidth: UInt32
    const desiredFullscreenHeight: UInt32
    /** convertWindowToVirtual, which belongs to the base class. */
    const windowToVirtual: Point -> Point

    var stretchMode: int
    var ignoreLoadVideoMode: bool
    var gotResize: bool
    var wantsFullScreen: bool
    var lastFlags: bv32
    // Members of the base classes.
    var cursorLastInActiveArea: bool
    var overlayVisible: bool
    var drawRect: Rect
    var screenChangeID: int
    var cursorPosition: Point
    var handledSize: Option<Size>

    function State(): GfxState
      reads this
    {
      GfxState(stretchMode, ignoreLoadVideoMode, gotResize, wantsFullScreen, lastFlags,
               cursorLastInActiveArea, overlayVisible, drawRect, screenChangeID, cursorPosition, handledSize)
    }

    predicate Valid()
      reads this, window
    {
      IsStretchMode(stretchMode) && (window != null ==> window.Valid())
    }

    /** The window exists and has a QWindow, which notifyResize dereferences unchecked. */
    predicate HasQWindow()
      reads this, window
    {
      window != null && window.qwindow.Some?
    }

    constructor(desktopWidth: UInt32, desktopHeight: UInt32, window: QtWindow?,
                windowToVirtual: Point -> Point, drawRect: Rect, screenChangeID: int,
                cursorLastInActiveArea: bool)
      requires window != null ==> window.Valid()
      ensures Valid()
      ensures this.window == window && this.windowToVirtual == windowToVirtual
      ensures graphicsScale == 2
      ensures desiredFullscreenWidth == desktopWidth && desiredFullscreenHeight == desktopHeight
      ensures State() == GfxState(STRETCH_FIT, false, false, false, 0, cursorLastInActiveArea, false,
                                  drawRect, screenChangeID, Point(0, 0), None)
    {
      this.window := window;
      this.windowToVirtual := windowToVirtual;
      graphicsScale := 2;
      desiredFullscreenWidth := desktopWidth;
      desiredFullscreenHeight := desktopHeight;
      stretchMode := STRETCH_FIT;
      ignoreLoadVideoMode := false;
      gotResize := false;
      wantsFullScreen := false;
      lastFlags := 0;
      this.cursorLastInActiveArea := cursorLastInActiveArea;
      overlayVisible := false;
      this.drawRect := drawRect;
      this.screenChangeID := screenChangeID;
      cursorPosition := Point(0, 0);
      handledSize := None;
      new;
      StretchModeIds(STRETCH_FIT);
    }

    /** getFeatureState(kFeatureFullscreenMode): the QWindow's state if there is one, else the wish. */
    function FullScreenState(): bool
      reads this, window
    {
      if window != null && window.qwindow.Some? then window.qwindow.value.mode == FullScreen
      else wantsFullScreen
    }

    /** getFeatureState: fullscreen as above, everything else answered by the base class. */
    function FeatureState(f: Feature, base: Feature -> bool): (r: bool)
      reads this, window
      ensures f == kFeatureFullscreenMode && HasQWindow() ==> (r <==> window.qwindow.value.mode == FullScreen)
      ensures f == kFeatureFullscreenMode && !HasQWindow() ==> r == wantsFullScreen
      ensures f != kFeatureFullscreenMode ==> r == base(f)
    {
      if f == kFeatureFullscreenMode then FullScreenState() else base(f)
    }

    /**
     * setFeatureState: fullscreen records the wish, iconify (when enabled) minimises
     * the window; other features belong to the base class and are not modelled.
     */
    method SetFeatureState(f: Feature, enable: bool)
      requires Valid()
      requires f == kFeatureIconifyWindow && enable ==> window != null
      modifies this, window
      ensures Valid()
      ensures State() == if f == kFeatureFullscreenMode then old(State()).(wantsFullScreen := enable) else old(State())
      ensures window != null ==>
                window.State() == if f == kFeatureIconifyWindow && enable then Iconified(old(window.State()))
                                  else old(window.State())
    {
      if f == kFeatureFullscreenMode {
        wantsFullScreen := enable;
      } else if f == kFeatureIconifyWindow {
        if enable {
          window.IconifyWindow();
        }
      }
    }

    /** setStretchMode: the current mode is accepted as is, an id outside the table is refused. */
    method SetStretchMode(mode: int) returns (ok: bool)
      requires Valid()
      modifies this
      ensures Valid()
      ensures ok <==> mode == old(stretchMode) || IsStretchMode(mode)
      ensures State() == if ok then old(State()).(stretchMode := mode) else old(State())
    {
      if mode == stretchMode {
        return true;
      }
      var index := 0;
      var found := false;
      while StretchModes[index].name.Some?
        invariant 0 <= index <= StretchIndex(mode)
        invariant forall j | 0 <= j < index :: StretchModes[j].id != mode
        invariant !found
        decreases |StretchModes| - index
      {
        if StretchModes[index].id == mode {
          found := true;
          break;
        }
        index := index + 1;
      }
      assert found ==> index == StretchIndex(mode);
      if !found {
        assert index == StretchIndex(mode);
        return false;
      }
      stretchMode := mode;
      return true;
    }

    /**
     * notifyEvent: key-up events report whether they are hotkeys; key-down hotkeys
     * perform their bookkeeping and report true; everything else reports false.
     * The transactions' commit, the screenshot file and the OSD messages are not modelled.
     */
    method NotifyEvent(event: Event, hasFlags: (bv8, bv8) -> bool) returns (handled: bool, hotkey: Hotkey)
      requires Valid()
      modifies this
      ensures Valid()
      ensures handled <==> (event.kind == EVENT_KEYUP || event.kind == EVENT_KEYDOWN) && IsHotkey(event, hasFlags)
      ensures hotkey == if event.kind == EVENT_KEYDOWN then KeyDownHotkey(event, hasFlags) else NoHotkey
      ensures State() == AfterHotkey(old(State()), hotkey, old(FullScreenState()))
    {
      if event.kind == EVENT_KEYUP {
        return IsHotkey(event, hasFlags), NoHotkey;
      }
      if event.kind != EVENT_KEYDOWN {
        return false, NoHotkey;
      }
      hotkey := HandleKeyDown(event, hasFlags);
      handled := hotkey != NoHotkey;
    }

    /** The key-down branches of notifyEvent. */
    method HandleKeyDown(event: Event, hasFlags: (bv8, bv8) -> bool) returns (hotkey: Hotkey)
      requires Valid()
      modifies this
      ensures Valid()
      ensures hotkey == KeyDownHotkey(event, hasFlags)
      ensures State() == AfterHotkey(old(State()), hotkey, old(FullScreenState()))
    {
      if hasFlags(event.kbd.flags, KBD_ALT) {
        if event.kbd.keycode == KEYCODE_RETURN {
          wantsFullScreen := !FullScreenState();
          return ToggleFullScreen;
        }
        if event.kbd.keycode == KEYCODE_Letter('s') {
          return SaveScreenshot;
        }
      } else if hasFlags(event.kbd.flags, KBD_CTRL | KBD_ALT) {
        hotkey := HandleCtrlAlt(event.kbd.keycode);
        return;
      }
      return NoHotkey;
    }

    /** The Ctrl+Alt branches of notifyEvent. */
    method HandleCtrlAlt(key: KeyCode) returns (hotkey: Hotkey)
      requires Valid()
      modifies this
      ensures Valid()
      ensures hotkey == if key == KEYCODE_Letter('a') then ToggleAspectRatio
                        else if key == KEYCODE_Letter('f') then ToggleFiltering
                        else if key == KEYCODE_Letter('s') then CycleStretchMode
                        else NoHotkey
      ensures State() == AfterHotkey(old(State()), hotkey, false)
    {
      if key == KEYCODE_Letter('a') {
        ignoreLoadVideoMode := gotResize;
        return ToggleAspectRatio;
      } else if key == KEYCODE_Letter('f') {
        ignoreLoadVideoMode := true;
        return ToggleFiltering;
      } else if key == KEYCODE_Letter('s') {
        ignoreLoadVideoMode := true;
        var index := CycleIndex(stretchMode);
        var _ := SetStretchMode(StretchModes[index].id);
        return CycleStretchMode;
      }
      return NoHotkey;
    }

    /** notifyResize: a size other than the QWindow's is ignored; a matching one is handled. */
    method NotifyResize(width: Int32, height: Int32)
      requires Valid() && HasQWindow()
      modifies this
      ensures Valid()
      ensures State() == AfterNotifyResize(old(State()), width, height, window.qwindow.value.size)
    {
      var size := window.qwindow.value.size;
      if width != size.width || height != size.height {
        return;
      }
      gotResize := true;
      handledSize := Some(Size(width, height));
    }

    /**
     * notifyMousePosition: a point outside the draw rectangle is clamped into it; the
     * base class records the position and converts it to game coordinates. It always
     * reports the position as valid.
     */
    method NotifyMousePosition(mouse: Point) returns (valid: bool, converted: Point)
      requires Valid()
      modifies this
      ensures Valid() && valid
      ensures converted == windowToVirtual(ClampIntoRect(mouse, old(drawRect)))
      ensures State() == MouseNoted(old(State()), mouse)
    {
      valid := true;
      var m := mouse;
      if drawRect.Contains(m) {
        cursorLastInActiveArea := true;
      } else {
        m := Point(ToInt16(Clip(m.x, drawRect.left, drawRect.right - 1)), m.y);
        m := Point(m.x, ToInt16(Clip(m.y, drawRect.top, drawRect.bottom - 1)));
      }
      if valid {
        cursorPosition := m;
        converted := windowToVirtual(m);
      }
    }

    /**
     * createOrUpdateWindow: fails without a window; otherwise updates the window only
     * when needed and records the flags after a successful update.
     */
    method CreateOrUpdateWindow(width: Int32, height: Int32, flags: bv32, screen: Screen) returns (ok: bool)
      requires Valid()
      modifies this, window
      ensures Valid()
      ensures ok <==> window != null
      ensures var update := window != null &&
                NeedsWindowUpdate(old(window.qwindow).Some?, old(lastFlags), flags, overlayVisible);
              && State() == (if update then old(State()).(lastFlags := flags) else old(State()))
              && (window != null ==>
                    window.State() == if update then CreatedOrUpdated(old(window.State()), width, height, flags, screen)
                                      else old(window.State()))
    {
      if window == null {
        return false;
      }
      if window.qwindow.None? || lastFlags != flags || overlayVisible {
        var created := window.CreateOrUpdateWindow(width, height, flags, screen);
        if !created {
          return false;
        }
        lastFlags := flags;
      }
      return true;
    }

    /**
     * The window part of setupMode: the desktop size and the fullscreen flag when
     * fullscreen is wanted, then createOrUpdateWindow. `contextOk` stands for the
     * OpenGL context steps; after them the base class is told the QWindow's size.
     */
    method SetupModeWindow(width: UInt32, height: UInt32, screen: Screen, contextOk: bool) returns (ok: bool)
      requires Valid()
      modifies this, window
      ensures Valid()
      ensures ok <==> window != null && contextOk
      ensures window != null ==>
                var flags := if old(wantsFullScreen) then WindowFullScreen else 0;
                var w := if old(wantsFullScreen) then desiredFullscreenWidth else width;
                var h := if old(wantsFullScreen) then desiredFullscreenHeight else height;
                var update := NeedsWindowUpdate(old(window.qwindow).Some?, old(lastFlags), flags, overlayVisible);
                && window.State() == (if update then CreatedOrUpdated(old(window.State()), ToInt32(w), ToInt32(h), flags, screen)
                                      else old(window.State()))
                && State() == old(State()).(lastFlags := if update then flags else old(lastFlags),
                                            handledSize := if contextOk then Some(window.qwindow.value.size)
                                                           else old(handledSize))
      ensures window == null ==> State() == old(State())
    {
      var w, h := width, height;
      var flags: bv32 := 0;
      if wantsFullScreen {
        w := desiredFullscreenWidth;
        h := desiredFullscreenHeight;
        flags := flags | WindowFullScreen;
      }
      var created := CreateOrUpdateWindow(ToInt32(w), ToInt32(h), flags, screen);
      if !created {
        return false;
      }
      if !contextOk {
        return false;
      }
      handledSize := Some(window.qwindow.value.size);
      return true;
    }

    /**
     * loadVideoMode: a pending "ignore" is consumed without touching the window;
     * otherwise gotResize is cleared and the scaled size is set up.
     */
    method LoadVideoMode(requestedWidth: UInt32, requestedHeight: UInt32, screen: Screen, contextOk: bool)
      returns (ok: bool)
      requires Valid()
      modifies this, window
      ensures Valid()
      ensures old(ignoreLoadVideoMode) ==> ok && State() == LoadVideoModeFlags(old(State()))
      ensures old(ignoreLoadVideoMode) && window != null ==> window.State() == old(window.State())
      ensures !old(ignoreLoadVideoMode) ==> (ok <==> window != null && contextOk)
      ensures !ignoreLoadVideoMode && (!old(ignoreLoadVideoMode) ==> !gotResize)
      ensures stretchMode == old(stretchMode) && wantsFullScreen == old(wantsFullScreen)
      ensures !old(ignoreLoadVideoMode) && window != null ==>
                var flags := if old(wantsFullScreen) then WindowFullScreen else 0;
                var w := if old(wantsFullScreen) then desiredFullscreenWidth
                         else ScaledDimension(requestedWidth, graphicsScale);
                var h := if old(wantsFullScreen) then desiredFullscreenHeight
                         else ScaledDimension(requestedHeight, graphicsScale);
                var update := NeedsWindowUpdate(old(window.qwindow).Some?, old(lastFlags), flags, overlayVisible);
                && window.State() == (if update then CreatedOrUpdated(old(window.State()), ToInt32(w), ToInt32(h), flags, screen)
                                      else old(window.State()))
                && State() == old(State()).(gotResize := false,
                                            lastFlags := if update then flags else old(lastFlags),
                                            handledSize := if contextOk then Some(window.qwindow.value.size)
                                                           else old(handledSize))
      ensures !old(ignoreLoadVideoMode) && window == null ==> State() == old(State()).(gotResize := false)
    {
      if ignoreLoadVideoMode {
        ignoreLoadVideoMode := false;
        return true;
      }
      gotResize := false;
      var w := ScaledDimension(requestedWidth, graphicsScale);
      var h := ScaledDimension(requestedHeight, graphicsScale);
      ok := SetupModeWindow(w, h, screen, contextOk);
    }
  }
}
