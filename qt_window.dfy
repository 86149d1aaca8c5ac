/**
 * QtWindow: the wrapper around the single QWindow the backend shows. The
 * QWindow itself is a Qt object; the model keeps, as a value, the attributes
 * the wrapper sets on it (geometry, window state, title, grabs).
 */
module Window {
  import opened Wrappers
  import opened Events

  /** Qt::WindowFullScreen, the only window flag the backend passes. */
  const WindowFullScreen: bv32 := 0x0000_0004

  /** Qt::WindowState as far as the wrapper sets it. */
  datatype WindowMode = Normal | FullScreen | Minimized

  /** The attributes of a QWindow the wrapper sets; `title` is None until setTitle is called. */
  datatype QWindowState = QWindowState(size: Size, mode: WindowMode, title: Option<string>,
                                       mouseGrab: bool, keyboardGrab: bool)

  /** QGuiApplication::primaryScreen(): its full size and its size without task bars and docks. */
  datatype Screen = Screen(size: Size, availableSize: Size)

  /** All fields of a QtWindow. */
  datatype WindowState = WindowState(qwindow: Option<QWindowState>, inputGrabState: bool,
                                     caption: string, lastFlags: bv32)

  /** The constructor's state: no QWindow, no grab, caption "ScummVM", no flags. */
  const InitialWindow := WindowState(None, false, "ScummVM", 0)

  /**
   * The wrapper's invariant: the input grab is only ever on while a QWindow
   * exists, so createOrUpdateWindow can re-apply it without a null check.
   */
  predicate GrabNeedsWindow(s: WindowState) {
    s.inputGrabState ==> s.qwindow.Some?
  }

  /** setWindowCaption: the caption is always stored, and set as title only on an existing QWindow. */
  function WithCaption(s: WindowState, caption: string): (r: WindowState)
    ensures r.caption == caption
    ensures r.qwindow.Some? <==> s.qwindow.Some?
    ensures r.qwindow.Some? ==> r.qwindow.value == s.qwindow.value.(title := Some(caption))
    ensures r.inputGrabState == s.inputGrabState && r.lastFlags == s.lastFlags
  {
    match s.qwindow
    case None => s.(caption := caption)
    case Some(w) => s.(caption := caption, qwindow := Some(w.(title := Some(caption))))
  }

  /** toggleMouseGrab: nothing without a QWindow; otherwise the grab flips and is applied. */
  function ToggledGrab(s: WindowState): (r: WindowState)
    ensures s.qwindow.None? ==> r == s
    ensures s.qwindow.Some? ==> r.inputGrabState == !s.inputGrabState
    ensures s.qwindow.Some? ==> r.qwindow == Some(s.qwindow.value.(mouseGrab := r.inputGrabState))
    ensures r.caption == s.caption && r.lastFlags == s.lastFlags
  {
    match s.qwindow
    case None => s
    case Some(w) => s.(inputGrabState := !s.inputGrabState, qwindow := Some(w.(mouseGrab := !s.inputGrabState)))
  }

  /** Two toggles restore the grab state and leave the QWindow's grab equal to it. */
  lemma ToggleTwice(s: WindowState)
    ensures ToggledGrab(ToggledGrab(s)).inputGrabState == s.inputGrabState
    ensures s.qwindow.Some? ==>
              ToggledGrab(ToggledGrab(s)).qwindow == Some(s.qwindow.value.(mouseGrab := s.inputGrabState))
    ensures s.qwindow.None? ==> ToggledGrab(ToggledGrab(s)) == s
  {
    if s.qwindow.Some? {
      var once := ToggledGrab(s);
      assert once.qwindow.Some?;
      assert ToggledGrab(once).inputGrabState == !once.inputGrabState == s.inputGrabState;
    }
  }

  /** iconifyWindow: on an existing QWindow, release the mouse grab and minimise. */
  function Iconified(s: WindowState): (r: WindowState)
    ensures s.qwindow.None? ==> r == s
    ensures s.qwindow.Some? ==> r.qwindow == Some(s.qwindow.value.(mouseGrab := false, mode := Minimized))
    ensures r.inputGrabState == s.inputGrabState && r.caption == s.caption && r.lastFlags == s.lastFlags
  {
    match s.qwindow
    case None => s
    case Some(w) => s.(qwindow := Some(w.(mouseGrab := false, mode := Minimized)))
  }

  /** The smaller of a requested extent and the screen's. */
  function CapAt(requested: int, limit: int): (r: int)
    ensures r <= requested && r <= limit
    ensures r == requested || r == limit
  {
    if requested > limit then limit else requested
  }

  /** The screen size the window is capped at: the full size when fullscreen, else the available size. */
  function ScreenBound(flags: bv32, screen: Screen): (b: Size)
    ensures flags & WindowFullScreen != 0 ==> b == screen.size
    ensures flags & WindowFullScreen == 0 ==> b == screen.availableSize
  {
    if flags & WindowFullScreen != 0 then screen.size else screen.availableSize
  }

  /**
   * createOrUpdateWindow on the wrapper's state: re-apply an active grab, cap the size
   * at the screen, then either create and show a new QWindow or update the existing
   * one; the flags are recorded when a QWindow exists afterwards.
   */
  function CreatedOrUpdated(s: WindowState, width: int, height: int, flags: bv32, screen: Screen): (r: WindowState)
    requires GrabNeedsWindow(s)
    ensures r.qwindow.Some? && r.lastFlags == flags
    ensures r.inputGrabState == s.inputGrabState && r.caption == s.caption
    ensures r.qwindow.value.mode == FullScreen <==> flags & WindowFullScreen != 0
  {
    var grabbed := if s.inputGrabState then Some(s.qwindow.value.(mouseGrab := true)) else s.qwindow;
    var bound := ScreenBound(flags, screen);
    var w := CapAt(width, bound.width);
    var h := CapAt(height, bound.height);
    var full := flags & WindowFullScreen != 0;
    var next :=
      match grabbed
      case None =>
        QWindowState(Size(w, h), if full then FullScreen else Normal, None, false, false)
      case Some(q) =>
        if full then q.(mode := FullScreen, keyboardGrab := true, mouseGrab := true)
        else q.(size := Size(w, h), mode := Normal, keyboardGrab := false, mouseGrab := false);
    s.(qwindow := Some(next), lastFlags := flags)
  }

  /**
   * A new QWindow gets the capped size; an existing one is updated in place (never
   * recreated): resized to the capped size when windowed, left at its size and
   * grabbed when fullscreen, keeping its title either way.
   */
  lemma CreateOrUpdateGeometry(s: WindowState, width: int, height: int, flags: bv32, screen: Screen)
    requires GrabNeedsWindow(s)
    ensures var r := CreatedOrUpdated(s, width, height, flags, screen);
            var bound := ScreenBound(flags, screen);
            && (s.qwindow.None? ==>
                  r.qwindow.value.size == Size(CapAt(width, bound.width), CapAt(height, bound.height)) &&
                  r.qwindow.value.title.None?)
            && (s.qwindow.Some? ==> r.qwindow.value.title == s.qwindow.value.title)
            && (s.qwindow.Some? && flags & WindowFullScreen == 0 ==>
                  r.qwindow.value == s.qwindow.value.(size := Size(CapAt(width, bound.width), CapAt(height, bound.height)),
                                                      mode := Normal, keyboardGrab := false, mouseGrab := false))
            && (s.qwindow.Some? && flags & WindowFullScreen != 0 ==>
                  r.qwindow.value == s.qwindow.value.(mode := FullScreen, keyboardGrab := true, mouseGrab := true))
            && ((s.qwindow.None? || flags & WindowFullScreen == 0) ==>
                  r.qwindow.value.size.width <= bound.width && r.qwindow.value.size.height <= bound.height)
  {
  }

  /** Every transition of the wrapper keeps the grab invariant. */
  lemma TransitionsKeepGrabInvariant(s: WindowState, caption: string, width: int, height: int,
                                     flags: bv32, screen: Screen)
    requires GrabNeedsWindow(s)
    ensures GrabNeedsWindow(WithCaption(s, caption))
    ensures GrabNeedsWindow(ToggledGrab(s))
    ensures GrabNeedsWindow(Iconified(s))
    ensures GrabNeedsWindow(CreatedOrUpdated(s, width, height, flags, screen))
    ensures GrabNeedsWindow(InitialWindow)
  {
  }

  /** The window wrapper, with the fields the backend updates in place. */
  class QtWindow {
    var qwindow: Option<QWindowState>
    var inputGrabState: bool
    var caption: string
    var lastFlags: bv32

    function State(): WindowState
      reads this
    {
      WindowState(qwindow, inputGrabState, caption, lastFlags)
    }

    predicate Valid()
      reads this
    {
      GrabNeedsWindow(State())
    }

    constructor()
      ensures Valid() && State() == InitialWindow
    {
      qwindow := None;
      inputGrabState := false;
      caption := "ScummVM";
      lastFlags := 0;
    }

    method SetWindowCaption(newCaption: string)
      requires Valid()
      modifies this
      ensures Valid() && State() == WithCaption(old(State()), newCaption)
    {
      caption := newCaption;
      if qwindow.Some? {
        qwindow := Some(qwindow.value.(title := Some(newCaption)));
      }
    }

    method ToggleMouseGrab()
      requires Valid()
      modifies this
      ensures Valid() && State() == ToggledGrab(old(State()))
    {
      if qwindow.Some? {
        inputGrabState := !inputGrabState;
        qwindow := Some(qwindow.value.(mouseGrab := inputGrabState));
      }
    }

    method IconifyWindow()
      requires Valid()
      modifies this
      ensures Valid() && State() == Iconified(old(State()))
    {
      if qwindow.Some? {
        qwindow := Some(qwindow.value.(mouseGrab := false));
        qwindow := Some(qwindow.value.(mode := Minimized));
      }
    }

    /** Allocating the QWindow cannot yield null, so the call always succeeds. */
    method CreateOrUpdateWindow(width: int, height: int, flags: bv32, screen: Screen) returns (ok: bool)
      requires Valid()
      modifies this
      ensures Valid() && State() == CreatedOrUpdated(old(State()), width, height, flags, screen)
      ensures ok == qwindow.Some? && ok
    {
      if inputGrabState {
        // The invariant is what makes this dereference safe.
        qwindow := Some(qwindow.value.(mouseGrab := true));
      }
      var screenSize := if flags & WindowFullScreen != 0 then screen.size else screen.availableSize;
      var w, h := width, height;
      if w > screenSize.width {
        w := screenSize.width;
      }
      if h > screenSize.height {
        h := screenSize.height;
      }
      if qwindow.None? {
        var created := QWindowState(Size(w, h), Normal, None, false, false);
        if flags & WindowFullScreen != 0 {
          created := created.(mode := FullScreen);
        }
        qwindow := Some(created);
      } else if flags & WindowFullScreen != 0 {
        qwindow := Some(qwindow.value.(mode := FullScreen, keyboardGrab := true, mouseGrab := true));
      } else {
        qwindow := Some(qwindow.value.(size := Size(w, h), mode := Normal, keyboardGrab := false, mouseGrab := false));
      }
      if qwindow.None? {
        return false;
      }
      lastFlags := flags;
      return true;
    }
  }
}
