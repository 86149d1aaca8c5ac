/**
 * The engine's portable event record (Common::Event) and the small value
 * types it is built from, as far as the Qt backend fills them in.
 */
module Events {

  /** A C++ int16 (the coordinates of Common::Point and Common::Rect). */
  type Int16 = x: int | -0x8000 <= x < 0x8000

  /** A C++ uint16 (Common::KeyState::ascii, a UTF-16 code unit). */
  type UInt16 = x: int | 0 <= x < 0x1_0000

  /** A C++ uint32 (also the `uint` fields of the backend). */
  type UInt32 = x: int | 0 <= x < 0x1_0000_0000

  /** A C++ int (32 bits on every platform the backend targets). */
  type Int32 = x: int | -0x8000_0000 <= x < 0x8000_0000

  /** The conversion int -> unsigned int: the value modulo 2^32. */
  function ToUInt32(v: int): (r: UInt32)
    ensures (r - v) % 0x1_0000_0000 == 0
    ensures 0 <= v < 0x1_0000_0000 ==> r == v
  {
    v % 0x1_0000_0000
  }

  /** The conversion unsigned int -> int: the low 32 bits read as two's complement. */
  function ToInt32(v: int): (r: Int32)
    ensures (r - v) % 0x1_0000_0000 == 0
    ensures -0x8000_0000 <= v < 0x8000_0000 ==> r == v
  {
    var m := v % 0x1_0000_0000;
    if m < 0x8000_0000 then m else m - 0x1_0000_0000
  }

  /** Storing an int in an unsigned field and reading it back as an int gives the int back. */
  lemma Int32RoundTrip(v: Int32)
    ensures ToInt32(ToUInt32(v)) == v
  {
  }

  /** The narrowing conversion int -> int16: keeps the low 16 bits, read as two's complement. */
  function ToInt16(v: int): (r: Int16)
    ensures (r - v) % 0x1_0000 == 0
    ensures -0x8000 <= v < 0x8000 ==> r == v
  {
    var m := v % 0x1_0000;
    if m < 0x8000 then m else m - 0x1_0000
  }

  datatype Point = Point(x: Int16, y: Int16)

  /** A width/height pair (QSize, or the pending resize of the event source). */
  datatype Size = Size(width: int, height: int)

  /** Common::Rect: left/top inclusive, right/bottom exclusive. */
  datatype Rect = Rect(left: Int16, top: Int16, right: Int16, bottom: Int16) {
    predicate Contains(p: Point) {
      left <= p.x < right && top <= p.y < bottom
    }
  }

  /** The event types the Qt backend produces, plus the default EVENT_INVALID. */
  datatype EventType =
    | EVENT_INVALID
    | EVENT_KEYDOWN | EVENT_KEYUP
    | EVENT_MOUSEMOVE
    | EVENT_LBUTTONDOWN | EVENT_LBUTTONUP
    | EVENT_RBUTTONDOWN | EVENT_RBUTTONUP
    | EVENT_MBUTTONDOWN | EVENT_MBUTTONUP
    | EVENT_WHEELUP | EVENT_WHEELDOWN
    | EVENT_QUIT
    | EVENT_SCREEN_CHANGED

  type LowerLetter = c: char | 'a' <= c <= 'z' witness 'a'
  type Digit = d: int | 0 <= d <= 9
  type EngineFKey = n: int | 1 <= n <= 15 witness 1

  /**
   * The portable key codes that the Qt key table can produce. The letters
   * KEYCODE_a .. KEYCODE_z, the digits KEYCODE_0 .. KEYCODE_9 and the function keys
   * KEYCODE_F1 .. KEYCODE_F15 are each folded into one constructor.
   */
  datatype KeyCode =
    | KEYCODE_INVALID
    | KEYCODE_BACKSPACE | KEYCODE_TAB | KEYCODE_CLEAR | KEYCODE_RETURN | KEYCODE_PAUSE
    | KEYCODE_ESCAPE | KEYCODE_SPACE | KEYCODE_EXCLAIM | KEYCODE_QUOTEDBL | KEYCODE_HASH
    | KEYCODE_DOLLAR | KEYCODE_AMPERSAND | KEYCODE_QUOTE | KEYCODE_LEFTPAREN | KEYCODE_RIGHTPAREN
    | KEYCODE_ASTERISK | KEYCODE_PLUS | KEYCODE_COMMA | KEYCODE_MINUS | KEYCODE_PERIOD
    | KEYCODE_SLASH
    | KEYCODE_Digit(digit: Digit)
    | KEYCODE_COLON | KEYCODE_SEMICOLON | KEYCODE_LESS | KEYCODE_EQUALS | KEYCODE_GREATER
    | KEYCODE_QUESTION | KEYCODE_AT | KEYCODE_LEFTBRACKET | KEYCODE_BACKSLASH
    | KEYCODE_RIGHTBRACKET | KEYCODE_CARET | KEYCODE_UNDERSCORE | KEYCODE_BACKQUOTE
    | KEYCODE_Letter(letter: LowerLetter)
    | KEYCODE_DELETE | KEYCODE_TILDE
    | KEYCODE_UP | KEYCODE_DOWN | KEYCODE_RIGHT | KEYCODE_LEFT
    | KEYCODE_INSERT | KEYCODE_HOME | KEYCODE_END | KEYCODE_PAGEUP | KEYCODE_PAGEDOWN
    | KEYCODE_F(fn: EngineFKey)
    | KEYCODE_NUMLOCK | KEYCODE_CAPSLOCK | KEYCODE_SCROLLOCK
    | KEYCODE_RSHIFT | KEYCODE_RCTRL | KEYCODE_RALT | KEYCODE_LSUPER | KEYCODE_RSUPER
    | KEYCODE_MODE | KEYCODE_HELP | KEYCODE_PRINT | KEYCODE_SYSREQ | KEYCODE_MENU
    | KEYCODE_POWER | KEYCODE_UNDO

  /** The OSystem::Feature values the backend answers for; everything else is OtherFeature. */
  datatype Feature =
    | kFeatureFullscreenMode | kFeatureAspectRatioCorrection | kFeatureFilteringMode
    | kFeatureStretchMode | kFeatureIconifyWindow
    | kFeatureClipboardSupport | kFeatureKbdMouseSpeed | kFeatureOpenUrl
    | OtherFeature(code: int)

  /** Modifier bits of Common::KeyState::flags. */
  const KBD_CTRL: bv8 := 0x01
  const KBD_ALT: bv8 := 0x02
  const KBD_SHIFT: bv8 := 0x04
  const KBD_META: bv8 := 0x08
  /** Num/Caps/Scroll lock, the "sticky" flags. */
  const KBD_STICKY: bv8 := 0x70

  datatype KeyState = KeyState(keycode: KeyCode, ascii: UInt16, flags: bv8)

  datatype Event = Event(kind: EventType, kbd: KeyState, mouse: Point, kbdRepeat: bool)

  /** A default-constructed Common::Event. */
  const DefaultEvent := Event(EVENT_INVALID, KeyState(KEYCODE_INVALID, 0, 0), Point(0, 0), false)

  /**
   * Common::KeyState::hasFlags as ScummVM defines it: the non-sticky flags are exactly `f`.
   * It is not part of the files modelled here; the graphics manager takes hasFlags as a
   * parameter and this is one of the two readings the model proves things about.
   */
  predicate HasFlagsExact(flags: bv8, f: bv8) {
    f == flags & !KBD_STICKY
  }

  /** The other reading of hasFlags: every requested bit is set. */
  predicate HasFlagsAll(flags: bv8, f: bv8) {
    f == flags & f
  }
}
