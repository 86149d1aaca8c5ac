/**
 * The translation rules of the Qt event filter (QtEventHandler): which Qt events
 * it consumes, how a Qt key and its modifiers become a portable key, and which
 * engine event (if any) each Qt event becomes. The handler object that pushes
 * these events onto the shared queue is in module EventSource.
 */
module EventFilter {
  import opened Wrappers
  import opened Events

  type UpperLetter = c: char | 'A' <= c <= 'Z' witness 'A'
  type QtFKey = n: int | 1 <= n <= 35 witness 1

  /**
   * Qt::Key, one constructor per key the translation table names. Key_A .. Key_Z,
   * Key_0 .. Key_9 and Key_F1 .. Key_F35 are folded into one constructor each;
   * Key_Other stands for every Qt key the table does not name.
   */
  datatype QtKey =
    | Key_Backspace | Key_Tab | Key_Clear | Key_Return | Key_Pause | Key_Escape | Key_Space
    | Key_Exclam | Key_QuoteDbl | Key_NumberSign | Key_Dollar | Key_Ampersand | Key_Apostrophe
    | Key_ParenLeft | Key_ParenRight | Key_Asterisk | Key_Plus | Key_Comma | Key_Minus
    | Key_Period | Key_Slash
    | Key_Digit(digit: Digit)
    | Key_Colon | Key_Semicolon | Key_Less | Key_Equal | Key_Greater | Key_Question | Key_At
    | Key_BracketLeft | Key_Backslash | Key_BracketRight | Key_AsciiCircum | Key_Underscore
    | Key_QuoteLeft
    | Key_Letter(letter: UpperLetter)
    | Key_Delete | Key_AsciiTilde
    | Key_Up | Key_Down | Key_Right | Key_Left
    | Key_Insert | Key_Home | Key_End | Key_PageUp | Key_PageDown
    | Key_F(fn: QtFKey)
    | Key_NumLock | Key_CapsLock | Key_ScrollLock
    | Key_Shift | Key_Control | Key_Alt | Key_Super_L | Key_Super_R
    | Key_Mode_switch | Key_Help | Key_Print | Key_SysReq | Key_Menu
    | Key_PowerDown | Key_PowerOff | Key_Undo
    | Key_Other(code: int)

  /** Qt::MouseButton as far as the filter distinguishes it. */
  datatype MouseButton = NoButton | LeftButton | RightButton | MiddleButton | OtherButton(code: int)

  /** A Qt event, by QEvent::type(), with the accessors the filter reads. */
  datatype QtEvent =
    | KeyPress(key: QtKey, text: seq<UInt16>, autoRepeat: bool, modifiers: bv32)
    | KeyRelease(key: QtKey, text: seq<UInt16>, autoRepeat: bool, modifiers: bv32)
    | MouseMove(x: int, y: int, button: MouseButton)
    | MouseButtonPress(x: int, y: int, button: MouseButton)
    | MouseButtonRelease(x: int, y: int, button: MouseButton)
    | Wheel(x: int, y: int, angleDeltaY: int)
    | Resize(width: Int32, height: Int32)
    | Close
    | OtherEvent(typeCode: int)
  {
    predicate IsKey() { KeyPress? || KeyRelease? }
    predicate IsMouse() { MouseMove? || MouseButtonPress? || MouseButtonRelease? }
  }

  /** Qt::KeyboardModifier bits. */
  const ShiftModifier: bv32 := 0x0200_0000
  const ControlModifier: bv32 := 0x0400_0000
  const AltModifier: bv32 := 0x0800_0000
  const MetaModifier: bv32 := 0x1000_0000

  /** The keys the translation table names (every other key becomes KEYCODE_INVALID). */
  predicate InKeyTable(key: QtKey) {
    !key.Key_Other? && !(key.Key_F? && key.fn > 15)
  }

  function ToLower(c: UpperLetter): LowerLetter {
    (c as int + 32) as char
  }

  function ToUpper(c: LowerLetter): UpperLetter {
    (c as int - 32) as char
  }

  /** QtEventHandler::QtToOSystemKeycode: the key table, with KEYCODE_INVALID for unnamed keys. */
  function QtToOSystemKeycode(key: QtKey): (k: KeyCode)
    ensures k == KEYCODE_INVALID <==> !InKeyTable(key)
    ensures key.Key_Letter? ==> k == KEYCODE_Letter(ToLower(key.letter))
  {
    match key
    case Key_Backspace => KEYCODE_BACKSPACE
    case Key_Tab => KEYCODE_TAB
    case Key_Clear => KEYCODE_CLEAR
    case Key_Return => KEYCODE_RETURN
    case Key_Pause => KEYCODE_PAUSE
    case Key_Escape => KEYCODE_ESCAPE
    case Key_Space => KEYCODE_SPACE
    case Key_Exclam => KEYCODE_EXCLAIM
    case Key_QuoteDbl => KEYCODE_QUOTEDBL
    case Key_NumberSign => KEYCODE_HASH
    case Key_Dollar => KEYCODE_DOLLAR
    case Key_Ampersand => KEYCODE_AMPERSAND
    case Key_Apostrophe => KEYCODE_QUOTE
    case Key_ParenLeft => KEYCODE_LEFTPAREN
    case Key_ParenRight => KEYCODE_RIGHTPAREN
    case Key_Asterisk => KEYCODE_ASTERISK
    case Key_Plus => KEYCODE_PLUS
    case Key_Comma => KEYCODE_COMMA
    case Key_Minus => KEYCODE_MINUS
    case Key_Period => KEYCODE_PERIOD
    case Key_Slash => KEYCODE_SLASH
    case Key_Digit(d) => KEYCODE_Digit(d)
    case Key_Colon => KEYCODE_COLON
    case Key_Semicolon => KEYCODE_SEMICOLON
    case Key_Less => KEYCODE_LESS
    case Key_Equal => KEYCODE_EQUALS
    case Key_Greater => KEYCODE_GREATER
    case Key_Question => KEYCODE_QUESTION
    case Key_At => KEYCODE_AT
    case Key_BracketLeft => KEYCODE_LEFTBRACKET
    case Key_Backslash => KEYCODE_BACKSLASH
    case Key_BracketRight => KEYCODE_RIGHTBRACKET
    case Key_AsciiCircum => KEYCODE_CARET
    case Key_Underscore => KEYCODE_UNDERSCORE
    case Key_QuoteLeft => KEYCODE_BACKQUOTE
    case Key_Letter(c) => KEYCODE_Letter(ToLower(c))
    case Key_Delete => KEYCODE_DELETE
    case Key_AsciiTilde => KEYCODE_TILDE
    case Key_Up => KEYCODE_UP
    case Key_Down => KEYCODE_DOWN
    case Key_Right => KEYCODE_RIGHT
    case Key_Left => KEYCODE_LEFT
    case Key_Insert => KEYCODE_INSERT
    case Key_Home => KEYCODE_HOME
    case Key_End => KEYCODE_END
    case Key_PageUp => KEYCODE_PAGEUP
    case Key_PageDown => KEYCODE_PAGEDOWN
    case Key_F(n) => if n <= 15 then KEYCODE_F(n) else KEYCODE_INVALID
    case Key_NumLock => KEYCODE_NUMLOCK
    case Key_CapsLock => KEYCODE_CAPSLOCK
    case Key_ScrollLock => KEYCODE_SCROLLOCK
    case Key_Shift => KEYCODE_RSHIFT
    case Key_Control => KEYCODE_RCTRL
    case Key_Alt => KEYCODE_RALT
    case Key_Super_L => KEYCODE_LSUPER
    case Key_Super_R => KEYCODE_RSUPER
    case Key_Mode_switch => KEYCODE_MODE
    case Key_Help => KEYCODE_HELP
    case Key_Print => KEYCODE_PRINT
    case Key_SysReq => KEYCODE_SYSREQ
    case Key_Menu => KEYCODE_MENU
    case Key_PowerDown => KEYCODE_POWER
    case Key_PowerOff => KEYCODE_POWER
    case Key_Undo => KEYCODE_UNDO
    case Key_Other(_) => KEYCODE_INVALID
  }

  /**
   * The table read backwards: the Qt key a portable code comes from, choosing
   * Key_PowerDown for KEYCODE_POWER. It is the independent partner of the table.
   */
  function OSystemToQtKey(k: KeyCode): (r: Option<QtKey>)
    ensures r.None? <==> k == KEYCODE_INVALID
  {
    match k
    case KEYCODE_INVALID => None
    case KEYCODE_BACKSPACE => Some(Key_Backspace)
    case KEYCODE_TAB => Some(Key_Tab)
    case KEYCODE_CLEAR => Some(Key_Clear)
    case KEYCODE_RETURN => Some(Key_Return)
    case KEYCODE_PAUSE => Some(Key_Pause)
    case KEYCODE_ESCAPE => Some(Key_Escape)
    case KEYCODE_SPACE => Some(Key_Space)
    case KEYCODE_EXCLAIM => Some(Key_Exclam)
    case KEYCODE_QUOTEDBL => Some(Key_QuoteDbl)
    case KEYCODE_HASH => Some(Key_NumberSign)
    case KEYCODE_DOLLAR => Some(Key_Dollar)
    case KEYCODE_AMPERSAND => Some(Key_Ampersand)
    case KEYCODE_QUOTE => Some(Key_Apostrophe)
    case KEYCODE_LEFTPAREN => Some(Key_ParenLeft)
    case KEYCODE_RIGHTPAREN => Some(Key_ParenRight)
    case KEYCODE_ASTERISK => Some(Key_Asterisk)
    case KEYCODE_PLUS => Some(Key_Plus)
    case KEYCODE_COMMA => Some(Key_Comma)
    case KEYCODE_MINUS => Some(Key_Minus)
    case KEYCODE_PERIOD => Some(Key_Period)
    case KEYCODE_SLASH => Some(Key_Slash)
    case KEYCODE_Digit(d) => Some(Key_Digit(d))
    case KEYCODE_COLON => Some(Key_Colon)
    case KEYCODE_SEMICOLON => Some(Key_Semicolon)
    case KEYCODE_LESS => Some(Key_Less)
    case KEYCODE_EQUALS => Some(Key_Equal)
    case KEYCODE_GREATER => Some(Key_Greater)
    case KEYCODE_QUESTION => Some(Key_Question)
    case KEYCODE_AT => Some(Key_At)
    case KEYCODE_LEFTBRACKET => Some(Key_BracketLeft)
    case KEYCODE_BACKSLASH => Some(Key_Backslash)
    case KEYCODE_RIGHTBRACKET => Some(Key_BracketRight)
    case KEYCODE_CARET => Some(Key_AsciiCircum)
    case KEYCODE_UNDERSCORE => Some(Key_Underscore)
    case KEYCODE_BACKQUOTE => Some(Key_QuoteLeft)
    case KEYCODE_Letter(c) => Some(Key_Letter(ToUpper(c)))
    case KEYCODE_DELETE => Some(Key_Delete)
    case KEYCODE_TILDE => Some(Key_AsciiTilde)
    case KEYCODE_UP => Some(Key_Up)
    case KEYCODE_DOWN => Some(Key_Down)
    case KEYCODE_RIGHT => Some(Key_Right)
    case KEYCODE_LEFT => Some(Key_Left)
    case KEYCODE_INSERT => Some(Key_Insert)
    case KEYCODE_HOME => Some(Key_Home)
    case KEYCODE_END => Some(Key_End)
    case KEYCODE_PAGEUP => Some(Key_PageUp)
    case KEYCODE_PAGEDOWN => Some(Key_PageDown)
    case KEYCODE_F(n) => Some(Key_F(n))
    case KEYCODE_NUMLOCK => Some(Key_NumLock)
    case KEYCODE_CAPSLOCK => Some(Key_CapsLock)
    case KEYCODE_SCROLLOCK => Some(Key_ScrollLock)
    case KEYCODE_RSHIFT => Some(Key_Shift)
    case KEYCODE_RCTRL => Some(Key_Control)
    case KEYCODE_RALT => Some(Key_Alt)
    case KEYCODE_LSUPER => Some(Key_Super_L)
    case KEYCODE_RSUPER => Some(Key_Super_R)
    case KEYCODE_MODE => Some(Key_Mode_switch)
    case KEYCODE_HELP => Some(Key_Help)
    case KEYCODE_PRINT => Some(Key_Print)
    case KEYCODE_SYSREQ => Some(Key_SysReq)
    case KEYCODE_MENU => Some(Key_Menu)
    case KEYCODE_POWER => Some(Key_PowerDown)
    case KEYCODE_UNDO => Some(Key_Undo)
  }

  /** The inverse recovers every named key except Key_PowerOff (checked a few rows of the table at a time). */
  lemma KeycodeTableInverse(key: QtKey)
    requires InKeyTable(key) && key != Key_PowerOff
    ensures OSystemToQtKey(QtToOSystemKeycode(key)) == Some(key)
  {
    if key.Key_Backspace? || key.Key_Tab? || key.Key_Clear? || key.Key_Return? || key.Key_Pause? || key.Key_Escape? || key.Key_Space? {
      KeycodeInverseRows1(key);
    } else if key.Key_Exclam? || key.Key_QuoteDbl? || key.Key_NumberSign? || key.Key_Dollar? || key.Key_Ampersand? || key.Key_Apostrophe? || key.Key_ParenLeft? {
      KeycodeInverseRows2(key);
    } else if key.Key_ParenRight? || key.Key_Asterisk? || key.Key_Plus? || key.Key_Comma? || key.Key_Minus? || key.Key_Period? || key.Key_Slash? {
      KeycodeInverseRows3(key);
    } else if key.Key_Digit? || key.Key_Colon? || key.Key_Semicolon? || key.Key_Less? || key.Key_Equal? || key.Key_Greater? {
      KeycodeInverseRows4(key);
    } else if key.Key_Question? || key.Key_At? || key.Key_BracketLeft? || key.Key_Backslash? || key.Key_BracketRight? || key.Key_AsciiCircum? {
      KeycodeInverseRows5(key);
    } else if key.Key_Underscore? || key.Key_QuoteLeft? || key.Key_Letter? || key.Key_Delete? || key.Key_AsciiTilde? {
      KeycodeInverseRows6(key);
    } else if key.Key_Up? || key.Key_Down? || key.Key_Right? || key.Key_Left? {
      KeycodeInverseRows7(key);
    } else if key.Key_Insert? || key.Key_Home? || key.Key_End? || key.Key_PageUp? {
      KeycodeInverseRows8(key);
    } else if key.Key_PageDown? || key.Key_NumLock? || key.Key_CapsLock? || key.Key_ScrollLock? {
      KeycodeInverseRows9(key);
    } else if key.Key_Shift? || key.Key_Control? || key.Key_Alt? {
      KeycodeInverseRows10(key);
    } else if key.Key_Super_L? || key.Key_Super_R? || key.Key_Mode_switch? {
      KeycodeInverseRows11(key);
    } else if key.Key_Help? || key.Key_Print? || key.Key_SysReq? {
      KeycodeInverseRows12(key);
    } else if key.Key_Menu? || key.Key_PowerDown? || key.Key_Undo? {
      KeycodeInverseRows13(key);
    } else {
      assert key.Key_F? && key.fn <= 15;
    }
  }

  lemma KeycodeInverseRows1(key: QtKey)
    requires key.Key_Backspace? || key.Key_Tab? || key.Key_Clear? || key.Key_Return? || key.Key_Pause? || key.Key_Escape? || key.Key_Space?
    ensures OSystemToQtKey(QtToOSystemKeycode(key)) == Some(key)
  {
    match key
    case Key_Backspace =>
    case Key_Tab =>
    case Key_Clear =>
    case Key_Return =>
    case Key_Pause =>
    case Key_Escape =>
    case Key_Space =>
    case _ =>
  }

  lemma KeycodeInverseRows2(key: QtKey)
    requires key.Key_Exclam? || key.Key_QuoteDbl? || key.Key_NumberSign? || key.Key_Dollar? || key.Key_Ampersand? || key.Key_Apostrophe? || key.Key_ParenLeft?
    ensures OSystemToQtKey(QtToOSystemKeycode(key)) == Some(key)
  {
    match key
    case Key_Exclam =>
    case Key_QuoteDbl =>
    case Key_NumberSign =>
    case Key_Dollar =>
    case Key_Ampersand =>
    case Key_Apostrophe =>
    case Key_ParenLeft =>
    case _ =>
  }

  lemma KeycodeInverseRows3(key: QtKey)
    requires key.Key_ParenRight? || key.Key_Asterisk? || key.Key_Plus? || key.Key_Comma? || key.Key_Minus? || key.Key_Period? || key.Key_Slash?
    ensures OSystemToQtKey(QtToOSystemKeycode(key)) == Some(key)
  {
    match key
    case Key_ParenRight =>
    case Key_Asterisk =>
    case Key_Plus =>
    case Key_Comma =>
    case Key_Minus =>
    case Key_Period =>
    case Key_Slash =>
    case _ =>
  }

  lemma KeycodeInverseRows4(key: QtKey)
    requires key.Key_Digit? || key.Key_Colon? || key.Key_Semicolon? || key.Key_Less? || key.Key_Equal? || key.Key_Greater?
    ensures OSystemToQtKey(QtToOSystemKeycode(key)) == Some(key)
  {
    match key
    case Key_Digit(_) =>
    case Key_Colon =>
    case Key_Semicolon =>
    case Key_Less =>
    case Key_Equal =>
    case Key_Greater =>
    case _ =>
  }

  lemma KeycodeInverseRows5(key: QtKey)
    requires key.Key_Question? || key.Key_At? || key.Key_BracketLeft? || key.Key_Backslash? || key.Key_BracketRight? || key.Key_AsciiCircum?
    ensures OSystemToQtKey(QtToOSystemKeycode(key)) == Some(key)
  {
    match key
    case Key_Question =>
    case Key_At =>
    case Key_BracketLeft =>
    case Key_Backslash =>
    case Key_BracketRight =>
    case Key_AsciiCircum =>
    case _ =>
  }

  lemma KeycodeInverseRows6(key: QtKey)
    requires key.Key_Underscore? || key.Key_QuoteLeft? || key.Key_Letter? || key.Key_Delete? || key.Key_AsciiTilde?
    ensures OSystemToQtKey(QtToOSystemKeycode(key)) == Some(key)
  {
    match key
    case Key_Underscore =>
    case Key_QuoteLeft =>
    case Key_Letter(c) => assert ToUpper(ToLower(c)) == c;
    case Key_Delete =>
    case Key_AsciiTilde =>
    case _ =>
  }

  lemma KeycodeInverseRows7(key: QtKey)
    requires key.Key_Up? || key.Key_Down? || key.Key_Right? || key.Key_Left?
    ensures OSystemToQtKey(QtToOSystemKeycode(key)) == Some(key)
  {
    match key
    case Key_Up =>
    case Key_Down =>
    case Key_Right =>
    case Key_Left =>
    case _ =>
  }

  lemma KeycodeInverseRows8(key: QtKey)
    requires key.Key_Insert? || key.Key_Home? || key.Key_End? || key.Key_PageUp?
    ensures OSystemToQtKey(QtToOSystemKeycode(key)) == Some(key)
  {
    match key
    case Key_Insert =>
    case Key_Home =>
    case Key_End =>
    case Key_PageUp =>
    case _ =>
  }

  lemma KeycodeInverseRows9(key: QtKey)
    requires key.Key_PageDown? || key.Key_NumLock? || key.Key_CapsLock? || key.Key_ScrollLock?
    ensures OSystemToQtKey(QtToOSystemKeycode(key)) == Some(key)
  {
    match key
    case Key_PageDown =>
    case Key_NumLock =>
    case Key_CapsLock =>
    case Key_ScrollLock =>
    case _ =>
  }

  lemma KeycodeInverseRows10(key: QtKey)
    requires key.Key_Shift? || key.Key_Control? || key.Key_Alt?
    ensures OSystemToQtKey(QtToOSystemKeycode(key)) == Some(key)
  {
    match key
    case Key_Shift =>
    case Key_Control =>
    case Key_Alt =>
    case _ =>
  }

  lemma KeycodeInverseRows11(key: QtKey)
    requires key.Key_Super_L? || key.Key_Super_R? || key.Key_Mode_switch?
    ensures OSystemToQtKey(QtToOSystemKeycode(key)) == Some(key)
  {
    match key
    case Key_Super_L =>
    case Key_Super_R =>
    case Key_Mode_switch =>
    case _ =>
  }

  lemma KeycodeInverseRows12(key: QtKey)
    requires key.Key_Help? || key.Key_Print? || key.Key_SysReq?
    ensures OSystemToQtKey(QtToOSystemKeycode(key)) == Some(key)
  {
    match key
    case Key_Help =>
    case Key_Print =>
    case Key_SysReq =>
    case _ =>
  }

  lemma KeycodeInverseRows13(key: QtKey)
    requires key.Key_Menu? || key.Key_PowerDown? || key.Key_Undo?
    ensures OSystemToQtKey(QtToOSystemKeycode(key)) == Some(key)
  {
    match key
    case Key_Menu =>
    case Key_PowerDown =>
    case Key_Undo =>
    case _ =>
  }

  /** Two named keys other than Key_PowerOff never share a portable code. */
  lemma KeycodeInjective(a: QtKey, b: QtKey)
    requires InKeyTable(a) && InKeyTable(b) && a != Key_PowerOff && b != Key_PowerOff
    requires QtToOSystemKeycode(a) == QtToOSystemKeycode(b)
    ensures a == b
  {
    KeycodeTableInverse(a);
    KeycodeTableInverse(b);
  }

  /** Key_PowerDown and Key_PowerOff share KEYCODE_POWER. */
  lemma PowerKeysCollide()
    ensures QtToOSystemKeycode(Key_PowerDown) == QtToOSystemKeycode(Key_PowerOff) == KEYCODE_POWER
  {
  }

  /**
   * The table is injective on the keys it names, except that Key_PowerDown and
   * Key_PowerOff both give KEYCODE_POWER.
   */
  lemma KeycodeOnlyPowerCollides(a: QtKey, b: QtKey)
    requires InKeyTable(a) && InKeyTable(b) && a != b
    ensures QtToOSystemKeycode(a) == QtToOSystemKeycode(b) ==>
              ((a == Key_PowerDown && b == Key_PowerOff) || (a == Key_PowerOff && b == Key_PowerDown))
  {
    if QtToOSystemKeycode(a) == QtToOSystemKeycode(b) {
      var x := if a == Key_PowerOff then Key_PowerDown else a;
      var y := if b == Key_PowerOff then Key_PowerDown else b;
      PowerKeysCollide();
      assert QtToOSystemKeycode(x) == QtToOSystemKeycode(y);
      KeycodeInjective(x, y);
    }
  }

  /** QtEventHandler::QtModToOSystemKeyFlags: the four modifier bits, and nothing else. */
  function ModifierFlags(mod: bv32): (flags: bv8)
    ensures (flags & KBD_SHIFT != 0) <==> (mod & ShiftModifier != 0)
    ensures (flags & KBD_ALT != 0) <==> (mod & AltModifier != 0)
    ensures (flags & KBD_CTRL != 0) <==> (mod & ControlModifier != 0)
    ensures (flags & KBD_META != 0) <==> (mod & MetaModifier != 0)
    ensures flags & !(KBD_SHIFT | KBD_ALT | KBD_CTRL | KBD_META) == 0
  {
    var f0: bv8 := 0;
    var f1 := if mod & ShiftModifier != 0 then f0 | KBD_SHIFT else f0;
    var f2 := if mod & AltModifier != 0 then f1 | KBD_ALT else f1;
    var f3 := if mod & ControlModifier != 0 then f2 | KBD_CTRL else f2;
    if mod & MetaModifier != 0 then f3 | KBD_META else f3
  }

  /** eventFilter's dispatch: the event kinds it handles and reports as consumed. */
  predicate Consumed(ev: QtEvent) {
    ev.IsKey() || ev.IsMouse() || ev.Wheel? || ev.Resize? || ev.Close?
  }

  /** handleKeyEvent: the record it fills in. */
  function KeyEventRecord(ev: QtEvent): (e: Event)
    requires ev.IsKey()
    ensures e.kind == EVENT_KEYDOWN <==> ev.KeyPress?
    ensures e.kind == EVENT_KEYUP <==> ev.KeyRelease?
    ensures e.kbd.keycode == QtToOSystemKeycode(ev.key)
    ensures e.kbd.ascii == (if |ev.text| == 0 then 0 else ev.text[0])
    ensures e.kbdRepeat == ev.autoRepeat
    ensures e.kbd.flags == ModifierFlags(ev.modifiers)
  {
    var kind := if ev.KeyPress? then EVENT_KEYDOWN else EVENT_KEYUP;
    var ascii := if |ev.text| != 0 then ev.text[0] else 0;
    DefaultEvent.(kind := kind, kbd := KeyState(QtToOSystemKeycode(ev.key), ascii, ModifierFlags(ev.modifiers)),
                  kbdRepeat := ev.autoRepeat)
  }

  /** handleMouseEvent: the event type, or None when it returns early for an unhandled button. */
  function MouseEventType(ev: QtEvent): (t: Option<EventType>)
    requires ev.IsMouse()
    ensures t.None? <==> !ev.MouseMove? && !(ev.button in {LeftButton, RightButton, MiddleButton})
  {
    match ev
    case MouseMove(_, _, _) => Some(EVENT_MOUSEMOVE)
    case MouseButtonPress(_, _, b) =>
      (match b
       case LeftButton => Some(EVENT_LBUTTONDOWN)
       case RightButton => Some(EVENT_RBUTTONDOWN)
       case MiddleButton => Some(EVENT_MBUTTONDOWN)
       case _ => None)
    case MouseButtonRelease(_, _, b) =>
      (match b
       case LeftButton => Some(EVENT_LBUTTONUP)
       case RightButton => Some(EVENT_RBUTTONUP)
       case MiddleButton => Some(EVENT_MBUTTONUP)
       case _ => None)
  }

  /** The engine's button-up event matching a button-down event. */
  function ButtonUpFor(down: EventType): EventType {
    match down
    case EVENT_LBUTTONDOWN => EVENT_LBUTTONUP
    case EVENT_RBUTTONDOWN => EVENT_RBUTTONUP
    case EVENT_MBUTTONDOWN => EVENT_MBUTTONUP
    case other => other
  }

  /** Pressing and releasing the same button give a matching down/up pair, and different buttons differ. */
  lemma MouseButtonsPair(x: int, y: int, b: MouseButton, b': MouseButton)
    requires b in {LeftButton, RightButton, MiddleButton}
    ensures MouseEventType(MouseButtonRelease(x, y, b)).Some?
    ensures MouseEventType(MouseButtonRelease(x, y, b)).value
            == ButtonUpFor(MouseEventType(MouseButtonPress(x, y, b)).value)
    ensures MouseEventType(MouseButtonPress(x, y, b)) == MouseEventType(MouseButtonPress(x, y, b')) ==> b == b'
  {
  }

  /** handleWheelEvent: the sign of the vertical angle delta decides the event, zero gives none. */
  function WheelEventType(yDir: int): (t: Option<EventType>)
    ensures t.None? <==> yDir == 0
    ensures t == Some(EVENT_WHEELDOWN) <==> yDir < 0
    ensures t == Some(EVENT_WHEELUP) <==> yDir > 0
  {
    if yDir < 0 then Some(EVENT_WHEELDOWN)
    else if yDir > 0 then Some(EVENT_WHEELUP)
    else None
  }

  /** Whether handling `ev` offers its position to an attached graphics manager. */
  predicate OffersMousePosition(ev: QtEvent) {
    (ev.IsMouse() && MouseEventType(ev).Some?) || ev.Wheel?
  }

  /** The position a mouse or wheel event carries, as a Common::Point (int16 fields). */
  function EventPosition(ev: QtEvent): Point
    requires ev.IsMouse() || ev.Wheel?
  {
    Point(ToInt16(ev.x), ToInt16(ev.y))
  }

  /**
   * What handling `ev` pushes onto the queue; `mouse` is the position after the
   * graphics manager (if any) has seen it.
   */
  function Translate(ev: QtEvent, mouse: Point): (pushed: seq<Event>)
    ensures |pushed| <= 1
    ensures pushed != [] ==> Consumed(ev)
    ensures forall e | e in pushed :: e.kind != EVENT_SCREEN_CHANGED && e.kind != EVENT_INVALID
  {
    if ev.IsKey() then [KeyEventRecord(ev)]
    else if ev.IsMouse() then
      (match MouseEventType(ev)
       case None => []
       case Some(t) => [DefaultEvent.(kind := t, mouse := mouse)])
    else if ev.Wheel? then
      (match WheelEventType(ev.angleDeltaY)
       case None => []
       case Some(t) => [DefaultEvent.(kind := t, mouse := mouse)])
    else if ev.Close? then [DefaultEvent.(kind := EVENT_QUIT)]
    else []
  }

  /** A key press or release pushes exactly one event, the key record. */
  lemma KeyEventPushesOne(ev: QtEvent, mouse: Point)
    requires ev.IsKey()
    ensures Translate(ev, mouse) == [KeyEventRecord(ev)]
  {
  }

  /**
   * A button press/release of a button other than left/right/middle pushes nothing;
   * every other mouse event pushes exactly one event at the adjusted position.
   */
  lemma MouseEventRule(ev: QtEvent, mouse: Point)
    requires ev.IsMouse()
    ensures Translate(ev, mouse) == [] <==>
              !ev.MouseMove? && !(ev.button in {LeftButton, RightButton, MiddleButton})
    ensures Translate(ev, mouse) != [] ==>
              Translate(ev, mouse) == [DefaultEvent.(kind := MouseEventType(ev).value, mouse := mouse)]
  {
  }

  /** Negative delta: one WHEELDOWN; positive: one WHEELUP; zero: nothing. */
  lemma WheelEventRule(ev: QtEvent, mouse: Point)
    requires ev.Wheel?
    ensures ev.angleDeltaY == 0 <==> Translate(ev, mouse) == []
    ensures ev.angleDeltaY < 0 ==> Translate(ev, mouse) == [DefaultEvent.(kind := EVENT_WHEELDOWN, mouse := mouse)]
    ensures ev.angleDeltaY > 0 ==> Translate(ev, mouse) == [DefaultEvent.(kind := EVENT_WHEELUP, mouse := mouse)]
  {
  }

  /** Close pushes exactly one EVENT_QUIT; resize and unhandled events push nothing. */
  lemma CloseAndResizeRule(ev: QtEvent, mouse: Point)
    ensures ev.Close? ==> Translate(ev, mouse) == [DefaultEvent.(kind := EVENT_QUIT)]
    ensures ev.Resize? || ev.OtherEvent? ==> Translate(ev, mouse) == []
  {
  }
}
