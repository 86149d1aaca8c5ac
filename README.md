# ScummVM Qt backend: a Dafny model

This project models the Qt backend of ScummVM and the save-state part of the
Blade Runner meta engine. The parts modelled are:

- **The event path.** `QtEventSource` owns a `QtEventHandler`. The handler runs on Qt's
  GUI thread, translates Qt events into `Common::Event` records and queues them. On the
  engine thread, `pollEvent` first forwards a pending window resize to the graphics
  manager. It then reports `EVENT_SCREEN_CHANGED` when the manager's screen-change ID
  moved, and otherwise pops the oldest queued event.
- **The graphics manager's bookkeeping** (`OpenGLQtGraphicsManager`):
  - the stretch-mode table and its Ctrl+Alt+s cycle;
  - hotkey recognition (`isHotkey`, `notifyEvent`);
  - mouse clamping into the draw rectangle;
  - the `_ignoreLoadVideoMode` / `_gotResize` flags that decide whether `loadVideoMode`
    really resizes the window;
  - the window part of `setupMode`;
  - `createOrUpdateWindow`.
- **The window wrapper** (`QtWindow`): caption, mouse grab, iconify, and creating or
  updating the single `QWindow`, its size capped at the screen.
- **The file-system node** (`QtFilesystemNode`): flags, children, parent, and creating a
  file or directory.
- **The system object** (`OSystem_Qt`): features, log-message routing, the POSIX system
  language, the screenshots path, the default configuration file name, and the log file.
- **Blade Runner saves**: the feature list, `listSaves`, `querySaveMetaInfos`,
  `removeSaveState` and `getMaximumSaveSlot`. The save-file manager is modelled as a map
  from file name to what opening that file yields.

Classes whose fields the source updates in place are Dafny classes. Each has a pure state
datatype (`State()`), and each method is specified by a pure transition function of the
old state. The properties of those functions are proved as lemmas.

Qt, OpenGL, the environment and the file system are never called. Their answers are
parameters:
- the `QWindow` is a value inside `QtWindow`;
- `setlocale`, `getenv` and `QStandardPaths` results are strings;
- `QFileInfo` results are a `FileInfo`, and a directory walk is a sequence of entries;
- base-class behaviour reached through virtual calls is a function parameter
  (`convertWindowToVirtual`, `KeyState::hasFlags`, the modular backend's `hasFeature`).

C++ integer widths are modelled where they matter:
- the `int16` coordinates of `Common::Point`;
- the `uint` fields `_newWidth` and `_newHeight`;
- the `uint` product in `loadVideoMode`.

## Model

| member | source | states |
|---|---|---|
| Events.ToUInt32 | backends/events/qt/qt-events.cpp:85-89 | storing an `int` in a `uint` field keeps the value modulo 2^32 and is the identity on non-negative values |
| Events.ToInt32 | backends/events/qt/qt-events.cpp:63 | reading a `uint` as `int` is congruent modulo 2^32 and the identity on `int` range |
| Events.Int32RoundTrip | backends/events/qt/qt-events.cpp:63-87 | an `int` stored in `_newWidth`/`_newHeight` reads back as the same `int` |
| Events.ToInt16 | backends/events/qt/qt-eventfilter.cpp:125 | converting to an `int16` coordinate keeps the low 16 bits and is the identity on `int16` range |
| EventFilter.QtToOSystemKeycode | backends/events/qt/qt-eventfilter.cpp:179-295 | the result is `KEYCODE_INVALID` exactly for keys the table does not name; letters map to their lower-case keycode |
| EventFilter.OSystemToQtKey | backends/events/qt/qt-eventfilter.cpp:179-295 | the table read backwards; it is undefined (None) exactly for `KEYCODE_INVALID` |
| EventFilter.KeycodeTableInverse | backends/events/qt/qt-eventfilter.cpp:179-295 | reading back the keycode of any named key other than `Key_PowerOff` recovers the key |
| EventFilter.KeycodeInjective | backends/events/qt/qt-eventfilter.cpp:179-295 | two named keys other than `Key_PowerOff` never share a keycode |
| EventFilter.PowerKeysCollide | backends/events/qt/qt-eventfilter.cpp:287-290 | `Key_PowerDown` and `Key_PowerOff` both give `KEYCODE_POWER` |
| EventFilter.KeycodeOnlyPowerCollides | backends/events/qt/qt-eventfilter.cpp:179-295 | two different named keys share a keycode only if they are `Key_PowerDown` and `Key_PowerOff` |
| EventFilter.ModifierFlags | backends/events/qt/qt-eventfilter.cpp:166-177 | each of Shift, Alt, Ctrl and Meta is set in the result exactly when its Qt modifier bit is set, and no other flag is set |
| EventFilter.KeyEventRecord | backends/events/qt/qt-eventfilter.cpp:74-90 | press gives KEYDOWN and release KEYUP; keycode from the table; ascii is the first UTF-16 unit of the text or 0; repeat and modifier flags come from the event |
| EventFilter.MouseEventType | backends/events/qt/qt-eventfilter.cpp:92-120 | moves always give an event; press/release give one only for the left, right and middle buttons |
| EventFilter.MouseButtonsPair | backends/events/qt/qt-eventfilter.cpp:96-117 | releasing a button gives the up event matching its down event, and different buttons give different down events |
| EventFilter.WheelEventType | backends/events/qt/qt-eventfilter.cpp:143-164 | a negative delta gives WHEELDOWN, a positive one WHEELUP, and zero gives nothing |
| EventFilter.Translate | backends/events/qt/qt-eventfilter.cpp:42-164 | each Qt event queues at most one engine event, only consumed kinds queue anything, and nothing queued is SCREEN_CHANGED or INVALID |
| EventFilter.KeyEventPushesOne | backends/events/qt/qt-eventfilter.cpp:74-90 | a key press or release queues exactly its key record |
| EventFilter.MouseEventRule | backends/events/qt/qt-eventfilter.cpp:92-134 | a mouse event queues nothing if and only if it is a press or release of an unhandled button; otherwise it queues one event at the adjusted position |
| EventFilter.WheelEventRule | backends/events/qt/qt-eventfilter.cpp:143-164 | a wheel event queues nothing if and only if its delta is zero; otherwise one WHEELDOWN or WHEELUP at the adjusted position |
| EventFilter.CloseAndResizeRule | backends/events/qt/qt-eventfilter.cpp:65-72 | close queues exactly one EVENT_QUIT; resize and unhandled events queue nothing |
| EventSource.Resized | backends/events/qt/qt-events.cpp:85-89 | notifyResize marks a resize pending, stores a size that reads back as the given one, and leaves the queue and the last screen ID alone |
| EventSource.ResizesCoalesce | backends/events/qt/qt-events.cpp:85-89 | of two resizes before a poll only the last one matters |
| EventSource.PopQueue | backends/events/qt/qt-events.cpp:74-82 | a non-empty queue yields its oldest event and loses exactly that one; an empty queue yields false and leaves the caller's event unchanged |
| EventSource.Poll | backends/events/qt/qt-events.cpp:57-83 | a resize is forwarded exactly when one is pending and a manager is attached, with the size notified, and it stays pending otherwise |
| EventSource.PollWithoutResize | backends/events/qt/qt-events.cpp:57-83 | with nothing to forward, pollEvent is a plain FIFO pop |
| EventSource.ResizeForwardedOnce | backends/events/qt/qt-events.cpp:57-89 | a notified size is forwarded to the manager on the next poll exactly as given, and not again on the poll after it |
| EventSource.ResizeWaitsForManager | backends/events/qt/qt-events.cpp:60-72 | without a manager a pending resize is neither forwarded nor dropped |
| EventSource.ScreenChangedIff | backends/events/qt/qt-events.cpp:60-72 | SCREEN_CHANGED is reported exactly when a forwarded resize comes with a changed screen ID. Such a poll records the new ID and leaves the queue alone, and no screen-change event is ever queued |
| EventSource.Delivered | backends/events/qt/qt-events.cpp:57-83 | n polls deliver at most n events |
| EventSource.QueueDeliveredInOrder | backends/events/qt/qt-events.cpp:74-82 | with no resize pending, polling as often as there are events delivers the queue in order |
| EventSource.ScreenChangeThenQueue | backends/events/qt/qt-events.cpp:57-83 | a pending resize that changes the screen is reported first, followed by the whole queue in order |
| EventSource.ResizeWithoutScreenChange | backends/events/qt/qt-events.cpp:60-82 | a forwarded resize that leaves the screen-change ID unchanged falls through, in the same call, to a plain pop of the queue with the resize cleared |
| EventSource.ResizeDoesNotBlockQueue | backends/events/qt/qt-events.cpp:57-83 | with a resize pending that does not change the screen, polling as often as there are events still delivers the whole queue in order |
| EventSource.PushedPosition | backends/events/qt/qt-eventfilter.cpp:125-151 | with a manager attached the queued position is the clamped, converted event position; without one it is the event position itself |
| EventSource.Filtered | backends/events/qt/qt-eventfilter.cpp:42-164 | the handler appends what the event translates to, records a resize only when a manager is attached, and never queues a screen-change event |
| EventSource.QtEventSource.constructor | backends/events/qt/qt-events.cpp:36-46 | starts with an empty queue, no pending resize, screen ID 0 and a fresh handler that points back to the source |
| EventSource.QtEventSource.SetGraphicsManager | backends/events/qt/qt-events.cpp:52-55 | the source and its handler both take the manager; the source's state is unchanged |
| EventSource.QtEventSource.Push | backends/events/qt/qt-events.cpp:69-71 | appends one event, with the queue lock held |
| EventSource.QtEventSource.NotifyResize | backends/events/qt/qt-events.cpp:85-89 | the new state is `Resized` of the old one, and the lock is left as it was |
| EventSource.QtEventSource.PollEvent | backends/events/qt/qt-events.cpp:57-83 | returns and leaves exactly what `Poll` describes; the manager's state changes only by `AfterNotifyResize` with the forwarded size |
| EventSource.QtEventHandler.Enqueue | backends/events/qt/qt-eventfilter.cpp:69-71 | one event is appended to the source's queue under the lock |
| EventSource.QtEventHandler.HandleCloseEvent | backends/events/qt/qt-eventfilter.cpp:65-72 | queues one EVENT_QUIT |
| EventSource.QtEventHandler.HandleKeyEvent | backends/events/qt/qt-eventfilter.cpp:74-90 | queues the key record of the event |
| EventSource.QtEventHandler.HandleMouseEvent | backends/events/qt/qt-eventfilter.cpp:92-134 | queues the translated event at the adjusted position, and updates the manager's state by `MouseNoted` exactly when the event reaches it |
| EventSource.QtEventHandler.HandleResizeEvent | backends/events/qt/qt-eventfilter.cpp:136-141 | records the resize on the source only when a manager is attached |
| EventSource.QtEventHandler.HandleWheelEvent | backends/events/qt/qt-eventfilter.cpp:143-164 | the manager always sees the position; the event is queued per the sign of the delta |
| EventSource.QtEventHandler.EventFilter | backends/events/qt/qt-eventfilter.cpp:42-63 | consumes exactly key, mouse, wheel, resize and close events; the source's new state is `Filtered` |
| Window.WithCaption | backends/platform/qt/qt-window.cpp:43-48 | the caption is always stored, and becomes the QWindow's title only when a QWindow exists |
| Window.ToggledGrab | backends/platform/qt/qt-window.cpp:50-55 | without a QWindow nothing changes; with one the grab flips and is applied to the QWindow |
| Window.ToggleTwice | backends/platform/qt/qt-window.cpp:50-55 | two toggles restore the grab state |
| Window.Iconified | backends/platform/qt/qt-window.cpp:83-88 | an existing QWindow loses the mouse grab and is minimised |
| Window.CapAt | backends/platform/qt/qt-window.cpp:103-108 | the requested extent capped at the screen's extent |
| Window.ScreenBound | backends/platform/qt/qt-window.cpp:97-101 | fullscreen caps at the full screen size, windowed at the available size |
| Window.CreatedOrUpdated | backends/platform/qt/qt-window.cpp:90-144 | a QWindow always exists afterwards, the flags are recorded, and it is fullscreen exactly when the fullscreen flag is set |
| Window.CreateOrUpdateGeometry | backends/platform/qt/qt-window.cpp:90-144 | a new QWindow gets the capped size and no title. An existing one keeps its title: windowed, it is resized and released; fullscreen, it is grabbed at its old size. A windowed size never exceeds the screen bound |
| Window.TransitionsKeepGrabInvariant | backends/platform/qt/qt-window.cpp:31-144 | every operation keeps "grab on implies a QWindow exists", which createOrUpdateWindow relies on |
| Window.QtWindow.constructor | backends/platform/qt/qt-window.cpp:31-36 | no QWindow, no grab, caption "ScummVM" |
| Window.QtWindow.SetWindowCaption | backends/platform/qt/qt-window.cpp:43-48 | the new state is `WithCaption` of the old one |
| Window.QtWindow.ToggleMouseGrab | backends/platform/qt/qt-window.cpp:50-55 | the new state is `ToggledGrab` of the old one |
| Window.QtWindow.IconifyWindow | backends/platform/qt/qt-window.cpp:83-88 | the new state is `Iconified` of the old one |
| Window.QtWindow.CreateOrUpdateWindow | backends/platform/qt/qt-window.cpp:90-144 | the new state is `CreatedOrUpdated` of the old one and the call reports success |
| Graphics.StretchModeIds | backends/graphics/qt/qt-graphics.cpp:124-130 | the valid stretch modes are exactly the four table ids; the terminator's id does not count. The values 0 to 3 of `STRETCH_CENTER` to `STRETCH_STRETCH` are taken from ScummVM's graphics header, which is not part of this model |
| Graphics.StretchIndex | backends/graphics/qt/qt-graphics.cpp:147-152 | the table walk stops at the mode's entry when it is valid and at the terminator otherwise |
| Graphics.NextStretchMode | backends/graphics/qt/qt-graphics.cpp:498-523 | the next mode is valid and differs from the current one |
| Graphics.StretchCycle | backends/graphics/qt/qt-graphics.cpp:498-523 | Ctrl+Alt+s goes center, pixel-perfect, fit, stretch and back to center, so four presses return to the start |
| Graphics.CycleIndex | backends/graphics/qt/qt-graphics.cpp:502-512 | the index loop lands on a named entry whose id is the next stretch mode |
| Graphics.HasFeature | backends/graphics/qt/qt-graphics.cpp:80-90 | fullscreen, stretch mode and iconify are supported; other features get the base class's answer |
| Graphics.IsHotkey | backends/graphics/qt/qt-graphics.cpp:535-545 | only Return, a, f and s can be hotkeys, and only when hasFlags accepts Alt or Ctrl+Alt |
| Graphics.KeyDownHotkey | backends/graphics/qt/qt-graphics.cpp:395-523 | a key-down picks a hotkey action exactly when isHotkey accepts the event |
| Graphics.CtrlAltDeadUnderAllBits | backends/graphics/qt/qt-graphics.cpp:535-545 | if hasFlags meant "all requested bits set", Alt would also catch Ctrl+Alt and no Ctrl+Alt hotkey could fire |
| Graphics.HotkeysUnderExactFlags | backends/graphics/qt/qt-graphics.cpp:535-545 | under KeyState's exact reading, Alt-only keys and Ctrl+Alt keys are the hotkeys, and Ctrl+Alt+s picks the stretch cycle |
| Graphics.Clip | backends/graphics/qt/qt-graphics.cpp:259-266 | CLIP keeps a value already inside the bounds, and moves one below or above them to the nearer bound |
| Graphics.ClampIntoRect | backends/graphics/qt/qt-graphics.cpp:255-268 | a point inside the draw rectangle is unchanged. For a point outside, each coordinate below the range goes to left (top), one at or past right (bottom) goes to right-1 (bottom-1), and one in range is kept |
| Graphics.ClampIdempotent | backends/graphics/qt/qt-graphics.cpp:255-268 | a clamped point lies in the rectangle, so clamping twice equals clamping once |
| Graphics.AfterNotifyResize | backends/graphics/qt/qt-graphics.cpp:226-236 | a size other than the QWindow's is ignored; the QWindow's own size sets gotResize and goes to handleResize |
| Graphics.MouseNoted | backends/graphics/qt/qt-graphics.cpp:238-280 | the cursor is recorded at the clamped point; it is marked active if the point was inside or it already was; nothing else changes |
| Graphics.AfterHotkey | backends/graphics/qt/qt-graphics.cpp:395-523 | Alt+Return flips the fullscreen wish, Ctrl+Alt+a copies gotResize into the ignore flag, Ctrl+Alt+f and Ctrl+Alt+s set it, Ctrl+Alt+s moves to the next stretch mode |
| Graphics.LoadVideoModeFlags | backends/graphics/qt/qt-graphics.cpp:290-300 | a pending ignore is consumed and keeps gotResize; otherwise gotResize is cleared |
| Graphics.ToggleAssertionsNeedVideoModeLoad | backends/graphics/qt/qt-graphics.cpp:453-492 | after the aspect or filter toggle the ignore flag is set exactly when Ctrl+Alt+f was pressed or the user had resized; the transaction must call loadVideoMode to clear it before the asserts |
| Graphics.ScaledDimension | backends/graphics/qt/qt-graphics.cpp:302-307 | the requested size times the scale modulo 2^32, as `uint` arithmetic wraps, and the exact product whenever it fits |
| Graphics.QtGraphicsManager.constructor | backends/graphics/qt/qt-graphics.cpp:52-59 | scale 2, fit stretch mode, flags cleared, the desktop size stored as the fullscreen size |
| Graphics.QtGraphicsManager.FeatureState | backends/graphics/qt/qt-graphics.cpp:110-121 | fullscreen reads the QWindow's state when it exists and the stored wish otherwise |
| Graphics.QtGraphicsManager.SetFeatureState | backends/graphics/qt/qt-graphics.cpp:92-108 | fullscreen records the wish; enabling iconify minimises the window; nothing else changes |
| Graphics.QtGraphicsManager.SetStretchMode | backends/graphics/qt/qt-graphics.cpp:142-165 | accepts the current mode or any valid one and stores it; refuses other ids and changes nothing |
| Graphics.QtGraphicsManager.NotifyEvent | backends/graphics/qt/qt-graphics.cpp:390-533 | key-up and key-down are handled exactly when they are hotkeys; the new state is `AfterHotkey` of the key-down action |
| Graphics.QtGraphicsManager.HandleKeyDown | backends/graphics/qt/qt-graphics.cpp:395-525 | performs the action `KeyDownHotkey` picks |
| Graphics.QtGraphicsManager.HandleCtrlAlt | backends/graphics/qt/qt-graphics.cpp:451-524 | a, f and s pick their action and update the state by `AfterHotkey` |
| Graphics.QtGraphicsManager.NotifyResize | backends/graphics/qt/qt-graphics.cpp:226-236 | the new state is `AfterNotifyResize` with the QWindow's size |
| Graphics.QtGraphicsManager.NotifyMousePosition | backends/graphics/qt/qt-graphics.cpp:238-280 | always reports valid; the new state is `MouseNoted`; the point returned is the clamped point converted to game coordinates |
| Graphics.WindowUpdateSettles | backends/graphics/qt/qt-graphics.cpp:552-563 | the update test of createOrUpdateWindow (`NeedsWindowUpdate`): once the flags are recorded, a repeat with the same flags updates only with the overlay visible; other flags or a missing QWindow always update |
| Graphics.QtGraphicsManager.CreateOrUpdateWindow | backends/graphics/qt/qt-graphics.cpp:547-566 | fails exactly without a window. The window is updated only without a QWindow, on a flag change or with the overlay up, and then the flags are recorded |
| Graphics.QtGraphicsManager.SetupModeWindow | backends/graphics/qt/qt-graphics.cpp:348-358 | fullscreen requests the desktop size with the fullscreen flag. The window is created or updated as `createOrUpdateWindow` decides, and handleResize gets the QWindow's size when the context comes up |
| Graphics.QtGraphicsManager.LoadVideoMode | backends/graphics/qt/qt-graphics.cpp:290-308 | a pending ignore is consumed and leaves the window alone. Otherwise gotResize is cleared and, with a window, the window is created or updated as `createOrUpdateWindow` decides. It gets the requested size times `_graphicsScale` in `uint` arithmetic, or the desktop size with the fullscreen flag when fullscreen is wanted. The flags and the size given to handleResize are recorded as in `SetupModeWindow`. The stretch mode and fullscreen wish are kept |
| FileSystem.EnsureSlash | backends/fs/qt/qt-fs.cpp:55-58 | the path ends in exactly one added or existing '/' |
| FileSystem.JoinPath | backends/fs/qt/qt-fs.cpp:55-64 | the joined path starts with the directory's path ended by exactly one '/' and ends with the name; for a name without '/', cutting back to the last '/' recovers that directory part |
| FileSystem.StripLastComponent | backends/fs/qt/qt-fs.cpp:117-127 | a prefix of the path that is empty or ends in '/', with no '/' after it |
| FileSystem.ParentPath | backends/fs/qt/qt-fs.cpp:113-134 | the root and names without a '/' have no parent. For every other path, the path getParent hands to makeNode is its prefix up to and including the last '/' |
| FileSystem.StripAfterSlash | backends/fs/qt/qt-fs.cpp:117-127 | cutting back `dir/` plus a name without '/' gives `dir/` |
| FileSystem.ParentOfChild | backends/fs/qt/qt-fs.cpp:51-134 | for the path getChild(name) hands to makeNode, the path getParent would hand to makeNode is the directory's path with a trailing '/' |
| FileSystem.ChildNode | backends/fs/qt/qt-fs.cpp:86-101 | a listed node has the entry's name and directory flag, the joined path, and the directory's validity |
| FileSystem.Children | backends/fs/qt/qt-fs.cpp:68-111 | a walk lists at most one node per entry |
| FileSystem.ChildrenFilters | backends/fs/qt/qt-fs.cpp:80-104 | every listed node honours the list mode, is neither "." nor "..", and keeps the directory's validity; an invalid directory lists nothing |
| FileSystem.ChildrenAppend | backends/fs/qt/qt-fs.cpp:78-108 | the children of two consecutive walks are the children of each, in order |
| FileSystem.ChildrenMembership | backends/fs/qt/qt-fs.cpp:78-108 | a node is listed if and only if some entry passes every filter and yields it |
| FileSystem.ChildrenOfDirectory | backends/fs/qt/qt-fs.cpp:68-111 | for a directory whose flags setFlags made, the copied validity check never drops an entry: a node is listed exactly when an entry passes the hidden, dot-entry and mode filters and yields it |
| FileSystem.ChildrenHaveParent | backends/fs/qt/qt-fs.cpp:68-134 | every listed child is in the list, and its parent is the directory |
| FileSystem.CreateSucceeded | backends/fs/qt/qt-fs.cpp:144-171 | success means the path now exists and is of the requested kind. A failed mkpath or open is failure, and an existing directory succeeds exactly when it exists as a directory |
| FileSystem.QtFilesystemNode.SetFlags | backends/fs/qt/qt-fs.cpp:33-37 | valid when the path exists, a directory when it also is one, so a directory is always valid |
| FileSystem.QtFilesystemNode.constructor | backends/fs/qt/qt-fs.cpp:39-49 | the path is normalised and absolute, the display name is its last component, and the flags come from the file system |
| FileSystem.QtFilesystemNode.GetChild | backends/fs/qt/qt-fs.cpp:51-66 | the path handed to makeNode is the joined path, and the parent path computed from it is this directory's path with a trailing '/' |
| FileSystem.QtFilesystemNode.GetParent | backends/fs/qt/qt-fs.cpp:113-134 | the loop's answer is `ParentPath` of the node's path |
| FileSystem.QtFilesystemNode.GetChildren | backends/fs/qt/qt-fs.cpp:68-111 | on a directory node (whose flags make it valid), reports success and appends exactly `Children` of the walk, in walk order, to the given list |
| FileSystem.QtFilesystemNode.Create | backends/fs/qt/qt-fs.cpp:144-171 | the answer is `CreateSucceeded`; the flags are re-read only when mkpath or open succeeded, and the path and name are kept |
| Platform.HasFeature | backends/platform/qt/qt.cpp:149-156 | clipboard, keyboard mouse speed and URL opening are supported; other features get the modular backend's answer |
| Platform.BackendFeatures | backends/platform/qt/qt.cpp:149-156 | with the graphics manager answering for the modular backend, all six features are reported |
| Platform.LogMessage | backends/platform/qt/qt.cpp:256-274 | info and debug messages go to stdout and the rest to stderr; the logger gets the message exactly when there is one |
| Platform.LocaleBase | backends/platform/qt/qt.cpp:333-346 | the longest prefix without '.', ' ' or '@', followed by one of them unless it is the whole locale |
| Platform.LocaleBaseOfBase | backends/platform/qt/qt.cpp:333-346 | a language with its charset or modifier appended strips back to itself |
| Platform.GetSystemLanguage | backends/platform/qt/qt.cpp:319-346 | an empty locale falls back to the modular backend; otherwise the loop returns `LocaleBase` of the locale |
| Platform.ScreenshotsPath | backends/platform/qt/qt.cpp:422-427 | an unset path stays empty; a set path ends in '/' and only a '/' is ever added |
| Platform.ScreenshotsPathIdempotent | backends/platform/qt/qt.cpp:422-427 | applying the rule to its own answer changes nothing |
| Platform.DefaultConfigFileName | backends/platform/qt/qt.cpp:445-460 | the application directory's scummvm.ini when one is known and the name fits below MAXPATHLEN, else a bare scummvm.ini |
| Platform.ConfigFileNameSuffix | backends/platform/qt/qt.cpp:445-460 | the name always ends in scummvm.ini |
| Platform.LogDirectory | backends/platform/qt/qt.cpp:468-492 | macOS uses ~/Library/Logs and has no directory without HOME. POSIX uses a set, non-empty XDG_CACHE_HOME, and otherwise the generic cache location, each followed by scummvm/logs |
| Platform.OSystemQt.constructor | backends/platform/qt/qt.cpp:65-73 | no log file is open |
| Platform.OSystemQt.CreateLogFile | backends/platform/qt/qt.cpp:462-511 | a stream is returned exactly when the directory is known, can be created and the file opens. The log path is then scummvm.log in it, and empty otherwise |
| BladeRunnerDetection.MaximumSaveSlot | engines/bladerunner/detection.cpp:113-115 | the largest slot whose %03d form has exactly three digits; the next slot needs four |
| BladeRunnerDetection.HasFeature | engines/bladerunner/detection.cpp:79-87 | exactly the six listed meta-engine features are supported |
| BladeRunnerDetection.Decimal | engines/bladerunner/detection.cpp:118 | printf's digits of a number: at least one, at most three below 1000 |
| BladeRunnerDetection.DecimalValue | engines/bladerunner/detection.cpp:118 | the digits read back as the number |
| BladeRunnerDetection.ZeroPadValue | engines/bladerunner/detection.cpp:118 | zero padding does not change the value |
| BladeRunnerDetection.FormatSlot | engines/bladerunner/detection.cpp:118 | %03d gives three digits for slots 0 to 999 and a leading '-' for negative slots |
| BladeRunnerDetection.SaveFileName | engines/bladerunner/detection.cpp:118 | the name starts with the target and a '.', has at least three characters after it, and for slots 0 to getMaximumSaveSlot matches the listing pattern `<target>.###` |
| BladeRunnerDetection.SkipSpaces | engines/bladerunner/detection.cpp:104 | atoi's leading white-space skip: a suffix of the input that starts with no white space, and the input itself when it starts with none |
| BladeRunnerDetection.SkipSpacesSkipsBlanks | engines/bladerunner/detection.cpp:104 | every character the skip drops is white space, so the skip is exactly the leading white-space run |
| BladeRunnerDetection.DigitPrefix | engines/bladerunner/detection.cpp:104 | atoi's leading digits: a digit prefix of the input that is the longest, since the character after it, if any, is not a digit |
| BladeRunnerDetection.Atoi | engines/bladerunner/detection.cpp:104 | atoi is negative only when a '-' follows the leading blanks |
| BladeRunnerDetection.SlotOf | engines/bladerunner/detection.cpp:104 | a name ending in three digits gives a slot between 0 and getMaximumSaveSlot |
| BladeRunnerDetection.AtoiOfDigits | engines/bladerunner/detection.cpp:104 | atoi of a digit string is its value |
| BladeRunnerDetection.SlotRoundTrip | engines/bladerunner/detection.cpp:91-104 | every slot up to getMaximumSaveSlot names a file the save pattern matches, and listSaves reads the same slot back from it |
| BladeRunnerDetection.PatternSlotInRange | engines/bladerunner/detection.cpp:91-115 | a name the pattern matches parses to a slot between 0 and 999 |
| BladeRunnerDetection.PatternNamesAreSaveNames | engines/bladerunner/detection.cpp:91 | the listing pattern `<target>.###` (`MatchesSavePattern`) matches a name exactly when it is the file of the slot read from it and that slot lies between 0 and getMaximumSaveSlot |
| BladeRunnerDetection.Collected | engines/bladerunner/detection.cpp:93-106 | at most one descriptor per listed file |
| BladeRunnerDetection.CollectedSound | engines/bladerunner/detection.cpp:93-106 | every collected descriptor comes from a listed file that opens, with its slot and its header's name |
| BladeRunnerDetection.CollectedComplete | engines/bladerunner/detection.cpp:93-106 | every listed file that opens contributes its descriptor |
| BladeRunnerDetection.CollectedSlotsInRange | engines/bladerunner/detection.cpp:89-115 | every collected slot lies between 0 and getMaximumSaveSlot |
| BladeRunnerDetection.InsertBySlot | engines/bladerunner/detection.cpp:109 | inserting into a slot-sorted list keeps it sorted and adds exactly the one descriptor |
| BladeRunnerDetection.SortBySlot | engines/bladerunner/detection.cpp:109 | the result is sorted by slot and a permutation of the input |
| BladeRunnerDetection.ListSaves | engines/bladerunner/detection.cpp:89-111 | the list is sorted by slot, a permutation of the descriptors of the files that open, and holds only slots from 0 to 999 |
| BladeRunnerDetection.PermutedSlotsInRange | engines/bladerunner/detection.cpp:89-115 | reordering the collected descriptors keeps every slot in range |
| BladeRunnerDetection.QuerySaveMetaInfos | engines/bladerunner/detection.cpp:122-142 | the empty descriptor exactly when the file does not open or its header or thumbnail cannot be read. Otherwise the slot, the name, the thumbnail, and the date and time from the header |
| BladeRunnerDetection.RemoveSaveState | engines/bladerunner/detection.cpp:117-120 | the slot's file is gone and every other file is kept |
| BladeRunnerDetection.RemoveThenQuery | engines/bladerunner/detection.cpp:117-142 | after removing a slot it has no meta information, and every other slot keeps its own |
| BladeRunnerDetection.SaveNamesDistinct | engines/bladerunner/detection.cpp:113-123 | different slots up to the maximum name different files |
| BladeRunnerDetection.ListAndQueryAgree | engines/bladerunner/detection.cpp:89-142 | a slot with meta information whose file is listed is collected under that slot with the name querySaveMetaInfos reports |

## Left out

- Threads: the handler and the engine thread are not run concurrently. pollEvent's queue lock is a ghost flag. notifyResize writes `_newWidth`, `_newHeight` and `_sizeChanged` without the lock, and that race is not modelled.
- OpenGL: the context, the surfaces, `updateScreen` and `refreshScreen` are left out. In `setupMode` the context steps are the one input `contextOk`.
- The mixer, the timer, `getMillis`, `delayMillis`, `getTimeAndDate` and the save/archive search sets are outside the modelled core.
- Base-class state is reduced to plain fields. This covers `handleResize` (its size is recorded, but its screen-change ID bump is not modelled), `_forceRedraw`, `convertWindowToVirtual` (a parameter), the overlay, and the `beginGFXTransaction`/`endGFXTransaction` commit.
- Graphics.QtGraphicsManager.SetFeatureState: features other than fullscreen and iconify belong to the base class and are left out.
- Unchecked dereferences: the source dereferences `_window` without a null test in `notifyResize` (qt-graphics.cpp:228, reached from pollEvent) and in iconifying (qt-graphics.cpp:101). `EventSource.QtEventSource.PollEvent`, `Graphics.QtGraphicsManager.NotifyResize` and `Graphics.QtGraphicsManager.SetFeatureState` therefore require a window with a QWindow, and the model does not describe the crash on those paths.
- Graphics.QtGraphicsManager.NotifyEvent: the aspect-ratio and filtering toggles are only bookkeeping of `_ignoreLoadVideoMode`. Saving the screenshot (probing for a free file name, writing it) and the OSD messages are not modelled. The asserts after the transactions are stated as a lemma (`ToggleAssertionsNeedVideoModeLoad`) rather than checked at the call.
- `activateManager` and `deactivateManager`, `showMouse` and `getSupportedFormats` are left out; they only call into the base classes.
- The handler's `_graphicsManager` is uninitialised in its constructor; the model starts it as null.
- Window.QtWindow.CreateOrUpdateWindow: a new `QWindow` does not get the stored caption as its title, as in the source, and its size at showFullScreen is the capped size. `warpMouseInWindow` and `hasMouseFocus` depend on Qt's cursor and focus, which are not modelled.
- FileSystem.QtFilesystemNode.GetChild: the model stops at the path handed to `makeNode`. `makeNode` builds a new node, whose constructor (`FileSystem.QtFilesystemNode.constructor`, with `absoluteFilePath` and `normalizePath` as parameters) makes that path absolute and normalises it again, so the trailing '/' that `getParent` hands over is normally dropped. `GetChild`, `GetParent` and `Children` state the path handed over, not the path of the node that results.
- Qt key values are symbolic constructors, not Qt's integer codes; `Key_Other` stands for every unnamed key.
- FileSystem: nodes that `getChildren`, `getChild` and `getParent` create are values (`NodeValue` or paths), not heap objects. `createReadStream` and `createWriteStream` are left out. A listed child copies the directory's validity, because the code copies the node and never re-reads the flags.
- Platform.GetSystemLanguage: only the POSIX branch is modelled; the Windows branch calls the Win32 locale API.
- Platform.LogMessage: the Windows debugger output is left out.
- BladeRunnerDetection.ListSaves: the `InSaveFile` the loop opens is never deleted in the source; memory is not modelled.
- BladeRunnerDetection.Collected: a header that cannot be read is modelled as an empty name, which is what the default-constructed header holds.
- BladeRunnerDetection.SlotOf: for names shorter than three characters the source would read before the string; the model reads the whole name, which the save pattern never lists.
- BladeRunnerDetection.SortBySlot: `Common::sort` is not stable; the model states only that the result is sorted by slot and is a permutation of its input, not which order equal slots end up in.
- BladeRunnerDetection.Atoi: overflow is undefined in C and is not modelled; the save pattern limits the parsed text to three digits.
- The save-file manager's pattern match (`listSavefiles`) is a precondition of `ListSaves`; its own matching, including case folding, belongs to the manager and is left out.
