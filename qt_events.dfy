/**
 * QtEventSource and the QtEventHandler object it owns. The handler runs on the
 * Qt GUI thread and pushes translated events onto the source's queue under the
 * queue lock; the engine thread polls them, after first forwarding a pending
 * window resize to the graphics manager. The lock is a ghost flag here.
 */
module EventSource {
  import opened Wrappers
  import opened Events
  import opened Window
  import opened Graphics
  import opened EventFilter

  /** The fields of a QtEventSource that pollEvent and notifyResize update. */
  datatype SourceState = SourceState(lastScreenID: int, queue: seq<Event>, sizeChanged: bool,
                                     newWidth: UInt32, newHeight: UInt32)

  /** The constructor's state. */
  const InitialSource := SourceState(0, [], false, 0, 0)

  /** What the handler pushes never announces a screen change; only pollEvent makes one up. */
  predicate NoScreenChangedQueued(s: SourceState) {
    forall i | 0 <= i < |s.queue| :: s.queue[i].kind != EVENT_SCREEN_CHANGED
  }

  /** notifyResize: the size is stored in the unsigned fields and marked as pending. */
  function Resized(s: SourceState, width: Int32, height: Int32): (r: SourceState)
    ensures r.sizeChanged
    ensures ToInt32(r.newWidth) == width && ToInt32(r.newHeight) == height
    ensures r.queue == s.queue && r.lastScreenID == s.lastScreenID
  {
    Int32RoundTrip(width);
    Int32RoundTrip(height);
    s.(newWidth := ToUInt32(width), newHeight := ToUInt32(height), sizeChanged := true)
  }

  /** Only the last of several resizes before a poll matters. */
  lemma ResizesCoalesce(s: SourceState, w1: Int32, h1: Int32, w2: Int32, h2: Int32)
    ensures Resized(Resized(s, w1, h1), w2, h2) == Resized(s, w2, h2)
  {
  }

  /** The result of one pollEvent: the new state, the return value, the event, and the size forwarded. */
  datatype PollResult = PollResult(state: SourceState, got: bool, event: Event, forwarded: Option<Size>)

  /** The queue part of pollEvent: the oldest event, or false with the caller's event untouched. */
  function PopQueue(s: SourceState, event: Event, forwarded: Option<Size>): (r: PollResult)
    ensures r.forwarded == forwarded
    ensures r.got <==> s.queue != []
    ensures r.got ==> r.event == s.queue[0] && r.state == s.(queue := s.queue[1..])
    ensures !r.got ==> r.event == event && r.state == s
  {
    if |s.queue| == 0 then PollResult(s, false, event, forwarded)
    else PollResult(s.(queue := s.queue[1..]), true, s.queue[0], forwarded)
  }

  /**
   * pollEvent. `screenID` is None without a graphics manager, otherwise the
   * screen-change ID the manager reports after the forwarded resize.
   */
  function Poll(s: SourceState, screenID: Option<int>, event: Event): (r: PollResult)
    ensures r.forwarded.Some? <==> s.sizeChanged && screenID.Some?
    ensures r.forwarded.Some? ==> r.forwarded == Some(Size(ToInt32(s.newWidth), ToInt32(s.newHeight)))
    ensures r.state.sizeChanged <==> s.sizeChanged && screenID.None?
    ensures r.state.newWidth == s.newWidth && r.state.newHeight == s.newHeight
  {
    if s.sizeChanged && screenID.Some? then
      var cleared := s.(sizeChanged := false);
      var forwarded := Some(Size(ToInt32(s.newWidth), ToInt32(s.newHeight)));
      if screenID.value != s.lastScreenID then
        PollResult(cleared.(lastScreenID := screenID.value), true, event.(kind := EVENT_SCREEN_CHANGED), forwarded)
      else
        PopQueue(cleared, event, forwarded)
    else
      PopQueue(s, event, None)
  }

  /** With no resize to forward, pollEvent is a plain FIFO pop. */
  lemma PollWithoutResize(s: SourceState, screenID: Option<int>, event: Event)
    requires !s.sizeChanged || screenID.None?
    ensures Poll(s, screenID, event) == PopQueue(s, event, None)
  {
  }

  /** A pending resize is forwarded once, with the size notifyResize was given. */
  lemma ResizeForwardedOnce(s: SourceState, width: Int32, height: Int32, id: int, id': Option<int>,
                            event: Event, event': Event)
    ensures Poll(Resized(s, width, height), Some(id), event).forwarded == Some(Size(width, height))
    ensures Poll(Poll(Resized(s, width, height), Some(id), event).state, id', event').forwarded.None?
  {
  }

  /** A resize is kept pending while no graphics manager is attached. */
  lemma ResizeWaitsForManager(s: SourceState, event: Event)
    requires s.sizeChanged
    ensures Poll(s, None, event).state.sizeChanged
    ensures Poll(s, None, event).forwarded.None?
  {
  }

  /**
   * pollEvent reports EVENT_SCREEN_CHANGED exactly when it forwards a resize and the
   * manager's screen-change ID differs from the last one seen; such a poll leaves the
   * queue alone and remembers the new ID.
   */
  lemma ScreenChangedIff(s: SourceState, screenID: Option<int>, event: Event)
    requires NoScreenChangedQueued(s)
    ensures var r := Poll(s, screenID, event);
            (r.got && r.event.kind == EVENT_SCREEN_CHANGED) <==>
              s.sizeChanged && screenID.Some? && screenID.value != s.lastScreenID
    ensures var r := Poll(s, screenID, event);
            r.got && r.event.kind == EVENT_SCREEN_CHANGED ==>
              (r.state.queue == s.queue && r.state.lastScreenID == screenID.value
               && r.event == event.(kind := EVENT_SCREEN_CHANGED))
    ensures NoScreenChangedQueued(Poll(s, screenID, event).state)
  {
    var r := Poll(s, screenID, event);
    if !(s.sizeChanged && screenID.Some? && screenID.value != s.lastScreenID) && r.got {
      assert r.event == s.queue[0];
    }
  }

  /**
   * A forwarded resize that leaves the screen-change ID where it was does not stop
   * the same pollEvent call: it goes on to the queue.
   */
  lemma ResizeWithoutScreenChange(s: SourceState, id: int, event: Event)
    requires s.sizeChanged && id == s.lastScreenID
    ensures Poll(s, Some(id), event) ==
              PopQueue(s.(sizeChanged := false), event, Some(Size(ToInt32(s.newWidth), ToInt32(s.newHeight))))
  {
  }

  /** The events `n` polls deliver, in order; `event` is the caller's record each time. */
  function Delivered(s: SourceState, screenID: Option<int>, n: nat, event: Event): (events: seq<Event>)
    ensures |events| <= n
    decreases n
  {
    if n == 0 then []
    else
      var r := Poll(s, screenID, event);
      (if r.got then [r.event] else []) + Delivered(r.state, screenID, n - 1, event)
  }

  /** Without a pending resize, polling as many times as there are queued events yields the queue in order. */
  lemma {:induction false} QueueDeliveredInOrder(s: SourceState, screenID: Option<int>, event: Event)
    requires !s.sizeChanged
    ensures Delivered(s, screenID, |s.queue|, event) == s.queue
    decreases |s.queue|
  {
    if |s.queue| > 0 {
      var r := Poll(s, screenID, event);
      assert r.got && r.event == s.queue[0] && r.state == s.(queue := s.queue[1..]);
      QueueDeliveredInOrder(r.state, screenID, event);
      assert s.queue == [s.queue[0]] + s.queue[1..];
    }
  }

  /**
   * With a resize pending that changes the screen, the first poll reports the
   * change and the queue follows unchanged.
   */
  lemma ScreenChangeThenQueue(s: SourceState, id: int, event: Event)
    requires s.sizeChanged && id != s.lastScreenID
    ensures Delivered(s, Some(id), |s.queue| + 1, event) == [event.(kind := EVENT_SCREEN_CHANGED)] + s.queue
  {
    var r := Poll(s, Some(id), event);
    assert !r.state.sizeChanged && r.state.queue == s.queue;
    QueueDeliveredInOrder(r.state, Some(id), event);
  }

  /**
   * With a resize pending that leaves the screen as it was, polling as often as
   * there are queued events still drains the whole queue in order.
   */
  lemma {:induction false} ResizeDoesNotBlockQueue(s: SourceState, event: Event)
    requires s.sizeChanged
    ensures Delivered(s, Some(s.lastScreenID), |s.queue|, event) == s.queue
  {
    if |s.queue| > 0 {
      var r := Poll(s, Some(s.lastScreenID), event);
      ResizeWithoutScreenChange(s, s.lastScreenID, event);
      assert r.got && r.event == s.queue[0] && !r.state.sizeChanged && r.state.queue == s.queue[1..];
      assert r.state.lastScreenID == s.lastScreenID;
      QueueDeliveredInOrder(r.state, Some(s.lastScreenID), event);
      assert s.queue == [s.queue[0]] + s.queue[1..];
    }
  }

  /**
   * The position handleMouseEvent and handleWheelEvent push: the event's position,
   * clamped and converted by the graphics manager when one is attached.
   */
  function PushedPosition(ev: QtEvent, managed: bool, drawRect: Rect, toVirtual: Point -> Point): (p: Point)
    ensures OffersMousePosition(ev) && managed ==> p == toVirtual(ClampIntoRect(EventPosition(ev), drawRect))
    ensures (ev.IsMouse() || ev.Wheel?) && !managed ==> p == EventPosition(ev)
  {
    if OffersMousePosition(ev) && managed then toVirtual(ClampIntoRect(EventPosition(ev), drawRect))
    else if ev.IsMouse() || ev.Wheel? then EventPosition(ev)
    else Point(0, 0)
  }

  /**
   * eventFilter's effect on the source: the translated event (if any) is queued,
   * and a resize is recorded when a graphics manager is attached.
   */
  function Filtered(s: SourceState, ev: QtEvent, mouse: Point, managed: bool): (r: SourceState)
    ensures r.queue == s.queue + Translate(ev, mouse)
    ensures NoScreenChangedQueued(s) ==> NoScreenChangedQueued(r)
    ensures ev.Resize? && managed ==> r == Resized(s, ev.width, ev.height)
    ensures !(ev.Resize? && managed) ==> r == s.(queue := s.queue + Translate(ev, mouse))
  {
    if ev.Resize? && managed then
      assert Translate(ev, mouse) == [];
      Resized(s, ev.width, ev.height)
    else
      s.(queue := s.queue + Translate(ev, mouse))
  }

  class QtEventSource {
    var lastScreenID: int
    var graphicsManager: QtGraphicsManager?
    var eventFilter: QtEventHandler?
    var queue: seq<Event>
    var sizeChanged: bool
    var newWidth: UInt32
    var newHeight: UInt32
    /** Whether _eventQueueLock is held. */
    ghost var queueLocked: bool

    function State(): SourceState
      reads this
    {
      SourceState(lastScreenID, queue, sizeChanged, newWidth, newHeight)
    }

    /**
     * The handler belongs to this source and knows the same graphics manager, the
     * lock is free between calls, and the queue holds no screen-change events.
     */
    ghost predicate Valid()
      reads this, eventFilter, graphicsManager, if graphicsManager != null then graphicsManager.window else null
    {
      && eventFilter != null && eventFilter.source == this && eventFilter.gfx == graphicsManager
      && !queueLocked
      && NoScreenChangedQueued(State())
      && (graphicsManager != null ==> graphicsManager.Valid())
    }

    constructor()
      ensures Valid() && State() == InitialSource
      ensures graphicsManager == null && fresh(eventFilter)
    {
      lastScreenID := 0;
      graphicsManager := null;
      queue := [];
      sizeChanged := false;
      newWidth := 0;
      newHeight := 0;
      queueLocked := false;
      new;
      eventFilter := new QtEventHandler(this);
    }

    /** setGraphicsManager: the source and its handler both take the manager. */
    method SetGraphicsManager(manager: QtGraphicsManager?)
      requires Valid()
      requires manager != null ==> manager.Valid()
      modifies this, eventFilter
      ensures Valid() && State() == old(State())
      ensures graphicsManager == manager && eventFilter == old(eventFilter)
    {
      graphicsManager := manager;
      eventFilter.gfx := manager;
    }

    ghost method Lock()
      requires !queueLocked
      modifies this
      ensures queueLocked && State() == old(State())
      ensures graphicsManager == old(graphicsManager) && eventFilter == old(eventFilter)
    {
      queueLocked := true;
    }

    ghost method Unlock()
      requires queueLocked
      modifies this
      ensures !queueLocked && State() == old(State())
      ensures graphicsManager == old(graphicsManager) && eventFilter == old(eventFilter)
    {
      queueLocked := false;
    }

    /** The queue is only ever pushed to with the lock held. */
    method Push(e: Event)
      requires queueLocked
      modifies this
      ensures queueLocked && State() == old(State()).(queue := old(queue) + [e])
      ensures graphicsManager == old(graphicsManager) && eventFilter == old(eventFilter)
    {
      queue := queue + [e];
    }

    /** notifyResize, called by the handler without taking the lock. */
    method NotifyResize(width: Int32, height: Int32)
      modifies this
      ensures State() == Resized(old(State()), width, height)
      ensures queueLocked == old(queueLocked)
      ensures graphicsManager == old(graphicsManager) && eventFilter == old(eventFilter)
    {
      newWidth := ToUInt32(width);
      newHeight := ToUInt32(height);
      sizeChanged := true;
    }

    /**
     * pollEvent. A pending resize goes to the graphics manager first (whose
     * notifyResize reads the QWindow unchecked); then EVENT_SCREEN_CHANGED or the
     * oldest queued event is returned.
     */
    method PollEvent(event: Event) returns (got: bool, result: Event)
      requires Valid()
      requires sizeChanged && graphicsManager != null ==> graphicsManager.HasQWindow()
      modifies this, graphicsManager
      ensures Valid()
      ensures graphicsManager == old(graphicsManager) && eventFilter == old(eventFilter)
      ensures var r := Poll(old(State()), if graphicsManager != null then Some(graphicsManager.screenChangeID) else None, event);
              State() == r.state && got == r.got && result == r.event
      ensures graphicsManager != null ==>
                var r := Poll(old(State()), Some(graphicsManager.screenChangeID), event);
                graphicsManager.State() ==
                  if r.forwarded.Some? then
                    AfterNotifyResize(old(graphicsManager.State()), r.forwarded.value.width, r.forwarded.value.height,
                                      graphicsManager.window.qwindow.value.size)
                  else old(graphicsManager.State())
    {
      Lock();
      if sizeChanged {
        if graphicsManager != null {
          sizeChanged := false;
          graphicsManager.NotifyResize(ToInt32(newWidth), ToInt32(newHeight));
          var screenID := graphicsManager.screenChangeID;
          if screenID != lastScreenID {
            lastScreenID := screenID;
            result := event.(kind := EVENT_SCREEN_CHANGED);
            Unlock();
            return true, result;
          }
        }
      }
      if |queue| == 0 {
        Unlock();
        return false, event;
      }
      result := queue[0];
      queue := queue[1..];
      Unlock();
      return true, result;
    }
  }

  class QtEventHandler {
    const source: QtEventSource
    /** _graphicsManager, set by setGraphicsManager (null until then). */
    var gfx: QtGraphicsManager?

    constructor(source: QtEventSource)
      ensures this.source == source && gfx == null
    {
      this.source := source;
      gfx := null;
    }

    /** The handler's view is the source's: a valid source whose handler is this one. */
    ghost predicate Ready()
      reads this, source, source.eventFilter, source.graphicsManager,
            if source.graphicsManager != null then source.graphicsManager.window else null
    {
      source.Valid() && source.eventFilter == this
    }

    /** Push one event under the queue lock. */
    method Enqueue(e: Event)
      requires Ready() && e.kind != EVENT_SCREEN_CHANGED
      modifies source
      ensures Ready()
      ensures source.State() == old(source.State()).(queue := old(source.queue) + [e])
    {
      source.Lock();
      source.Push(e);
      source.Unlock();
    }

    /** handleCloseEvent: queue EVENT_QUIT. */
    method HandleCloseEvent()
      requires Ready()
      modifies source
      ensures Ready()
      ensures source.State() == old(source.State()).(queue := old(source.queue) + [DefaultEvent.(kind := EVENT_QUIT)])
    {
      var e := DefaultEvent.(kind := EVENT_QUIT);
      Enqueue(e);
    }

    /** handleKeyEvent: queue the key record. */
    method HandleKeyEvent(ev: QtEvent)
      requires Ready() && ev.IsKey()
      modifies source
      ensures Ready()
      ensures source.State() == old(source.State()).(queue := old(source.queue) + [KeyEventRecord(ev)])
    {
      var e := DefaultEvent;
      e := e.(kind := if ev.KeyPress? then EVENT_KEYDOWN else EVENT_KEYUP);
      e := e.(kbd := e.kbd.(keycode := QtToOSystemKeycode(ev.key)));
      e := e.(kbd := e.kbd.(ascii := if |ev.text| != 0 then ev.text[0] else 0));
      e := e.(kbdRepeat := ev.autoRepeat);
      e := e.(kbd := e.kbd.(flags := ModifierFlags(ev.modifiers)));
      Enqueue(e);
    }

    /**
     * handleMouseEvent: an unhandled button returns before anything happens;
     * otherwise the manager (if any) sees and adjusts the position, and the event
     * is queued.
     */
    method HandleMouseEvent(ev: QtEvent)
      requires Ready() && ev.IsMouse()
      modifies source, gfx
      ensures Ready()
      ensures gfx != null ==>
                source.State() == Filtered(old(source.State()), ev,
                                           PushedPosition(ev, true, old(gfx.drawRect), gfx.windowToVirtual), true)
      ensures gfx == null ==> source.State() == Filtered(old(source.State()), ev, EventPosition(ev), false)
      ensures gfx != null ==>
                gfx.State() == if OffersMousePosition(ev) then MouseNoted(old(gfx.State()), EventPosition(ev))
                               else old(gfx.State())
    {
      var kind := MouseEventType(ev);
      if kind.None? {
        return;
      }
      var e := DefaultEvent.(kind := kind.value);
      e := e.(mouse := Point(ToInt16(ev.x), ToInt16(ev.y)));
      if gfx != null {
        var _, converted := gfx.NotifyMousePosition(e.mouse);
        e := e.(mouse := converted);
      }
      Enqueue(e);
    }

    /** handleResizeEvent: the size goes to the source only when a graphics manager is attached. */
    method HandleResizeEvent(ev: QtEvent)
      requires Ready() && ev.Resize?
      modifies source
      ensures Ready()
      ensures source.State() == if gfx != null then Resized(old(source.State()), ev.width, ev.height)
                                else old(source.State())
    {
      if gfx != null {
        source.NotifyResize(ev.width, ev.height);
      }
    }

    /** handleWheelEvent: the manager always sees the position; the sign of the delta picks the event. */
    method HandleWheelEvent(ev: QtEvent)
      requires Ready() && ev.Wheel?
      modifies source, gfx
      ensures Ready()
      ensures gfx != null ==>
                source.State() == Filtered(old(source.State()), ev,
                                           PushedPosition(ev, true, old(gfx.drawRect), gfx.windowToVirtual), true)
      ensures gfx == null ==> source.State() == Filtered(old(source.State()), ev, EventPosition(ev), false)
      ensures gfx != null ==> gfx.State() == MouseNoted(old(gfx.State()), EventPosition(ev))
    {
      var yDir := ev.angleDeltaY;
      var e := DefaultEvent.(mouse := Point(ToInt16(ev.x), ToInt16(ev.y)));
      if gfx != null {
        var _, converted := gfx.NotifyMousePosition(e.mouse);
        e := e.(mouse := converted);
      }
      if yDir < 0 {
        e := e.(kind := EVENT_WHEELDOWN);
        Enqueue(e);
      } else if yDir > 0 {
        e := e.(kind := EVENT_WHEELUP);
        Enqueue(e);
      }
    }

    /**
     * eventFilter: key, mouse, wheel, resize and close events are handled and
     * reported as consumed; everything else is left to Qt's standard processing.
     */
    method EventFilter(ev: QtEvent) returns (consumed: bool)
      requires Ready()
      modifies source, gfx
      ensures Ready()
      ensures consumed == Consumed(ev)
      ensures var mouse := if gfx != null then PushedPosition(ev, true, old(gfx.drawRect), gfx.windowToVirtual)
                           else PushedPosition(ev, false, Rect(0, 0, 0, 0), p => p);
              source.State() == Filtered(old(source.State()), ev, mouse, gfx != null)
      ensures gfx != null ==>
                gfx.State() == if OffersMousePosition(ev) then MouseNoted(old(gfx.State()), EventPosition(ev))
                               else old(gfx.State())
    {
      if ev.IsKey() {
        HandleKeyEvent(ev);
        return true;
      } else if ev.IsMouse() {
        HandleMouseEvent(ev);
        return true;
      } else if ev.Wheel? {
        HandleWheelEvent(ev);
        return true;
      } else if ev.Resize? {
        HandleResizeEvent(ev);
        return true;
      } else if ev.Close? {
        HandleCloseEvent();
        return true;
      }
      return false;
    }
  }
}
