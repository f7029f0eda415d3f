/**
 The page script js/app.js. It repeats app.js up to line 113, except that its
 option handler (lines 96-101) queries `#imageSelect .image-option` where app.js
 queries `#floatingSelect .image-option`, and it adds the
 resize controller and two feedback messages with fading timers. Its second
 `async function refreshGlobeImage` (lines 194-197) is hoisted over the first
 (lines 90-94), so the refresh that clicks reach neither cancels nor re-arms the
 scheduler: it presents and then shows "Refresh successful!".
 */
module JsApp {
  import opened Browser
  import opened Schedule
  import opened Presenter
  import opened Picker
  import opened Resize

  /** The two message elements: #resizeMsg and #refreshMsg. */
  datatype Slot = ResizeMsg | RefreshMsg

  /** The callbacks of the timers js/app.js arms. */
  datatype Task =
    | Tick              // the scheduler tick (lines 83-86)
    | Fade(slot: Slot)  // the 800 ms fade-out (lines 140-147)
    | ClearText(slot: Slot)  // the nested 500 ms text clear (lines 144-146), never tracked

  const FadeDelay := 800
  const ClearDelay := 500
  const RefreshText := "Refresh successful!"

  /** The text and opacity of a message element. */
  datatype Message = Message(text: string, opacity: string)

  /** The message an element shows before any update. */
  const Blank := Message("", "")

  class Page {
    const timers: Timers<Task>
    /** The `#imageSelect .image-option` elements, in document order. */
    const items: array<Item>
    var updateTimer: Option<Handle>
    var selectedType: string
    /** The background style of the globe container. */
    var style: Style
    var containerSize: int
    var resizeMsg: Message
    var refreshMsg: Message
    var resizeTimeout: Option<Handle>
    var refreshTimeout: Option<Handle>

    function MessageOf(s: Slot): Message
      reads this
    {
      match s
      case ResizeMsg => resizeMsg
      case RefreshMsg => refreshMsg
    }

    function TimeoutOf(s: Slot): Option<Handle>
      reads this
    {
      match s
      case ResizeMsg => resizeTimeout
      case RefreshMsg => refreshTimeout
    }

    ghost predicate IssuedHandle(h: Option<Handle>)
      reads this, timers
    {
      h.Some? ==> 1 <= h.value < timers.next
    }

    /** The handle variable that records timers of kind t; ClearText timers
        have none. */
    function Recorder(t: Task): Option<Handle>
      reads this
    {
      match t
      case Tick => updateTimer
      case Fade(s) => TimeoutOf(s)
      case ClearText(_) => None
    }

    /** The pending scheduler tick is the one updateTimer names and a pending fade
        the one its slot's variable names, so at most one of each is pending, and
        the size stays within its bounds. Clear-text timers are not tracked by
        anything. The three variables hold distinct issued handles. */
    ghost predicate Valid()
      reads this, timers
    {
      timers.Valid() &&
      IssuedHandle(updateTimer) && IssuedHandle(resizeTimeout) && IssuedHandle(refreshTimeout) &&
      (updateTimer.Some? ==> updateTimer != resizeTimeout && updateTimer != refreshTimeout) &&
      (resizeTimeout.Some? ==> resizeTimeout != refreshTimeout) &&
      (forall h :: h in timers.pending && !timers.pending[h].task.ClearText? ==>
         Recorder(timers.pending[h].task) == Some(h)) &&
      MinSize <= containerSize <= MaxSize
    }

    /** The state when the script has loaded, before line 116 runs. */
    constructor (options: array<Item>)
      ensures Valid()
      ensures fresh(timers) && timers.pending == map[]
      ensures items == options
      ensures updateTimer == None && selectedType == DefaultVariant && style == Unstyled
      ensures containerSize == InitialSize
      ensures resizeMsg == Blank && refreshMsg == Blank
      ensures resizeTimeout == None && refreshTimeout == None
    {
      timers := new Timers();
      items := options;
      updateTimer := None;
      selectedType := DefaultVariant;
      style := Unstyled;
      containerSize := InitialSize;
      resizeMsg, refreshMsg := Blank, Blank;
      resizeTimeout, refreshTimeout := None, None;
    }

    /** setGlobeImage (lines 32-53), its two awaits answered by f. */
    method SetGlobeImage(f: Fetch)
      modifies this
      ensures style == Present(old(style), selectedType, f)
      ensures updateTimer == old(updateTimer) && selectedType == old(selectedType)
      ensures containerSize == old(containerSize)
      ensures resizeMsg == old(resizeMsg) && refreshMsg == old(refreshMsg)
      ensures resizeTimeout == old(resizeTimeout) && refreshTimeout == old(refreshTimeout)
    {
      style := Present(style, selectedType, f);
    }

    /** scheduleNextUpdate (lines 55-87) at clock c; extra is the outcome of the
        immediate setGlobeImage run it starts at :x0:00. The previous tick is
        cancelled, a new one waits Delay(c) and updateTimer names it; the message
        timers are untouched. */
    method ScheduleNextUpdate(c: Clock, extra: Fetch)
      requires Valid()
      modifies this, timers
      ensures Valid()
      ensures updateTimer == Some(old(timers.next))
      ensures old(timers.next) !in old(timers.pending)
      ensures timers.pending ==
                (old(timers.pending) - (if old(updateTimer).Some? then {old(updateTimer).value} else {}))
                [old(timers.next) := Job(Tick, Delay(c))]
      ensures forall h :: h in timers.pending && timers.pending[h].task == Tick ==> h == old(timers.next)
      ensures timers.next == old(timers.next) + 1
      ensures style == (if ImmediateRefresh(c) then Present(old(style), selectedType, extra) else old(style))
      ensures selectedType == old(selectedType) && containerSize == old(containerSize)
      ensures resizeMsg == old(resizeMsg) && refreshMsg == old(refreshMsg)
      ensures resizeTimeout == old(resizeTimeout) && refreshTimeout == old(refreshTimeout)
    {
      if ImmediateRefresh(c) {
        SetGlobeImage(extra);
      }
      if updateTimer.Some? {
        timers.ClearTimeout(updateTimer);
      }
      var h := timers.SetTimeout(Tick, Delay(c));
      updateTimer := Some(h);
    }

    /** updateMessage(element, message, timeoutVar) (lines 132-155). Both callers
        pass the element's own variable as timeoutVar (lines 166, 196). Only the
        outer fade timer is cancelled and recorded. */
    method UpdateMessage(element: Slot, message: string, timeoutVar: Option<Handle>)
      requires Valid()
      requires timeoutVar == TimeoutOf(element)
      modifies this, timers
      ensures Valid()
      ensures MessageOf(element) == Message(message, "1")
      ensures forall s :: s != element ==> MessageOf(s) == old(MessageOf(s)) && TimeoutOf(s) == old(TimeoutOf(s))
      ensures TimeoutOf(element) == Some(old(timers.next))
      ensures old(timers.next) !in old(timers.pending)
      ensures timers.pending ==
                (old(timers.pending) - (if timeoutVar.Some? then {timeoutVar.value} else {}))
                [old(timers.next) := Job(Fade(element), FadeDelay)]
      ensures timers.next == old(timers.next) + 1
      ensures updateTimer == old(updateTimer) && selectedType == old(selectedType)
      ensures style == old(style) && containerSize == old(containerSize)
    {
      SetText(element, message);
      SetOpacity(element, "1");
      timers.ClearTimeout(timeoutVar);
      var h := timers.SetTimeout(Fade(element), FadeDelay);
      if element == ResizeMsg {
        resizeTimeout := Some(h);
      } else {
        refreshTimeout := Some(h);
      }
    }

    /** element.textContent = text */
    method SetText(element: Slot, text: string)
      modifies this
      ensures MessageOf(element) == old(MessageOf(element)).(text := text)
      ensures forall s :: s != element ==> MessageOf(s) == old(MessageOf(s))
      ensures resizeTimeout == old(resizeTimeout) && refreshTimeout == old(refreshTimeout)
      ensures updateTimer == old(updateTimer) && selectedType == old(selectedType)
      ensures style == old(style) && containerSize == old(containerSize)
    {
      if element == ResizeMsg {
        resizeMsg := resizeMsg.(text := text);
      } else {
        refreshMsg := refreshMsg.(text := text);
      }
    }

    /** element.style.opacity = opacity */
    method SetOpacity(element: Slot, opacity: string)
      modifies this
      ensures MessageOf(element) == old(MessageOf(element)).(opacity := opacity)
      ensures forall s :: s != element ==> MessageOf(s) == old(MessageOf(s))
      ensures resizeTimeout == old(resizeTimeout) && refreshTimeout == old(refreshTimeout)
      ensures updateTimer == old(updateTimer) && selectedType == old(selectedType)
      ensures style == old(style) && containerSize == old(containerSize)
    {
      if element == ResizeMsg {
        resizeMsg := resizeMsg.(opacity := opacity);
      } else {
        refreshMsg := refreshMsg.(opacity := opacity);
      }
    }

    /** The event loop runs timer h, if it is still pending: a tick presents with
        outcome f and reschedules at clock c; a fade hides its message and arms the
        untracked text clear; a text clear empties its message. */
    method Fire(h: Handle, f: Fetch, c: Clock, extra: Fetch) returns (ran: bool)
      requires Valid()
      modifies this, timers
      ensures Valid()
      ensures ran == (h in old(timers.pending))
      ensures !ran ==> timers.pending == old(timers.pending) && timers.next == old(timers.next) &&
                       style == old(style) && updateTimer == old(updateTimer) &&
                       resizeMsg == old(resizeMsg) && refreshMsg == old(refreshMsg)
      ensures ran && old(timers.pending[h]).task == Tick ==>
                updateTimer == Some(old(timers.next)) &&
                timers.pending == (old(timers.pending) - {h})[old(timers.next) := Job(Tick, Delay(c))] &&
                style == AfterCycle(old(style), selectedType, f, c, extra) &&
                resizeMsg == old(resizeMsg) && refreshMsg == old(refreshMsg)
      ensures ran && old(timers.pending[h]).task.Fade? ==>
                var s := old(timers.pending[h]).task.slot;
                MessageOf(s) == old(MessageOf(s)).(opacity := "0") &&
                (forall t :: t != s ==> MessageOf(t) == old(MessageOf(t))) &&
                timers.pending == (old(timers.pending) - {h})[old(timers.next) := Job(ClearText(s), ClearDelay)] &&
                style == old(style) && updateTimer == old(updateTimer)
      ensures ran && old(timers.pending[h]).task.ClearText? ==>
                var s := old(timers.pending[h]).task.slot;
                MessageOf(s) == old(MessageOf(s)).(text := "") &&
                (forall t :: t != s ==> MessageOf(t) == old(MessageOf(t))) &&
                timers.pending == old(timers.pending) - {h} &&
                style == old(style) && updateTimer == old(updateTimer)
      ensures selectedType == old(selectedType) && containerSize == old(containerSize)
      ensures resizeTimeout == old(resizeTimeout) && refreshTimeout == old(refreshTimeout)
    {
      var job := timers.Take(h);
      ran := job.Some?;
      if ran {
        match job.value.task
        case Tick =>
          SetGlobeImage(f);
          ScheduleNextUpdate(c, extra);
        case Fade(s) =>
          SetOpacity(s, "0");
          var _ := timers.SetTimeout(ClearText(s), ClearDelay);
        case ClearText(s) =>
          SetText(s, "");
      }
    }

    /** resizeGlobe(change) (lines 158-167). */
    method ResizeGlobe(change: int)
      requires Valid()
      modifies this, timers
      ensures Valid()
      ensures containerSize == Resized(old(containerSize), change)
      ensures OnGrid(old(containerSize)) && (change == 10 || change == -10) ==> OnGrid(containerSize)
      ensures resizeMsg == Message(SizeMessage(containerSize), "1")
      ensures refreshMsg == old(refreshMsg) && refreshTimeout == old(refreshTimeout)
      ensures resizeTimeout == Some(old(timers.next))
      ensures timers.pending ==
                (old(timers.pending) - (if old(resizeTimeout).Some? then {old(resizeTimeout).value} else {}))
                [old(timers.next) := Job(Fade(ResizeMsg), FadeDelay)]
      ensures updateTimer == old(updateTimer) && selectedType == old(selectedType) && style == old(style)
    {
      containerSize := Resized(containerSize, change);
      if OnGrid(old(containerSize)) && (change == 10 || change == -10) {
        ResizedStepOnGrid(old(containerSize), change);
      }
      assert Valid();
      var text := SizeMessage(containerSize);
      UpdateMessage(ResizeMsg, text, resizeTimeout);
      assert MessageOf(RefreshMsg) == old(MessageOf(RefreshMsg));
      assert TimeoutOf(RefreshMsg) == old(TimeoutOf(RefreshMsg));
    }

    /** The wheel, keydown and button listeners (lines 170-191): each calls
        resizeGlobe with the change its input maps to, or does nothing. */
    method HandleInput(e: Input)
      requires Valid()
      modifies this, timers
      ensures Valid()
      ensures Change(e).None? ==> containerSize == old(containerSize) && resizeMsg == old(resizeMsg) &&
                                  resizeTimeout == old(resizeTimeout) &&
                                  timers.pending == old(timers.pending) && timers.next == old(timers.next)
      ensures Change(e).Some? ==> containerSize == Resized(old(containerSize), Change(e).value) &&
                                  resizeMsg == Message(SizeMessage(containerSize), "1") &&
                                  resizeTimeout == Some(old(timers.next)) &&
                                  timers.pending ==
                                    (old(timers.pending) - (if old(resizeTimeout).Some? then {old(resizeTimeout).value} else {}))
                                    [old(timers.next) := Job(Fade(ResizeMsg), FadeDelay)]
      ensures OnGrid(old(containerSize)) ==> OnGrid(containerSize)
      ensures updateTimer == old(updateTimer) && selectedType == old(selectedType) && style == old(style)
      ensures refreshMsg == old(refreshMsg) && refreshTimeout == old(refreshTimeout)
    {
      var change := Change(e);
      if change.Some? {
        ResizeGlobe(change.value);
      }
    }

    /** The effective refreshGlobeImage (lines 194-197), run by a click on the globe
        (line 122) and by the option click handler: presents, then shows the success
        message whether or not the image changed. The scheduler is left alone. */
    method RefreshGlobeImage(f: Fetch)
      requires Valid()
      modifies this, timers
      ensures Valid()
      ensures style == Present(old(style), selectedType, f)
      ensures refreshMsg == Message(RefreshText, "1")
      ensures refreshTimeout == Some(old(timers.next))
      ensures timers.pending ==
                (old(timers.pending) - (if old(refreshTimeout).Some? then {old(refreshTimeout).value} else {}))
                [old(timers.next) := Job(Fade(RefreshMsg), FadeDelay)]
      ensures timers.next == old(timers.next) + 1
      ensures forall h :: h in old(timers.pending) && old(timers.pending[h]).task == Tick ==>
                h in timers.pending && timers.pending[h] == old(timers.pending[h])
      ensures updateTimer == old(updateTimer) && selectedType == old(selectedType)
      ensures resizeMsg == old(resizeMsg) && resizeTimeout == old(resizeTimeout)
      ensures containerSize == old(containerSize)
    {
      SetGlobeImage(f);
      UpdateMessage(RefreshMsg, RefreshText, refreshTimeout);
      assert MessageOf(ResizeMsg) == old(MessageOf(ResizeMsg));
      assert TimeoutOf(ResizeMsg) == old(TimeoutOf(ResizeMsg));
    }

    /** The click handler of option k (lines 98-112): mark it as the only selected
        option, adopt its value, then run the effective refresh. */
    method ClickOption(k: nat, f: Fetch)
      requires Valid()
      requires k < items.Length
      modifies this, timers, items
      ensures Valid()
      ensures items[..] == SelectAt(old(items[..]), k)
      ensures selectedType == old(items[k].value)
      ensures style == Present(old(style), old(items[k].value), f)
      ensures refreshMsg == Message(RefreshText, "1")
      ensures refreshTimeout == Some(old(timers.next))
      ensures timers.pending ==
                (old(timers.pending) - (if old(refreshTimeout).Some? then {old(refreshTimeout).value} else {}))
                [old(timers.next) := Job(Fade(RefreshMsg), FadeDelay)]
      ensures timers.next == old(timers.next) + 1
      ensures forall h :: h in old(timers.pending) && old(timers.pending[h]).task == Tick ==>
                h in timers.pending && timers.pending[h] == old(timers.pending[h])
      ensures updateTimer == old(updateTimer)
      ensures resizeMsg == old(resizeMsg) && resizeTimeout == old(resizeTimeout)
      ensures containerSize == old(containerSize)
    {
      var value := Select(items, k);
      selectedType := value;
      RefreshGlobeImage(f);
    }

    /** Line 116: the first image, then the scheduler. */
    method Start(f: Fetch, c: Clock, extra: Fetch)
      requires Valid()
      modifies this, timers
      ensures Valid()
      ensures updateTimer == Some(old(timers.next))
      ensures forall h :: h in timers.pending && timers.pending[h].task == Tick ==> h == old(timers.next)
      ensures timers.pending ==
                (old(timers.pending) - (if old(updateTimer).Some? then {old(updateTimer).value} else {}))
                [old(timers.next) := Job(Tick, Delay(c))]
      ensures timers.next == old(timers.next) + 1
      ensures style == AfterCycle(old(style), selectedType, f, c, extra)
      ensures selectedType == old(selectedType) && containerSize == old(containerSize)
      ensures resizeMsg == old(resizeMsg) && refreshMsg == old(refreshMsg)
      ensures resizeTimeout == old(resizeTimeout) && refreshTimeout == old(refreshTimeout)
    {
      SetGlobeImage(f);
      ScheduleNextUpdate(c, extra);
    }
  }

  /** A message left alone fades 800 ms after it is shown and is emptied 500 ms
      later: firing its fade timer and then the clear timer that arms leaves the
      element with opacity "0" and no text. */
  method FadeThenClear(items: array<Item>) returns (m: Message)
    ensures m == Message("", "0")
  {
    var p := new Page(items);
    p.RefreshGlobeImage(Fetch(None, false));
    var fade := p.refreshTimeout.value;
    var clear := p.timers.next;
    var ran := p.Fire(fade, Fetch(None, false), Clock(0, 1), Fetch(None, false));
    ran := p.Fire(clear, Fetch(None, false), Clock(0, 1), Fetch(None, false));
    m := p.refreshMsg;
  }

  /** The clear timer armed by a fade is not tracked, so a second resize between
      a fade and its clear does not cancel it: the clear then empties the newer
      message while it is still fully visible and its own fade is pending. */
  method ResizeAcrossFade(items: array<Item>) returns (m: Message, newerFadePending: bool)
    ensures m == Message("", "1") && newerFadePending
  {
    var p := new Page(items);
    p.ResizeGlobe(10);
    var fade := p.resizeTimeout.value;
    var clear := p.timers.next;
    var ran := p.Fire(fade, Fetch(None, false), Clock(0, 1), Fetch(None, false));
    p.ResizeGlobe(10);
    var newerFade := p.resizeTimeout.value;
    ran := p.Fire(clear, Fetch(None, false), Clock(0, 1), Fetch(None, false));
    m := p.resizeMsg;
    newerFadePending := newerFade in p.timers.pending;
  }
}
