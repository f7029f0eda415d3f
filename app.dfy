/**
 The page script app.js: its module-level state (updateTimer, selectedType),
 the globe container's background, the variant options, and the browser's
 timer queue, with the script's handlers as methods. The only timers this
 script arms are scheduler ticks (lines 83-86).
 */
module App {
  import opened Browser
  import opened Schedule
  import opened Presenter
  import opened Picker

  /** The callback of the one kind of timer app.js arms:
      `() => { setGlobeImage(); scheduleNextUpdate(); }`. */
  datatype Task = Tick

  class Page {
    const timers: Timers<Task>
    /** The `#floatingSelect .image-option` elements, in document order. */
    const items: array<Item>
    var updateTimer: Option<Handle>
    var selectedType: string
    /** The style of the globe container. */
    var style: Style

    /** Every pending scheduler timer is the one updateTimer names, so at most one
        is pending; updateTimer holds a handle the queue handed out. */
    ghost predicate Valid()
      reads this, timers
    {
      timers.Valid() &&
      (updateTimer.Some? ==> 1 <= updateTimer.value < timers.next) &&
      forall h :: h in timers.pending ==> updateTimer == Some(h)
    }

    /** The state when the script has loaded, before line 116 runs. */
    constructor (options: array<Item>)
      ensures Valid()
      ensures fresh(timers) && timers.pending == map[]
      ensures items == options
      ensures updateTimer == None && selectedType == DefaultVariant && style == Unstyled
    {
      timers := new Timers();
      items := options;
      updateTimer := None;
      selectedType := DefaultVariant;
      style := Unstyled;
    }

    /** setGlobeImage (lines 32-53), its two awaits answered by f. */
    method SetGlobeImage(f: Fetch)
      modifies this
      ensures style == Present(old(style), selectedType, f)
      ensures updateTimer == old(updateTimer) && selectedType == old(selectedType)
    {
      style := Present(style, selectedType, f);
    }

    /** scheduleNextUpdate (lines 55-87) at clock c; extra is the outcome of the
        immediate setGlobeImage run it starts at :x0:00. Afterwards exactly one
        scheduler timer is pending, updateTimer names it, it waits Delay(c), and
        the one pending before has been cancelled. */
    method ScheduleNextUpdate(c: Clock, extra: Fetch)
      requires Valid()
      modifies this, timers
      ensures Valid()
      ensures updateTimer == Some(old(timers.next))
      ensures old(timers.next) !in old(timers.pending)
      ensures timers.pending == map[updateTimer.value := Job(Tick, Delay(c))]
      ensures timers.next == old(timers.next) + 1
      ensures style == (if ImmediateRefresh(c) then Present(old(style), selectedType, extra) else old(style))
      ensures selectedType == old(selectedType)
    {
      if ImmediateRefresh(c) {
        SetGlobeImage(extra);
      }
      if updateTimer.Some? {
        timers.ClearTimeout(updateTimer);
      }
      assert timers.pending == map[];
      var h := timers.SetTimeout(Tick, Delay(c));
      updateTimer := Some(h);
    }

    /** The event loop runs timer h, if it is still pending: a tick presents with
        outcome f, then reschedules at clock c. */
    method Fire(h: Handle, f: Fetch, c: Clock, extra: Fetch) returns (ran: bool)
      requires Valid()
      modifies this, timers
      ensures Valid()
      ensures ran == (h in old(timers.pending))
      ensures !ran ==> timers.pending == old(timers.pending) && style == old(style) &&
                       updateTimer == old(updateTimer) && timers.next == old(timers.next)
      ensures ran ==> updateTimer == Some(old(timers.next)) &&
                      timers.pending == map[old(timers.next) := Job(Tick, Delay(c))] &&
                      style == AfterCycle(old(style), selectedType, f, c, extra)
      ensures selectedType == old(selectedType)
    {
      var job := timers.Take(h);
      ran := job.Some?;
      if ran {
        SetGlobeImage(f);
        ScheduleNextUpdate(c, extra);
      }
    }

    /** refreshGlobeImage (lines 90-94), also the click handler of the refresh
        button (lines 119-121): stops the pending tick, presents, and restarts the
        scheduler once the presentation has settled. */
    method RefreshGlobeImage(f: Fetch, c: Clock, extra: Fetch)
      requires Valid()
      modifies this, timers
      ensures Valid()
      ensures old(updateTimer).Some? ==> old(updateTimer).value !in timers.pending
      ensures updateTimer == Some(old(timers.next))
      ensures timers.pending == map[old(timers.next) := Job(Tick, Delay(c))]
      ensures style == AfterCycle(old(style), selectedType, f, c, extra)
      ensures selectedType == old(selectedType)
    {
      if updateTimer.Some? {
        timers.ClearTimeout(updateTimer);
      }
      SetGlobeImage(f);
      ScheduleNextUpdate(c, extra);
    }

    /** The click handler of option k (lines 98-112): mark it as the only selected
        option, adopt its value, then refresh with the new variant. */
    method ClickOption(k: nat, f: Fetch, c: Clock, extra: Fetch)
      requires Valid()
      requires k < items.Length
      modifies this, timers, items
      ensures Valid()
      ensures items[..] == SelectAt(old(items[..]), k)
      ensures selectedType == old(items[k].value)
      ensures updateTimer == Some(old(timers.next))
      ensures timers.pending == map[old(timers.next) := Job(Tick, Delay(c))]
      ensures style == AfterCycle(old(style), old(items[k].value), f, c, extra)
    {
      var value := Select(items, k);
      selectedType := value;
      RefreshGlobeImage(f, c, extra);
    }

    /** Line 116: the first image, then the scheduler. */
    method Start(f: Fetch, c: Clock, extra: Fetch)
      requires Valid()
      modifies this, timers
      ensures Valid()
      ensures updateTimer == Some(old(timers.next))
      ensures timers.pending == map[old(timers.next) := Job(Tick, Delay(c))]
      ensures style == AfterCycle(old(style), selectedType, f, c, extra)
      ensures selectedType == old(selectedType)
    {
      SetGlobeImage(f);
      ScheduleNextUpdate(c, extra);
    }
  }
}
