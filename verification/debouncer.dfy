/** A trailing-edge debounce with a starvation ceiling, on timers that fire on time. */
module Debouncers {
  import opened Options

  type Time = real

  function AtLeastZero(t: Time): (r: Time)
    ensures r >= 0.0
  {
    if t > 0.0 then t else 0.0
  }

  function Least(a: Time, b: Time): Time {
    if a < b then a else b
  }

  /**
   * A call of the debouncer, with the delay read at a schedule. A flush that fires runs `fn`, which makes calls too.
   */
  datatype Call = Schedule(delayMs: Time) | Cancel | Flush(fn: seq<Call>)

  /** What happens to a debouncer: a call, the passing of time, and its timer, which fires when it is due. */
  datatype Event = Made(call: Call) | Elapsed(ms: Time) | TimerFired(fn: seq<Call>)

  /** The clock, the time the armed timer is due, the time the pending window began, and how often `fn` ran. */
  datatype State = State(now: Time, timer: Option<Time>, sinceFirstSchedule: Option<Time>, runs: nat)

  function Scheduled(maxWaitMs: Option<Time>, s: State, delayMs: Time): State {
    var first := if s.sinceFirstSchedule.Some? then s.sinceFirstSchedule.value else s.now;
    var delay := AtLeastZero(delayMs);
    var untilCeiling := if maxWaitMs.Some? then AtLeastZero(maxWaitMs.value - (s.now - first)) else delay;
    State(s.now, Some(s.now + Least(delay, untilCeiling)), Some(first), s.runs)
  }

  function Cleared(s: State): State {
    s.(timer := None, sinceFirstSchedule := None)
  }

  function Called(maxWaitMs: Option<Time>, s: State, call: Call): (r: State)
    ensures r.now == s.now
    decreases call, 0
  {
    match call
    case Schedule(delayMs) => Scheduled(maxWaitMs, s, delayMs)
    case Cancel => Cleared(s)
    case Flush(fn) => if s.timer.Some? then Fired(maxWaitMs, s, fn) else s
  }

  function CalledAll(maxWaitMs: Option<Time>, s: State, calls: seq<Call>): (r: State)
    ensures r.now == s.now
    decreases calls, 1
  {
    if calls == [] then s
    else Called(maxWaitMs, CalledAll(maxWaitMs, s, calls[..|calls| - 1]), calls[|calls| - 1])
  }

  /** The window is cleared before `fn` runs. */
  function Fired(maxWaitMs: Option<Time>, s: State, fn: seq<Call>): (r: State)
    ensures r.now == s.now
    decreases fn, 2
  {
    CalledAll(maxWaitMs, Cleared(s).(runs := s.runs + 1), fn)
  }

  class Debouncer {
    const maxWaitMs: Option<Time>
    var now: Time
    var timer: Option<Time>
    var sinceFirstSchedule: Option<Time>
    var runs: nat

    function Current(): State
      reads this
    {
      State(now, timer, sinceFirstSchedule, runs)
    }

    constructor (maxWaitMs: Option<Time>, now: Time)
      ensures this.maxWaitMs == maxWaitMs && Current() == State(now, None, None, 0)
    {
      this.maxWaitMs, this.now, timer, sinceFirstSchedule, runs := maxWaitMs, now, None, None, 0;
    }

    predicate Pending()
      reads this
    {
      timer.Some?
    }

    /** Arms the timer, or arms it again, for the pending window or a new one. */
    method Schedule(delayMs: Time)
      modifies this`timer, this`sinceFirstSchedule
      ensures Current() == Scheduled(maxWaitMs, old(Current()), delayMs)
    {
      if sinceFirstSchedule.None? {
        sinceFirstSchedule := Some(now);
      }
      var wait := AtLeastZero(delayMs);
      if maxWaitMs.Some? {
        var untilCeiling := maxWaitMs.value - (now - sinceFirstSchedule.value);
        wait := Least(wait, AtLeastZero(untilCeiling));
      }
      timer := Some(now + wait);
    }

    method Flush(fn: seq<Call>)
      modifies this`timer, this`sinceFirstSchedule, this`runs
      ensures Current() == Called(maxWaitMs, old(Current()), Call.Flush(fn))
      decreases fn, 3
    {
      if timer.Some? {
        Fire(fn);
      }
    }

    method Cancel()
      modifies this`timer, this`sinceFirstSchedule
      ensures Current() == Cleared(old(Current()))
    {
      timer, sinceFirstSchedule := None, None;
    }

    /** Clears the window, then runs `fn` once. */
    method Fire(fn: seq<Call>)
      modifies this`timer, this`sinceFirstSchedule, this`runs
      ensures Current() == Fired(maxWaitMs, old(Current()), fn)
      decreases fn, 2
    {
      timer, sinceFirstSchedule := None, None;
      runs := runs + 1;
      ghost var s := Current();
      for i := 0 to |fn|
        invariant Current() == CalledAll(maxWaitMs, s, fn[..i])
      {
        match fn[i] {
          case Schedule(delayMs) => Schedule(delayMs);
          case Cancel => Cancel();
          case Flush(inner) => Flush(inner);
        }
        assert fn[..i + 1][..i] == fn[..i];
      }
      assert fn[..|fn|] == fn;
    }
  }

  // What a debouncer's calls ask for, whatever its timer does.

  /** The calls that one run answers: when the first and the last came, and the delay at the last. */
  datatype Window = Window(first: Time, last: Time, delayMs: Time)

  /** How a window ended: with its one run of `fn`, on the timer or flushed, or cancelled. */
  datatype Ended = Ran(window: Window, at: Time, timely: bool) | Cancelled(window: Window, at: Time)

  /** How many windows were opened, the one still open, and those that ended. */
  datatype History = History(begun: nat, open: Option<Window>, ended: seq<Ended>)

  function Noted(h: History, now: Time, call: Call): History
    decreases call, 0
  {
    match call
    case Schedule(delayMs) =>
      if h.open.Some? then h.(open := Some(Window(h.open.value.first, now, delayMs)))
      else h.(begun := h.begun + 1, open := Some(Window(now, now, delayMs)))
    case Cancel => if h.open.Some? then h.(open := None, ended := h.ended + [Cancelled(h.open.value, now)]) else h
    case Flush(fn) => NotedRun(h, now, fn, false)
  }

  function NotedAll(h: History, now: Time, calls: seq<Call>): History
    decreases calls, 1
  {
    if calls == [] then h else Noted(NotedAll(h, now, calls[..|calls| - 1]), now, calls[|calls| - 1])
  }

  function NotedRun(h: History, now: Time, fn: seq<Call>, timely: bool): History
    decreases fn, 2
  {
    if h.open.None? then h
    else NotedAll(h.(open := None, ended := h.ended + [Ran(h.open.value, now, timely)]), now, fn)
  }

  // Runs: any events, of which time never passes an armed timer and a timer fires when it is due.

  predicate Possible(s: State, event: Event) {
    match event
    case Made(_) => true
    case Elapsed(ms) => ms >= 0.0 && (s.timer.Some? ==> s.now + ms <= s.timer.value)
    case TimerFired(_) => s.timer == Some(s.now)
  }

  function After(maxWaitMs: Option<Time>, s: State, event: Event): State {
    match event
    case Made(call) => Called(maxWaitMs, s, call)
    case Elapsed(ms) => s.(now := s.now + ms)
    case TimerFired(fn) => Fired(maxWaitMs, s, fn)
  }

  function NotedEvent(h: History, now: Time, event: Event): History {
    match event
    case Made(call) => Noted(h, now, call)
    case Elapsed(_) => h
    case TimerFired(fn) => NotedRun(h, now, fn, true)
  }

  function StateAfter(maxWaitMs: Option<Time>, start: Time, events: seq<Event>): State {
    if events == [] then State(start, None, None, 0)
    else After(maxWaitMs, StateAfter(maxWaitMs, start, events[..|events| - 1]), events[|events| - 1])
  }

  predicate IsRun(maxWaitMs: Option<Time>, start: Time, events: seq<Event>) {
    events != [] ==>
      && IsRun(maxWaitMs, start, events[..|events| - 1])
      && Possible(StateAfter(maxWaitMs, start, events[..|events| - 1]), events[|events| - 1])
  }

  /** The time once the events happened. */
  function Clock(start: Time, events: seq<Event>): Time {
    if events == [] then start
    else
      var last := events[|events| - 1];
      Clock(start, events[..|events| - 1]) + if last.Elapsed? then last.ms else 0.0
  }

  function HistoryAfter(start: Time, events: seq<Event>): History {
    if events == [] then History(0, None, [])
    else
      var front := events[..|events| - 1];
      NotedEvent(HistoryAfter(start, front), Clock(start, front), events[|events| - 1])
  }

  function RunsOf(ended: seq<Ended>): nat {
    if ended == [] then 0 else RunsOf(ended[..|ended| - 1]) + if ended[|ended| - 1].Ran? then 1 else 0
  }

  lemma RunsOfSnoc(ended: seq<Ended>, e: Ended)
    ensures RunsOf(ended + [e]) == RunsOf(ended) + if e.Ran? then 1 else 0
  {
    assert (ended + [e])[..|ended|] == ended;
  }

  /** No later than the delay after the window's last call, nor than the ceiling after its first. */
  predicate InTime(w: Window, maxWaitMs: Option<Time>, at: Time) {
    && at <= w.last + AtLeastZero(w.delayMs)
    && (maxWaitMs.Some? ==> at <= w.first + AtLeastZero(maxWaitMs.value))
  }

  /** At the earlier of the two: not a moment before the last call's delay is over, unless the ceiling cuts it short. */
  predicate OnTime(w: Window, maxWaitMs: Option<Time>, at: Time) {
    && InTime(w, maxWaitMs, at)
    && (at == w.last + AtLeastZero(w.delayMs) || (maxWaitMs.Some? && at == w.first + AtLeastZero(maxWaitMs.value)))
  }

  /** What the timer is to the calls: armed while a window is open, for when that is due. */
  ghost predicate Keeps(maxWaitMs: Option<Time>, s: State, h: History) {
    && (s.timer.Some? <==> h.open.Some?) && (s.sinceFirstSchedule.Some? <==> h.open.Some?)
    && (h.open.Some? ==>
          var w := h.open.value;
          s.sinceFirstSchedule.value == w.first <= w.last <= s.now <= s.timer.value
            && OnTime(w, maxWaitMs, s.timer.value))
    && (forall e | e in h.ended ::
          && e.window.first <= e.window.last <= e.at && InTime(e.window, maxWaitMs, e.at)
          && (e.Ran? && e.timely ==> OnTime(e.window, maxWaitMs, e.at)))
    && s.runs == RunsOf(h.ended)
    && h.begun == |h.ended| + if h.open.Some? then 1 else 0
  }

  lemma ScheduleKeeps(maxWaitMs: Option<Time>, s: State, h: History, delayMs: Time)
    requires Keeps(maxWaitMs, s, h)
    ensures Keeps(maxWaitMs, Scheduled(maxWaitMs, s, delayMs), Noted(h, s.now, Call.Schedule(delayMs)))
  {
  }

  lemma EndKeeps(maxWaitMs: Option<Time>, s: State, h: History, e: Ended)
    requires Keeps(maxWaitMs, s, h) && h.open == Some(e.window) && e.at == s.now
    requires e.Ran? && e.timely ==> s.timer == Some(s.now)
    ensures Keeps(maxWaitMs, Cleared(s).(runs := s.runs + if e.Ran? then 1 else 0),
            h.(open := None, ended := h.ended + [e]))
  {
    RunsOfSnoc(h.ended, e);
  }

  lemma {:induction false} CallKeeps(maxWaitMs: Option<Time>, s: State, h: History, call: Call)
    requires Keeps(maxWaitMs, s, h)
    ensures Keeps(maxWaitMs, Called(maxWaitMs, s, call), Noted(h, s.now, call))
    decreases call, 0
  {
    match call
    case Schedule(delayMs) => ScheduleKeeps(maxWaitMs, s, h, delayMs);
    case Cancel =>
      if h.open.Some? {
        EndKeeps(maxWaitMs, s, h, Cancelled(h.open.value, s.now));
      }
    case Flush(fn) =>
      if h.open.Some? {
        RunKeeps(maxWaitMs, s, h, fn, false);
      }
  }

  lemma {:induction false} CallsKeep(maxWaitMs: Option<Time>, s: State, h: History, calls: seq<Call>)
    requires Keeps(maxWaitMs, s, h)
    ensures Keeps(maxWaitMs, CalledAll(maxWaitMs, s, calls), NotedAll(h, s.now, calls))
    decreases calls, 1
  {
    if calls != [] {
      var front := calls[..|calls| - 1];
      CallsKeep(maxWaitMs, s, h, front);
      CallKeeps(maxWaitMs, CalledAll(maxWaitMs, s, front), NotedAll(h, s.now, front), calls[|calls| - 1]);
    }
  }

  lemma {:induction false} RunKeeps(maxWaitMs: Option<Time>, s: State, h: History, fn: seq<Call>, timely: bool)
    requires Keeps(maxWaitMs, s, h) && h.open.Some? && (timely ==> s.timer == Some(s.now))
    ensures Keeps(maxWaitMs, Fired(maxWaitMs, s, fn), NotedRun(h, s.now, fn, timely))
    decreases fn, 2
  {
    var e := Ran(h.open.value, s.now, timely);
    EndKeeps(maxWaitMs, s, h, e);
    CallsKeep(maxWaitMs, Cleared(s).(runs := s.runs + 1), h.(open := None, ended := h.ended + [e]), fn);
  }

  /**
   * In every run the timer is armed exactly while a window is open, for the earlier of the delay after its last call
   * and the ceiling after its first, and time has not passed that. Every window ended in time, on the timer exactly
   * then, and each opened one ends once; `fn` ran once for each that was not cancelled.
   */
  lemma {:induction false} NeverStarved(maxWaitMs: Option<Time>, start: Time, events: seq<Event>)
    requires IsRun(maxWaitMs, start, events)
    ensures StateAfter(maxWaitMs, start, events).now == Clock(start, events)
    ensures Keeps(maxWaitMs, StateAfter(maxWaitMs, start, events), HistoryAfter(start, events))
  {
    if events != [] {
      var (front, last) := (events[..|events| - 1], events[|events| - 1]);
      NeverStarved(maxWaitMs, start, front);
      var (s, h) := (StateAfter(maxWaitMs, start, front), HistoryAfter(start, front));
      match last
      case Made(call) => CallKeeps(maxWaitMs, s, h, call);
      case Elapsed(ms) =>
      case TimerFired(fn) => RunKeeps(maxWaitMs, s, h, fn, true);
    }
  }

  /** The window open in `h` is still open, or ended first of those that ended since. */
  ghost predicate Goes(h: History, w: Window, later: History) {
    && h.ended <= later.ended
    && (if |later.ended| == |h.ended| then later.open.Some? && later.open.value.first == w.first
        else later.ended[|h.ended|].window.first == w.first)
  }

  lemma {:induction false} CallGoes(h: History, w: Window, later: History, now: Time, call: Call)
    requires Goes(h, w, later)
    ensures Goes(h, w, Noted(later, now, call))
    decreases call, 0
  {
    if call.Flush? {
      RunGoes(h, w, later, now, call.fn, false);
    }
  }

  lemma {:induction false} RunGoes(h: History, w: Window, later: History, now: Time, fn: seq<Call>, timely: bool)
    requires Goes(h, w, later)
    ensures Goes(h, w, NotedRun(later, now, fn, timely))
    decreases fn, 2
  {
    if later.open.Some? {
      CallsGo(h, w, later.(open := None, ended := later.ended + [Ran(later.open.value, now, timely)]), now, fn);
    }
  }

  lemma {:induction false} CallsGo(h: History, w: Window, later: History, now: Time, calls: seq<Call>)
    requires Goes(h, w, later)
    ensures Goes(h, w, NotedAll(later, now, calls))
    decreases calls, 1
  {
    if calls != [] {
      var front := calls[..|calls| - 1];
      CallsGo(h, w, later, now, front);
      CallGoes(h, w, NotedAll(later, now, front), now, calls[|calls| - 1]);
    }
  }

  lemma {:induction false} EventsGo(start: Time, events: seq<Event>, more: seq<Event>, w: Window)
    requires HistoryAfter(start, events).open == Some(w)
    ensures Goes(HistoryAfter(start, events), w, HistoryAfter(start, events + more))
    decreases |more|
  {
    if more == [] {
      assert events + more == events;
    } else {
      var (front, last) := (more[..|more| - 1], more[|more| - 1]);
      assert (events + more)[..|events + more| - 1] == events + front;
      EventsGo(start, events, front, w);
      var (h, later, now) := (HistoryAfter(start, events), HistoryAfter(start, events + front),
        Clock(start, events + front));
      match last
      case Made(call) => CallGoes(h, w, later, now, call);
      case Elapsed(_) =>
      case TimerFired(fn) => RunGoes(h, w, later, now, fn, true);
    }
  }

  /** Whatever calls keep coming, a window that is open has ended by the ceiling after its first call. */
  lemma StreamMakesProgress(maxWaitMs: Time, start: Time, events: seq<Event>, more: seq<Event>, w: Window)
    requires IsRun(Some(maxWaitMs), start, events + more) && HistoryAfter(start, events).open == Some(w)
    requires Clock(start, events + more) > w.first + AtLeastZero(maxWaitMs)
    ensures var (before, after) := (HistoryAfter(start, events).ended, HistoryAfter(start, events + more).ended);
            && before < after
            && after[|before|].window.first == w.first && after[|before|].at <= w.first + AtLeastZero(maxWaitMs)
  {
    EventsGo(start, events, more, w);
    NeverStarved(Some(maxWaitMs), start, events + more);
    var (before, after) := (HistoryAfter(start, events).ended, HistoryAfter(start, events + more).ended);
    assert |after| > |before| ==> after[|before|] in after;
  }
}
