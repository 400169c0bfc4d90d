/** Window events and samples of a measurement (bench/windows-capture-798/native_monitor.py, probe.py). */
module NativeMonitor {
  import opened Common

  const WRAP := 0x1_0000_0000
  const LIMIT := 20000
  const EVENTS: set<int> := {0x0003, 0x0016, 0x0017, 0x800B}
  const MINIMIZE := 0x0016

  // ---- ticks ----

  /** The 64-bit tick of an event that carries only the low 32 bits of its own. */
  function FullTick(now: nat, eventTick: int): int {
    now - (now - eventTick) % WRAP
  }

  lemma ModShift(a: int, k: int)
    ensures (a + k * WRAP) % WRAP == a % WRAP
  {
  }

  /** The rebuilt tick is the event's true time exactly when the event is not in the future and under 2^32 ms old. */
  lemma TickIsExact(now: nat, time: int)
    ensures FullTick(now, time % WRAP) == time <==> 0 <= now - time < WRAP
  {
    var age := now - time;
    assert time == time / WRAP * WRAP + time % WRAP;
    assert now - time % WRAP == age + time / WRAP * WRAP;
    ModShift(age, time / WRAP);
    assert (now - time % WRAP) % WRAP == age % WRAP;
    if 0 <= age < WRAP {
      assert age % WRAP == age;
    }
  }

  // ---- the monitor ----

  /** A notification of the operating system, with the process that owns the window when it is handled. */
  datatype Notice = Notice(event: int, hwnd: int, objectId: int, childId: int, owner: int, now: nat, eventTick: int)

  datatype Recorded = Recorded(event: int, hwnd: int, pid: int, tick: int, receivedTick: nat)

  datatype Window = Window(hwnd: int, pid: int)

  datatype Sample = Sample(tick: int, identityValid: bool, window: Option<Window>)

  datatype Failure = AlreadyStarted | NotCalibrated

  predicate Concerns(n: Notice, hwnd: int, pid: int) {
    n.hwnd == hwnd && n.event in EVENTS && n.objectId == 0 && n.childId == 0 && n.owner == pid
  }

  function Record(n: Notice): Recorded {
    Recorded(n.event, n.hwnd, n.owner, FullTick(n.now, n.eventTick), n.now)
  }

  /** The records of the notices that concern the window, of all that were ever handled. */
  function RecordsOf(notices: seq<Notice>, hwnd: int, pid: int): seq<Recorded> {
    if notices == [] then []
    else
      RecordsOf(notices[..|notices| - 1], hwnd, pid)
      + (if Concerns(notices[|notices| - 1], hwnd, pid) then [Record(notices[|notices| - 1])] else [])
  }

  lemma RecordsMore(notices: seq<Notice>, n: Notice, hwnd: int, pid: int)
    ensures RecordsOf(notices + [n], hwnd, pid)
         == RecordsOf(notices, hwnd, pid) + (if Concerns(n, hwnd, pid) then [Record(n)] else [])
  {
    assert (notices + [n])[..|notices|] == notices;
  }

  /** What the monitor hands over at the end. */
  datatype Report = Report(calibrated: bool, startTick: Option<nat>, endTick: Option<nat>, events: seq<Recorded>,
                           overflow: bool)

  predicate SawMinimize(events: seq<Recorded>) {
    exists i :: 0 <= i < |events| && events[i].event == MINIMIZE
  }

  /** What is kept of all records. */
  function Newest(all: seq<Recorded>): seq<Recorded> {
    if |all| <= LIMIT then all else all[..LIMIT]
  }

  lemma KeepsMore(all: seq<Recorded>, e: Recorded)
    ensures Newest(all + [e]) == if |all| < LIMIT then Newest(all) + [e] else Newest(all)
  {
  }

  lemma StillSeen(events: seq<Recorded>, e: Recorded)
    requires SawMinimize(events)
    ensures SawMinimize(events + [e])
  {
    var i :| 0 <= i < |events| && events[i].event == MINIMIZE;
    assert (events + [e])[i] == events[i];
  }

  lemma TickIsFull(n: Notice, tick: int)
    requires tick == n.now - (n.now - n.eventTick) % WRAP
    ensures Record(n) == Recorded(n.event, n.hwnd, n.owner, tick, n.now)
  {
  }

  class Monitor {
    const hwnd: int
    const pid: int
    var events: seq<Recorded>
    var overflow: bool
    var startTick: Option<nat>
    var endTick: Option<nat>
    /** Every notice handled so far. */
    ghost var notices: seq<Notice>

    /**
     The log is the first 20000 records of the window's notices, overflow says whether any were lost,
     and a measurement was started only after the hooks were seen to work.
     */
    ghost predicate Valid()
      reads this
    {
      var all := RecordsOf(notices, hwnd, pid);
      && events == Newest(all) && (overflow <==> |all| > LIMIT)
      && (startTick.Some? ==> SawMinimize(events))
    }

    constructor (hwnd: int, pid: int)
      requires hwnd > 0 && pid > 0
      ensures Valid() && this.hwnd == hwnd && this.pid == pid && notices == [] && startTick == None && endTick == None
    {
      this.hwnd, this.pid := hwnd, pid;
      events, overflow, startTick, endTick, notices := [], false, None, None, [];
    }

    method Callback(n: Notice)
      requires Valid()
      modifies this`events, this`overflow, this`notices
      ensures Valid() && notices == old(notices) + [n] && old(events) <= events
    {
      hide RecordsOf, FullTick, SawMinimize;
      notices := notices + [n];
      RecordsMore(old(notices), n, hwnd, pid);
      KeepsMore(RecordsOf(old(notices), hwnd, pid), Record(n));
      if n.hwnd != hwnd || n.event !in EVENTS || n.objectId != 0 || n.childId != 0 {
        return;
      }
      if n.owner != pid {
        return;
      }
      var tick := n.now - (n.now - n.eventTick) % WRAP;
      TickIsFull(n, tick);
      if |events| >= LIMIT {
        overflow := true;
        return;
      }
      if startTick.Some? {
        StillSeen(events, Record(n));
      }
      events := events + [Recorded(n.event, n.hwnd, n.owner, tick, n.now)];
    }

    method Calibrated() returns (seen: bool)
      ensures seen <==> SawMinimize(events)
    {
      seen := exists i :: 0 <= i < |events| && events[i].event == MINIMIZE;
    }

    /** A measurement starts once, and only after the hooks were seen to work. */
    method BeginMeasurement(now: nat) returns (r: Result<(), Failure>)
      requires Valid()
      modifies this`startTick
      ensures Valid()
      ensures r.Ok? <==> old(startTick).None? && SawMinimize(events)
      ensures startTick == if r.Ok? then Some(now) else old(startTick)
    {
      if startTick.Some? {
        return Err(AlreadyStarted);
      }
      var seen := Calibrated();
      if !seen {
        return Err(NotCalibrated);
      }
      startTick := Some(now);
      return Ok(());
    }

    /** Handles the notices that are still queued. */
    method HandleQueued(queued: seq<Notice>)
      requires Valid()
      modifies this`events, this`overflow, this`notices
      ensures Valid() && notices == old(notices) + queued
    {
      hide Valid;
      for i := 0 to |queued|
        invariant Valid() && notices == old(notices) + queued[..i]
      {
        Callback(queued[i]);
        assert old(notices) + queued[..i] + [queued[i]] == old(notices) + queued[..i + 1];
      }
      assert queued[..|queued|] == queued;
    }

    /**
     Ends the measurement. The notices still queued are handled before the report is made, which
     therefore is of every notice; a started measurement is always reported as calibrated.
     */
    method FinishMeasurement(now: nat, queued: seq<Notice>) returns (r: Report)
      requires Valid()
      modifies this`endTick, this`events, this`overflow, this`notices
      ensures Valid() && notices == old(notices) + queued && endTick == Some(now)
      ensures r.startTick == startTick && r.endTick == Some(now) && r.events == events && r.overflow == overflow
      ensures r.calibrated <==> SawMinimize(events)
      ensures r.startTick.Some? ==> r.calibrated
      ensures !r.overflow ==> r.events == RecordsOf(old(notices) + queued, hwnd, pid)
    {
      endTick := Some(now);
      HandleQueued(queued);
      var calibrated := Calibrated();
      r := Report(calibrated, startTick, endTick, events, overflow);
    }
  }

  // ---- the interval is one of event times, not of receipt ----

  /** The notice of an event that happened at the given time, handled less than 2^32 ms later. */
  predicate NoticeOf(n: Notice, time: int) {
    n.eventTick == time % WRAP && 0 <= n.now - time < WRAP
  }

  /** The notices whose events happened within the interval. */
  function HappenedIn(notices: seq<Notice>, times: seq<int>, start: int, end: int): seq<Notice>
    requires |times| == |notices|
  {
    if notices == [] then []
    else
      var last := |notices| - 1;
      HappenedIn(notices[..last], times[..last], start, end)
      + (if start <= times[last] <= end then [notices[last]] else [])
  }

  function Within(events: seq<Recorded>, start: int, end: int): seq<Recorded> {
    Filter(events, (e: Recorded) => start <= e.tick <= end)
  }

  lemma WithinMore(events: seq<Recorded>, e: Recorded, start: int, end: int)
    ensures Within(events + [e], start, end)
         == Within(events, start, end) + (if start <= e.tick <= end then [e] else [])
  {
    FilterAppend(events, [e], (e: Recorded) => start <= e.tick <= end);
    assert [e][1..] == [];
  }

  lemma HappenedMore(notices: seq<Notice>, times: seq<int>, n: Notice, time: int, start: int, end: int)
    requires |times| == |notices|
    ensures HappenedIn(notices + [n], times + [time], start, end)
         == HappenedIn(notices, times, start, end) + (if start <= time <= end then [n] else [])
  {
    assert (notices + [n])[..|notices|] == notices && (times + [time])[..|notices|] == times;
  }

  /**
   * The records with a tick in the measured interval are the records of exactly the events that happened in it,
   * however late each notice was handled.
   */
  lemma {:induction false} IntervalIsByTime(notices: seq<Notice>, times: seq<int>, hwnd: int, pid: int, start: int,
                                            end: int)
    requires |times| == |notices| && forall i :: 0 <= i < |notices| ==> NoticeOf(notices[i], times[i])
    ensures Within(RecordsOf(notices, hwnd, pid), start, end)
         == RecordsOf(HappenedIn(notices, times, start, end), hwnd, pid)
  {
    if notices != [] {
      hide RecordsOf, Within, FullTick, NoticeOf, HappenedIn, Concerns;
      var last := |notices| - 1;
      var rest, restTimes, n, time := notices[..last], times[..last], notices[last], times[last];
      IntervalIsByTime(rest, restTimes, hwnd, pid, start, end);
      assert notices == rest + [n] && times == restTimes + [time];
      TickOf(n, time);
      RecordsMore(rest, n, hwnd, pid);
      HappenedMore(rest, restTimes, n, time, start, end);
      var before := HappenedIn(rest, restTimes, start, end);
      RecordsMore(before, n, hwnd, pid);
      WithinMore(RecordsOf(rest, hwnd, pid), Record(n), start, end);
      NothingMore(before);
      NothingMore(RecordsOf(rest, hwnd, pid));
      NothingMore(RecordsOf(before, hwnd, pid));
    } else {
      assert Within([], start, end) == [];
    }
  }

  lemma NothingMore<T>(s: seq<T>)
    ensures s + [] == s
  {
  }

  lemma TickOf(n: Notice, time: int)
    requires NoticeOf(n, time)
    ensures FullTick(n.now, n.eventTick) == time
  {
    TickIsExact(n.now, time);
  }

  // ---- the samples of an accepted measurement ----

  datatype Evidence = Evidence(
    calibrated: bool, installed: int, unhooked: seq<bool>, pumpStoppedExpected: bool, overflow: bool,
    errors: seq<string>, start: Option<int>, end: Option<int>,
    generationStarted: Option<int>, generationConfirmed: Option<int>,
    samples: seq<Sample>, expectedHwnd: int, chromePid: int)

  predicate Healthy(e: Evidence) {
    && e.calibrated && e.installed == 4 && e.unhooked == [true, true, true, true] && e.pumpStoppedExpected
    && !e.overflow && e.errors == []
  }

  predicate Ordered(e: Evidence) {
    && e.start.Some? && e.end.Some? && e.generationStarted.Some? && e.generationConfirmed.Some?
    && e.start.value <= e.generationStarted.value <= e.generationConfirmed.value <= e.end.value
  }

  predicate Dense(samples: seq<Sample>, start: int, end: int) {
    && |samples| >= 2 && samples[0].tick - start <= 100 && end - samples[|samples| - 1].tick <= 100
    && forall i :: 0 <= i < |samples| - 1 ==> samples[i + 1].tick - samples[i].tick <= 250
  }

  predicate OfWindow(s: Sample, e: Evidence) {
    s.identityValid && s.window == Some(Window(e.expectedHwnd, e.chromePid))
  }

  function PolicyMonitorSamples(e: Evidence): Option<seq<Sample>> {
    if !Healthy(e) || !Ordered(e) then None
    else
      var samples := Filter(e.samples, (s: Sample) => e.start.value <= s.tick <= e.end.value);
      if !Dense(samples, e.start.value, e.end.value) then None
      else if exists i :: 0 <= i < |samples| && !OfWindow(samples[i], e) then None
      else Some(samples)
  }

  /** Two neighbours, one not after the instant and one not before it, however the ticks run in between. */
  lemma {:induction false} Crossing(samples: seq<Sample>, t: real) returns (i: nat)
    requires |samples| >= 2 && samples[0].tick as real <= t <= samples[|samples| - 1].tick as real
    ensures i + 1 < |samples| && samples[i].tick as real <= t <= samples[i + 1].tick as real
  {
    if samples[1].tick as real >= t {
      i := 0;
    } else {
      var j := Crossing(samples[1..], t);
      i := j + 1;
    }
  }

  /** No instant of an accepted interval is more than 125 ms from a sample of the expected window. */
  lemma SamplesCoverInterval(e: Evidence, t: real)
    requires PolicyMonitorSamples(e).Some?
    requires e.start.Some? && e.end.Some? && e.start.value as real <= t <= e.end.value as real
    ensures exists s :: s in PolicyMonitorSamples(e).value && OfWindow(s, e) && -125.0 <= s.tick as real - t <= 125.0
  {
    var samples := PolicyMonitorSamples(e).value;
    var last := samples[|samples| - 1];
    var s := samples[0];
    if t > last.tick as real {
      s := last;
    } else if t >= samples[0].tick as real {
      var i := Crossing(samples, t);
      var a, b := samples[i], samples[i + 1];
      s := if t - a.tick as real <= b.tick as real - t then a else b;
    }
    assert s in samples && OfWindow(s, e);
  }

  // ---- which notices are recorded, and which evidence is accepted ----

  /** A notice of the window itself: foreground, start or end of a minimization, or a change of place. */
  ghost predicate IsOwn(n: Notice, hwnd: int, pid: int) {
    && n.hwnd == hwnd && n.owner == pid && n.objectId == 0 && n.childId == 0
    && (n.event == 0x0003 || n.event == 0x0016 || n.event == 0x0017 || n.event == 0x800B)
  }

  /** The records are those of the own notices: in order, each once, none left out, with the full tick. */
  ghost predicate Records(notices: seq<Notice>, hwnd: int, pid: int, records: seq<Recorded>, places: seq<nat>) {
    && |places| == |records| && Increasing(places)
    && (forall i :: 0 <= i < |places| ==>
          places[i] < |notices|
          && var n := notices[places[i]];
             records[i] == Recorded(n.event, n.hwnd, n.owner, n.now - (n.now - n.eventTick) % 0x1_0000_0000, n.now))
    && (forall k: nat :: k < |notices| ==> (k in places <==> IsOwn(notices[k], hwnd, pid)))
  }

  lemma RecordsOneMore(notices: seq<Notice>, hwnd: int, pid: int, records: seq<Recorded>, places: seq<nat>, n: Notice)
    requires Records(notices, hwnd, pid, records, places)
    ensures !IsOwn(n, hwnd, pid) ==> Records(notices + [n], hwnd, pid, records, places)
    ensures IsOwn(n, hwnd, pid) ==>
              Records(notices + [n], hwnd, pid, records + [Record(n)], places + [|notices|])
  {
    hide IsOwn;
    var all, last := notices + [n], |notices|;
    assert all[last] == n && forall k :: 0 <= k < last ==> all[k] == notices[k];
    assert last !in places;
    var more := places + [last];
    assert more[|places|] == last && forall i :: 0 <= i < |places| ==> more[i] == places[i];
    forall k: nat | k < |all|
      ensures k in more <==> k in places || k == last
    {
    }
  }

  lemma {:induction false} RecordsTell(notices: seq<Notice>, hwnd: int, pid: int) returns (places: seq<nat>)
    ensures Records(notices, hwnd, pid, RecordsOf(notices, hwnd, pid), places)
  {
    places := [];
    if notices != [] {
      var rest, last := notices[..|notices| - 1], notices[|notices| - 1];
      places := RecordsTell(rest, hwnd, pid);
      assert notices == rest + [last];
      RecordsMore(rest, last, hwnd, pid);
      RecordsOneMore(rest, hwnd, pid, RecordsOf(rest, hwnd, pid), places, last);
      NothingMore(RecordsOf(rest, hwnd, pid));
      assert IsOwn(last, hwnd, pid) <==> Concerns(last, hwnd, pid);
      if IsOwn(last, hwnd, pid) {
        places := places + [|rest|];
      }
    }
  }

  /**
   Accepted are the samples inside the measured interval, all of them and exactly when the monitor was
   calibrated, hooked and unhooked four times, stopped as planned and lost nothing, the generation lies in
   the interval, the samples leave no gap of more than 250 ms and none of more than 100 ms at either end,
   and each shows the expected window.
   */
  lemma SamplesAccepted(e: Evidence, inside: seq<Sample>)
    requires e.start.Some? && e.end.Some?
    requires inside == Filter(e.samples, (s: Sample) => e.start.value <= s.tick <= e.end.value)
    ensures PolicyMonitorSamples(e) in {None, Some(inside)}
    ensures PolicyMonitorSamples(e).Some? <==>
      && e.calibrated && e.installed == 4 && |e.unhooked| == 4 && (forall i :: 0 <= i < 4 ==> e.unhooked[i])
      && e.pumpStoppedExpected && !e.overflow && |e.errors| == 0
      && e.generationStarted.Some? && e.generationConfirmed.Some?
      && e.start.value <= e.generationStarted.value && e.generationStarted.value <= e.generationConfirmed.value
      && e.generationConfirmed.value <= e.end.value
      && |inside| >= 2 && inside[0].tick <= e.start.value + 100 && e.end.value - 100 <= inside[|inside| - 1].tick
      && (forall i :: 0 < i < |inside| ==> inside[i].tick - inside[i - 1].tick <= 250)
      && (forall i :: 0 <= i < |inside| ==>
            inside[i].identityValid && inside[i].window == Some(Window(e.expectedHwnd, e.chromePid)))
  {
    assert forall i :: 0 < i < |inside| ==> inside[i - 1 + 1] == inside[i];
  }
}
