/**
 * The per-group curfew engine of core/curfew_manager.py: a daily window
 * read from two `HH:MM` strings, the test whether a time of day lies inside
 * it, the two-state machine that mutes or unmutes the whole group when the
 * evaluated state differs from the applied one, and the start / stop
 * lifecycle of the background task.
 *
 * One iteration of `_scheduler_loop` is `CurfewManager.Tick`: the model
 * starts each iteration after its 10-second sleep; the time of day and the
 * outcome of the two platform calls are its inputs.
 */
module Curfew {
  import opened Wrappers
  import opened Clock

  /** The daily window `start_time` .. `end_time`. */
  datatype Window = Window(start: TimeOfDay, end: TimeOfDay)

  /**
   * `is_during_curfew` (core/curfew_manager.py:80-86): inclusive at both ends;
   * a window whose start is not before its end crosses midnight, so
   * `start == end` means curfew all day.
   */
  predicate InCurfew(w: Window, now: TimeOfDay)
  {
    if w.start < w.end then w.start <= now <= w.end
    else now >= w.start || now <= w.end
  }

  /** Seconds from time of day `a` forward to time of day `b`, wrapping at midnight. */
  function Elapsed(a: TimeOfDay, b: TimeOfDay): (d: nat)
    ensures d < DaySeconds
  {
    if a <= b then b - a else b - a + DaySeconds
  }

  /**
   * Independent reading of the window: for distinct start and end, a time
   * is in curfew exactly when it lies on the clockwise arc from start to end,
   * both ends included.
   */
  lemma InCurfewIsArc(w: Window, now: TimeOfDay)
    requires w.start != w.end
    ensures InCurfew(w, now) <==> Elapsed(w.start, now) <= Elapsed(w.start, w.end)
  {
  }

  /** A window with equal ends is curfew at every time of day. */
  lemma EqualEndsAlwaysCurfew(w: Window, now: TimeOfDay)
    requires w.start == w.end
    ensures InCurfew(w, now)
  {
  }

  /** For distinct ends, the time outside the window is the open arc from end to start. */
  lemma OutsideIsOpenArc(w: Window, now: TimeOfDay)
    requires w.start != w.end
    ensures !InCurfew(w, now) <==> 0 < Elapsed(w.end, now) < Elapsed(w.end, w.start)
  {
  }

  /** A call the engine makes to the platform. */
  datatype Call = Announce(text: string) | SetWholeBan(enable: bool)

  /** The message sent when curfew starts (core/curfew_manager.py:93). */
  function StartNotice(w: Window): string
  {
    "【" + FormatClock(w.start) + "】本群宵禁开始！"
  }

  /** The message sent when curfew ends (core/curfew_manager.py:109). */
  function EndNotice(w: Window): string
  {
    "【" + FormatClock(w.end) + "】本群宵禁结束！"
  }

  /** The applied state after a tick, and the calls the tick made, in order. */
  datatype TickResult = TickResult(status: bool, calls: seq<Call>)

  /**
   * The meaning of one tick: when the evaluated state equals the applied
   * one, nothing. Otherwise the announcement is attempted; the mute call is
   * made only if it succeeded (both share one `try`), and the applied state
   * follows the evaluated one only if the mute call succeeded too.
   */
  function Step(w: Window, status: bool, now: TimeOfDay, announceOk: bool, muteOk: bool): TickResult
  {
    var during := InCurfew(w, now);
    if during == status then TickResult(status, [])
    else
      var notice := Announce(if during then StartNotice(w) else EndNotice(w));
      if !announceOk then TickResult(status, [notice])
      else TickResult(if muteOk then during else status, [notice, SetWholeBan(during)])
  }

  /** When the evaluated state equals the applied one, a tick calls nothing and changes nothing. */
  lemma StepQuiet(w: Window, status: bool, now: TimeOfDay, announceOk: bool, muteOk: bool)
    requires InCurfew(w, now) == status
    ensures Step(w, status, now, announceOk, muteOk) == TickResult(status, [])
  {
  }

  /**
   * When they differ: exactly one announcement, the start or the end notice
   * of the window, comes first, the mute call (to the
   * evaluated state) is made iff the announcement succeeded, and the applied
   * state becomes the evaluated one iff both succeeded; otherwise it stays.
   */
  lemma StepTransition(w: Window, status: bool, now: TimeOfDay, announceOk: bool, muteOk: bool)
    requires InCurfew(w, now) != status
    ensures var r := Step(w, status, now, announceOk, muteOk);
      && |r.calls| >= 1 && r.calls[0].Announce?
      && (SetWholeBan(InCurfew(w, now)) in r.calls <==> announceOk)
      && (forall c :: c in r.calls ==> c.Announce? || c == SetWholeBan(InCurfew(w, now)))
      && (r.status == InCurfew(w, now) <==> announceOk && muteOk)
      && (r.status != InCurfew(w, now) ==> r.status == status)
      && r.calls == [Announce(if InCurfew(w, now) then StartNotice(w) else EndNotice(w))]
                    + (if announceOk then [SetWholeBan(InCurfew(w, now))] else [])
  {
  }

  /** A failed transition is retried: the next tick with the same evaluated state attempts it again. */
  lemma FailedTickIsRetried(w: Window, status: bool, now: TimeOfDay, later: TimeOfDay,
                            announceOk: bool, muteOk: bool, announceOk': bool, muteOk': bool)
    requires InCurfew(w, now) != status && !(announceOk && muteOk)
    requires InCurfew(w, later) == InCurfew(w, now)
    ensures var r := Step(w, status, now, announceOk, muteOk);
      var r' := Step(w, r.status, later, announceOk', muteOk');
      r.status == status && r'.calls[0] == r.calls[0]
      && (announceOk' && muteOk' ==> r'.status == InCurfew(w, later))
  {
  }

  /** One poll of the loop: the time of day read after the sleep and the outcome of the two calls. */
  datatype Observation = Observation(now: TimeOfDay, announceOk: bool, muteOk: bool)

  /** The meaning of running the loop over a finite sequence of polls. */
  function Run(w: Window, status: bool, trace: seq<Observation>): TickResult
    decreases |trace|
  {
    if trace == [] then TickResult(status, [])
    else
      var o := trace[0];
      var r := Step(w, status, o.now, o.announceOk, o.muteOk);
      var rest := Run(w, r.status, trace[1..]);
      TickResult(rest.status, r.calls + rest.calls)
  }

  /** The mute states requested, in order. */
  function MuteRequests(calls: seq<Call>): seq<bool>
  {
    if calls == [] then []
    else (if calls[0].SetWholeBan? then [calls[0].enable] else []) + MuteRequests(calls[1..])
  }

  lemma {:induction false} MuteRequestsAppend(a: seq<Call>, b: seq<Call>)
    ensures MuteRequests(a + b) == MuteRequests(a) + MuteRequests(b)
    decreases |a|
  {
    if a == [] {
      assert a + b == b;
    } else {
      assert (a + b)[0] == a[0] && (a + b)[1..] == a[1..] + b;
      MuteRequestsAppend(a[1..], b);
    }
  }

  /** The evaluated state at each poll. */
  function Evaluations(w: Window, trace: seq<Observation>): (e: seq<bool>)
    ensures |e| == |trace|
    ensures forall k :: 0 <= k < |trace| ==> e[k] == InCurfew(w, trace[k].now)
  {
    seq(|trace|, k requires 0 <= k < |trace| => InCurfew(w, trace[k].now))
  }

  /** The values a boolean signal switches to, starting from `prev`, each time it changes. */
  function Changes(prev: bool, e: seq<bool>): seq<bool>
    decreases |e|
  {
    if e == [] then []
    else if e[0] != prev then [e[0]] + Changes(e[0], e[1..])
    else Changes(prev, e[1..])
  }

  /** The changes of a boolean signal alternate, and the first one leaves `prev`. */
  lemma {:induction false} ChangesAlternate(prev: bool, e: seq<bool>)
    ensures var c := Changes(prev, e);
      (|c| > 0 ==> c[0] == !prev) && forall k :: 0 <= k < |c| - 1 ==> c[k + 1] == !c[k]
    decreases |e|
  {
    if e != [] {
      if e[0] != prev {
        ChangesAlternate(e[0], e[1..]);
      } else {
        ChangesAlternate(prev, e[1..]);
      }
    }
  }

  predicate AllSucceed(trace: seq<Observation>)
  {
    forall k :: 0 <= k < |trace| ==> trace[k].announceOk && trace[k].muteOk
  }

  /**
   * While the platform calls succeed, the group is muted or unmuted exactly
   * once per change of the evaluated state (so mute and unmute alternate),
   * and afterwards the applied state is the state evaluated at the last poll.
   */
  lemma {:induction false} RunTracksWindow(w: Window, status: bool, trace: seq<Observation>)
    requires AllSucceed(trace)
    ensures MuteRequests(Run(w, status, trace).calls) == Changes(status, Evaluations(w, trace))
    ensures Run(w, status, trace).status ==
      if trace == [] then status else InCurfew(w, trace[|trace| - 1].now)
    decreases |trace|
  {
    if trace != [] {
      var o := trace[0];
      var r := Step(w, status, o.now, o.announceOk, o.muteOk);
      SucceedingStep(w, status, o);
      AllSucceedTail(trace);
      RunTracksWindow(w, r.status, trace[1..]);
      MuteRequestsAppend(r.calls, Run(w, r.status, trace[1..]).calls);
      EvaluationsTail(w, trace);
      if |trace| > 1 {
        assert trace[1..][|trace[1..]| - 1] == trace[|trace| - 1];
      }
    }
  }

  /** A tick whose calls succeed applies the evaluated state and requests a mute change exactly when it differs. */
  lemma SucceedingStep(w: Window, status: bool, o: Observation)
    requires o.announceOk && o.muteOk
    ensures var r := Step(w, status, o.now, o.announceOk, o.muteOk);
      var e := InCurfew(w, o.now);
      r.status == e && MuteRequests(r.calls) == (if e != status then [e] else [])
  {
    var r := Step(w, status, o.now, o.announceOk, o.muteOk);
    var e := InCurfew(w, o.now);
    if e != status {
      assert r.calls == [Announce(if e then StartNotice(w) else EndNotice(w)), SetWholeBan(e)];
      assert MuteRequests(r.calls[1..]) == [e] + MuteRequests([]);
    }
  }

  lemma AllSucceedTail(trace: seq<Observation>)
    requires trace != [] && AllSucceed(trace)
    ensures AllSucceed(trace[1..])
  {
    forall k | 0 <= k < |trace[1..]| ensures trace[1..][k].announceOk && trace[1..][k].muteOk {
      assert trace[1..][k] == trace[k + 1];
    }
  }

  lemma EvaluationsTail(w: Window, trace: seq<Observation>)
    requires trace != []
    ensures var e := Evaluations(w, trace);
      e == [InCurfew(w, trace[0].now)] + Evaluations(w, trace[1..])
  {
    var e := Evaluations(w, trace);
    assert e[1..] == Evaluations(w, trace[1..]);
    assert e == [e[0]] + e[1..];
  }

  /** The background task of a manager; `done` is `task.done()`. */
  class Task {
    var done: bool

    /** `asyncio.create_task(...)`: a task that has not finished. */
    constructor ()
      ensures !done
    {
      done := false;
    }

    /** `task.cancel()` followed by the task unwinding, after which `task.done()` holds. */
    method Cancel()
      modifies this
      ensures done
    {
      done := true;
    }
  }

  /** Why `CurfewManager.__init__` raises. */
  datatype FormatError = BadClock

  /** `CurfewManager`: one group's window, applied mute state and background task. */
  class CurfewManager {
    const groupId: string
    const window: Window
    var curfewTask: Task?
    var wholeBanStatus: bool

    /** The fields `__init__` sets once both times have parsed (core/curfew_manager.py:24-33). */
    constructor (groupId: string, window: Window)
      ensures this.groupId == groupId && this.window == window
      ensures curfewTask == null && !wholeBanStatus
    {
      this.groupId := groupId;
      this.window := window;
      curfewTask := null;
      wholeBanStatus := false;
    }

    /**
     * `CurfewManager(bot, group_id, start, end)`: a new, stopped manager with
     * `whole_ban_status == False`, or `ValueError` when either string is not
     * `%H:%M`.
     */
    static method Create(groupId: string, startText: string, endText: string)
      returns (r: Result<CurfewManager, FormatError>)
      ensures r.Ok? <==> ParseClock(startText).Some? && ParseClock(endText).Some?
      ensures r.Ok? ==> (fresh(r.value) && r.value.groupId == groupId
        && r.value.window == Window(ParseClock(startText).value, ParseClock(endText).value)
        && r.value.curfewTask == null && !r.value.wholeBanStatus)
    {
      var s := ParseClock(startText);
      var e := ParseClock(endText);
      if s.None? || e.None? {
        return Err(BadClock);
      }
      var m := new CurfewManager(groupId, Window(s.value, e.value));
      return Ok(m);
    }

    /** `is_running()`: a task exists and has not finished. */
    predicate IsRunning()
      reads this, curfewTask
    {
      curfewTask != null && !curfewTask.done
    }

    /** `start_curfew_task()`: keeps a running task; otherwise spawns a new one. */
    method StartCurfewTask()
      modifies this`curfewTask
      ensures IsRunning()
      ensures old(IsRunning()) ==> curfewTask == old(curfewTask)
      ensures !old(IsRunning()) ==> fresh(curfewTask)
    {
      if IsRunning() {
        return;
      }
      curfewTask := new Task();
    }

    /**
     * `stop_curfew_task()`: cancels and awaits a live task, whatever the
     * await raises, and then always forgets the task.
     */
    method StopCurfewTask()
      modifies this`curfewTask, curfewTask
      ensures curfewTask == null && !IsRunning()
      ensures old(curfewTask) != null ==> old(curfewTask).done
    {
      if curfewTask != null && !curfewTask.done {
        curfewTask.Cancel();
      }
      curfewTask := null;
    }

    /** One iteration of `_scheduler_loop` after its sleep (core/curfew_manager.py:77-119). */
    method Tick(now: TimeOfDay, announceOk: bool, muteOk: bool) returns (calls: seq<Call>)
      requires IsRunning()
      modifies this`wholeBanStatus
      ensures TickResult(wholeBanStatus, calls) == Step(window, old(wholeBanStatus), now, announceOk, muteOk)
    {
      calls := [];
      var isDuringCurfew := false;
      if window.start < window.end {
        isDuringCurfew := window.start <= now <= window.end;
      } else {
        isDuringCurfew := now >= window.start || now <= window.end;
      }
      if isDuringCurfew {
        if !wholeBanStatus {
          calls := calls + [Announce(StartNotice(window))];
          if announceOk {
            calls := calls + [SetWholeBan(true)];
            if muteOk {
              wholeBanStatus := true;
            }
          }
        }
      } else {
        if wholeBanStatus {
          calls := calls + [Announce(EndNotice(window))];
          if announceOk {
            calls := calls + [SetWholeBan(false)];
            if muteOk {
              wholeBanStatus := false;
            }
          }
        }
      }
    }

    /** `_scheduler_loop` over a finite sequence of polls while the task runs. */
    method RunLoop(trace: seq<Observation>) returns (calls: seq<Call>)
      requires IsRunning()
      modifies this`wholeBanStatus
      ensures TickResult(wholeBanStatus, calls) == Run(window, old(wholeBanStatus), trace)
    {
      ghost var total := Run(window, wholeBanStatus, trace);
      calls := [];
      var i := 0;
      while i < |trace|
        invariant 0 <= i <= |trace| && IsRunning()
        invariant Consistent(total, calls, Run(window, wholeBanStatus, trace[i..]))
      {
        ghost var before := wholeBanStatus;
        var o := trace[i];
        var c := Tick(o.now, o.announceOk, o.muteOk);
        RunUnfold(window, before, trace[i..]);
        assert trace[i..][0] == o && trace[i..][1..] == trace[i + 1..];
        ConsistentShift(total, calls, c, Run(window, wholeBanStatus, trace[i + 1..]));
        calls := calls + c;
        i := i + 1;
      }
      assert trace[i..] == [];
    }
  }

  /** `done` followed by what remains to run gives `total`. */
  ghost predicate Consistent(total: TickResult, done: seq<Call>, remaining: TickResult)
  {
    total.status == remaining.status && total.calls == done + remaining.calls
  }

  lemma ConsistentShift(total: TickResult, done: seq<Call>, c: seq<Call>, rest: TickResult)
    requires Consistent(total, done, TickResult(rest.status, c + rest.calls))
    ensures Consistent(total, done + c, rest)
  {
    assert done + (c + rest.calls) == (done + c) + rest.calls;
  }

  lemma RunUnfold(w: Window, status: bool, trace: seq<Observation>)
    requires trace != []
    ensures var r := Step(w, status, trace[0].now, trace[0].announceOk, trace[0].muteOk);
      var rest := Run(w, r.status, trace[1..]);
      Run(w, status, trace) == TickResult(rest.status, r.calls + rest.calls)
  {
  }

  /** The configured default window 23:30-6:00 (main.py:60-61) evaluated at a few times. */
  lemma DefaultWindowScenario()
    ensures ParseClock("23:30") == Some(84600) && ParseClock("6:00") == Some(21600)
    ensures var w := Window(84600, 21600);
      InCurfew(w, 84660) && !InCurfew(w, 43200) && InCurfew(w, 21540)
      && InCurfew(w, 21600) && !InCurfew(w, 21601)
  {
    assert "23:30"[2] == ':' && "23:30"[..2] == "23" && "23:30"[3..] == "30";
    assert "6:00"[1] == ':' && "6:00"[..1] == "6" && "6:00"[2..] == "00";
  }
}
