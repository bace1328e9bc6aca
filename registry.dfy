/**
 * The curfew registry of main.py: the plugin's `curfew_managers` map from
 * group id to `CurfewManager`, changed by the "开启宵禁" / "关闭宵禁" commands
 * (`start_curfew`, `stop_curfew`) and emptied by `terminate` when the plugin
 * is unloaded.
 */
module CurfewRegistry {
  import opened Wrappers
  import opened Text
  import opened Clock
  import opened Curfew

  /** The defaults of `night_start_time` and `night_end_time` when the configuration has none (main.py:60-61). */
  const DefaultStart: string := "23:30"
  const DefaultEnd: string := "6:00"

  /**
   * A command argument as `start_curfew` prepares it: the configured default
   * when it is missing or empty, then `strip()`, then the full-width colon
   * "：" replaced by ":" (main.py:564-569).
   */
  function TimeArgument(input: Option<string>, default: string): string
  {
    var raw := if input.Some? && input.value != "" then input.value else default;
    ReplaceChar(Strip(raw), '：', ':')
  }

  /** A spelling the parser accepts has no full-width colon and does not start or end with whitespace. */
  lemma ParsedIsClean(s: string)
    requires ParseClock(s).Some?
    ensures |s| >= 3 && !IsSpace(s[0]) && !IsSpace(s[|s| - 1]) && '：' !in s
  {
    ParsedShape(s);
  }

  /** The same spelling with its colon typed full-width keeps its ends and turns back into itself. */
  lemma WideSpelling(s: string)
    requires ParseClock(s).Some?
    ensures var wide := ReplaceChar(s, ':', '：');
      |wide| >= 3 && !IsSpace(wide[0]) && !IsSpace(wide[|wide| - 1])
      && ReplaceChar(wide, '：', ':') == s
  {
    ParsedIsClean(s);
    ReplaceRoundTrip(s, ':', '：');
  }

  /** A string that already parses passes through the preparation unchanged. */
  lemma CleanArgument(s: string, default: string)
    requires ParseClock(s).Some?
    ensures TimeArgument(Some(s), default) == s && TimeArgument(None, s) == s
  {
    ParsedIsClean(s);
    CleanPassesThrough(s, default);
  }

  lemma CleanPassesThrough(s: string, default: string)
    requires s != [] && !IsSpace(s[0]) && !IsSpace(s[|s| - 1]) && '：' !in s
    ensures TimeArgument(Some(s), default) == s && TimeArgument(None, s) == s
  {
    StripUnpadded(s);
    ReplaceAbsent(s, '：', ':');
  }

  /**
   * Any spelling the parser accepts still parses after surrounding
   * whitespace is added and its colon is typed full-width.
   */
  lemma TimeArgumentTolerant(pre: string, s: string, post: string, t: TimeOfDay, default: string)
    requires AllSpace(pre) && AllSpace(post)
    requires ParseClock(s) == Some(t)
    ensures ParseClock(TimeArgument(Some(pre + ReplaceChar(s, ':', '：') + post), default)) == Some(t)
  {
    var wide := ReplaceChar(s, ':', '：');
    WideSpelling(s);
    StripPadded(pre, wide, post);
  }

  /** Without arguments the command uses 23:30 and 6:00, i.e. 23:30-06:00. */
  lemma DefaultArguments()
    ensures ParseClock(TimeArgument(None, DefaultStart)) == Some(84600)
    ensures ParseClock(TimeArgument(None, DefaultEnd)) == Some(21600)
  {
    DefaultWindowScenario();
    CleanArgument(DefaultStart, DefaultStart);
    CleanArgument(DefaultEnd, DefaultEnd);
  }

  /** Both prepared arguments parse. */
  predicate Parses(inputStart: Option<string>, inputEnd: Option<string>, nightStart: string, nightEnd: string)
  {
    ParseClock(TimeArgument(inputStart, nightStart)).Some?
    && ParseClock(TimeArgument(inputEnd, nightEnd)).Some?
  }

  /** The window the prepared arguments denote. */
  function ArgumentWindow(inputStart: Option<string>, inputEnd: Option<string>, nightStart: string, nightEnd: string): Window
    requires Parses(inputStart, inputEnd, nightStart, nightEnd)
  {
    Window(ParseClock(TimeArgument(inputStart, nightStart)).value,
           ParseClock(TimeArgument(inputEnd, nightEnd)).value)
  }

  /** What `start_curfew` answers. */
  datatype StartReply = AlreadyRunning | Created(startText: string, endText: string) | BadFormat

  /** What `stop_curfew` answers. */
  datatype StopReply = NoGroupId | Stopped | NotRunning

  /** The plugin's `curfew_managers`. */
  class CurfewRegistry {
    /** The configured `night_start_time` and `night_end_time`. */
    const nightStart: string
    const nightEnd: string
    var managers: map<string, CurfewManager>

    /** The tasks the registered managers hold. */
    ghost function Tasks(): set<Task>
      reads this, managers.Values
    {
      set m | m in managers.Values && m.curfewTask != null :: m.curfewTask
    }

    /** No two groups share a manager or a manager's task, as each start creates both afresh. */
    ghost predicate Valid()
      reads this, managers.Values
    {
      forall g, h :: g in managers && h in managers && g != h ==>
        managers[g] != managers[h]
        && (managers[g].curfewTask == null || managers[g].curfewTask != managers[h].curfewTask)
    }

    /** The plugin at load time, with its configured curfew defaults. */
    constructor (nightStart: string, nightEnd: string)
      ensures this.nightStart == nightStart && this.nightEnd == nightEnd
      ensures managers == map[] && Valid()
    {
      this.nightStart := nightStart;
      this.nightEnd := nightEnd;
      managers := map[];
    }

    /** The entry for `groupId` exists and its manager is running. */
    predicate Active(groupId: string)
      reads this, managers.Values, Tasks()
    {
      groupId in managers && managers[groupId].IsRunning()
    }

    /**
     * `start_curfew` (main.py:562-593): refuses while the group's manager
     * runs; otherwise builds a manager from the prepared arguments, starts
     * it and only then writes it into the map, replacing any stale entry. A
     * time that does not parse leaves the map as it was.
     */
    method StartCurfew(groupId: string, inputStart: Option<string>, inputEnd: Option<string>)
      returns (reply: StartReply)
      requires Valid()
      modifies this
      ensures Valid()
      ensures old(Active(groupId)) ==> reply == AlreadyRunning && managers == old(managers)
      ensures !old(Active(groupId)) && !Parses(inputStart, inputEnd, nightStart, nightEnd) ==>
        reply == BadFormat && managers == old(managers)
      ensures !old(Active(groupId)) && Parses(inputStart, inputEnd, nightStart, nightEnd) ==>
        && reply == Created(TimeArgument(inputStart, nightStart), TimeArgument(inputEnd, nightEnd))
        && groupId in managers && fresh(managers[groupId])
        && managers == old(managers)[groupId := managers[groupId]]
        && managers[groupId].IsRunning() && !managers[groupId].wholeBanStatus
        && managers[groupId].groupId == groupId
        && managers[groupId].window == ArgumentWindow(inputStart, inputEnd, nightStart, nightEnd)
    {
      var startText := TimeArgument(inputStart, nightStart);
      var endText := TimeArgument(inputEnd, nightEnd);
      reply := StartPrepared(groupId, startText, endText);
    }

    /** The part of `start_curfew` after its arguments are prepared (main.py:570-593). */
    method StartPrepared(groupId: string, startText: string, endText: string) returns (reply: StartReply)
      requires Valid()
      modifies this
      ensures Valid()
      ensures old(Active(groupId)) ==> reply == AlreadyRunning && managers == old(managers)
      ensures !old(Active(groupId)) && !(ParseClock(startText).Some? && ParseClock(endText).Some?) ==>
        reply == BadFormat && managers == old(managers)
      ensures !old(Active(groupId)) && ParseClock(startText).Some? && ParseClock(endText).Some? ==>
        && reply == Created(startText, endText)
        && groupId in managers && fresh(managers[groupId])
        && managers == old(managers)[groupId := managers[groupId]]
        && managers[groupId].IsRunning() && !managers[groupId].wholeBanStatus
        && managers[groupId].groupId == groupId
        && managers[groupId].window == Window(ParseClock(startText).value, ParseClock(endText).value)
    {
      if groupId in managers && managers[groupId].IsRunning() {
        return AlreadyRunning;
      }
      var created := CurfewManager.Create(groupId, startText, endText);
      if created.Err? {
        return BadFormat;
      }
      var m := created.value;
      m.StartCurfewTask();
      assert forall h :: h in managers ==>
        managers[h] != m && (managers[h].curfewTask == null || managers[h].curfewTask != m.curfewTask);
      managers := managers[groupId := m];
      reply := Created(startText, endText);
    }

    /**
     * `stop_curfew` (main.py:597-613): without a group id nothing happens;
     * a running manager is stopped and its entry deleted; otherwise the
     * answer is "not running" and the map, stale entries included, stays.
     * Other groups' managers are not touched.
     */
    method StopCurfew(groupId: string) returns (reply: StopReply)
      requires Valid()
      modifies this, managers.Values, Tasks()
      ensures Valid()
      ensures groupId == "" ==> reply == NoGroupId && managers == old(managers)
      ensures groupId != "" && old(Active(groupId)) ==>
        && reply == Stopped && managers == old(managers) - {groupId}
        && old(managers[groupId]).curfewTask == null
        && !old(managers[groupId]).IsRunning()
        && old(managers[groupId]).wholeBanStatus == old(managers[groupId].wholeBanStatus)
      ensures groupId != "" && !old(Active(groupId)) ==> reply == NotRunning && managers == old(managers)
      ensures forall h :: h in managers ==>
        unchanged(managers[h]) && (managers[h].curfewTask != null ==> unchanged(managers[h].curfewTask))
    {
      if groupId == "" {
        return NoGroupId;
      }
      if groupId in managers && managers[groupId].IsRunning() {
        Discard(groupId);
        reply := Stopped;
      } else {
        reply := NotRunning;
      }
    }

    /**
     * One iteration of `terminate`'s loop (main.py:908-910): stop the
     * group's manager if it runs, then delete its entry. Nothing else changes.
     */
    method Discard(groupId: string)
      requires Valid() && groupId in managers
      modifies this, managers[groupId], managers[groupId].curfewTask
      ensures Valid() && managers == old(managers) - {groupId}
      ensures var m := old(managers[groupId]);
        && !m.IsRunning()
        && (old(m.IsRunning()) ==> m.curfewTask == null)
        && (!old(m.IsRunning()) ==> unchanged(m) && (m.curfewTask != null ==> unchanged(m.curfewTask)))
        && m.wholeBanStatus == old(m.wholeBanStatus)
      ensures forall h :: h in managers ==>
        unchanged(managers[h]) && (managers[h].curfewTask != null ==> unchanged(managers[h].curfewTask))
    {
      var m := managers[groupId];
      if m.IsRunning() {
        m.StopCurfewTask();
      }
      managers := managers - {groupId};
    }

    /**
     * `terminate` (main.py:904-911): every manager that was running is
     * stopped, every entry is deleted, and managers that were not running are
     * left as they were.
     */
    method Terminate()
      requires Valid()
      modifies this, managers.Values, Tasks()
      ensures managers == map[] && Valid()
      ensures forall g :: g in old(managers) ==> !old(managers)[g].IsRunning()
      ensures forall g :: g in old(managers) && old(managers[g].IsRunning()) ==>
        old(managers)[g].curfewTask == null
      ensures forall g :: g in old(managers) && !old(managers[g].IsRunning()) ==>
        unchanged(old(managers)[g])
        && (old(managers)[g].curfewTask != null ==> unchanged(old(managers)[g].curfewTask))
      ensures forall g :: g in old(managers) ==> old(managers)[g].wholeBanStatus == old(managers[g].wholeBanStatus)
    {
      var pending := managers.Keys;
      while pending != {}
        invariant Valid()
        invariant managers.Keys == pending
        invariant forall g :: g in managers ==> managers[g] == old(managers)[g]
        invariant forall g :: g in managers ==>
          unchanged(managers[g]) && (managers[g].curfewTask != null ==> unchanged(managers[g].curfewTask))
        invariant forall g :: g in old(managers) && g !in pending ==>
          !old(managers)[g].IsRunning()
          && (old(managers[g].IsRunning()) ==> old(managers)[g].curfewTask == null)
          && (!old(managers[g].IsRunning()) ==>
                unchanged(old(managers)[g])
                && (old(managers)[g].curfewTask != null ==> unchanged(old(managers)[g].curfewTask)))
          && old(managers)[g].wholeBanStatus == old(managers[g].wholeBanStatus)
        decreases pending
      {
        var g :| g in pending;
        Discard(g);
        pending := pending - {g};
      }
    }
  }
}
