/**
 * The flood ("刷屏") detector of main.py's `spamming_ban`: per group and user
 * a deque holding at most `min_count` arrival times, and the time of the
 * user's last ban. Times are integer milliseconds; `min_interval` is given in
 * milliseconds and `spamming_ban_time` in seconds, as the plugin configures it.
 */
module Spam {

  /** A (group id, user id) pair, the two keys of the nested `defaultdict`s. */
  type Key = (string, string)

  /** `deque.append` on a deque with `maxlen`: once full, the oldest entry falls out. */
  function Push(d: seq<int>, x: int, maxlen: nat): (r: seq<int>)
    requires maxlen > 0
    ensures |r| == if |d| + 1 <= maxlen then |d| + 1 else maxlen
  {
    var t := d + [x];
    if |t| <= maxlen then t else t[|t| - maxlen..]
  }

  /** The last `n` elements of `s` (all of them if there are fewer). */
  function Last(s: seq<int>, n: nat): (r: seq<int>)
  {
    if |s| <= n then s else s[|s| - n..]
  }

  /** Appending the elements of `xs` one at a time. */
  function PushAll(d: seq<int>, xs: seq<int>, maxlen: nat): seq<int>
    requires maxlen > 0
    decreases |xs|
  {
    if xs == [] then d else PushAll(Push(d, xs[0], maxlen), xs[1..], maxlen)
  }

  /** A bounded deque holds exactly the last `maxlen` times ever appended to it since it was empty. */
  lemma {:induction false} PushAllKeepsLast(d: seq<int>, xs: seq<int>, maxlen: nat)
    requires maxlen > 0 && |d| <= maxlen
    ensures PushAll(d, xs, maxlen) == Last(d + xs, maxlen)
    decreases |xs|
  {
    if xs == [] {
      assert d + xs == d;
    } else {
      var x, rest := xs[0], xs[1..];
      var e := d + [x];
      var d' := Push(d, x, maxlen);
      PushIsLast(d, x, maxlen);
      PushAllKeepsLast(d', rest, maxlen);
      LastOfLast(e, rest, maxlen);
      assert e + rest == d + xs;
    }
  }

  lemma PushIsLast(d: seq<int>, x: int, maxlen: nat)
    requires maxlen > 0
    ensures var r := Push(d, x, maxlen); r == Last(d + [x], maxlen) && |r| <= maxlen
  {
  }

  lemma LastOfLast(a: seq<int>, b: seq<int>, n: nat)
    ensures Last(Last(a, n) + b, n) == Last(a + b, n)
  {
    if |a| > n {
      var k := |a| - n;
      var c := a[k..] + b;
      assert c == (a + b)[k..];
      if |c| > n {
        assert c[|c| - n..] == (a + b)[|a + b| - n..];
      }
    }
  }

  /** Every gap between neighbouring times is below `minInterval`. */
  predicate GapsBelow(recent: seq<int>, minInterval: int)
  {
    forall i :: 0 <= i < |recent| - 1 ==> recent[i + 1] - recent[i] < minInterval
  }

  /** `all(interval < min_interval for interval in intervals)` as the plugin computes it. */
  method CheckGaps(recent: seq<int>, minInterval: int) returns (ok: bool)
    ensures ok <==> GapsBelow(recent, minInterval)
  {
    ok := true;
    var i := 0;
    while i + 1 < |recent|
      invariant 0 <= i && (i == 0 || i < |recent|)
      invariant ok <==> forall j :: 0 <= j < i ==> recent[j + 1] - recent[j] < minInterval
    {
      if !(recent[i + 1] - recent[i] < minInterval) {
        ok := false;
      }
      i := i + 1;
    }
  }

  /** The settings `spamming_ban` reads (main.py:77-83). */
  datatype Config = Config(minInterval: int, minCount: nat, banTime: int, whitelist: seq<string>)

  /** The two tables: missing deques are empty and a missing last ban time is 0, as the `defaultdict`s give. */
  datatype Tables = Tables(timestamps: map<Key, seq<int>>, lastBanned: map<Key, int>)

  function Held(t: Tables, k: Key): seq<int>
  {
    if k in t.timestamps then t.timestamps[k] else []
  }

  function LastBan(t: Tables, k: Key): int
  {
    if k in t.lastBanned then t.lastBanned[k] else 0
  }

  /** No deque holds more than `min_count` times. */
  predicate Bounded(c: Config, t: Tables)
  {
    forall k :: k in t.timestamps ==> |t.timestamps[k]| <= c.minCount
  }

  /** The message is looked at at all: detection is on and the group is not excluded by the whitelist. */
  predicate Watched(c: Config, groupId: string)
  {
    c.minCount != 0 && (c.whitelist == [] || groupId in c.whitelist)
  }

  /** The user is still inside the cool-down after the last ban. */
  predicate Cooling(c: Config, t: Tables, k: Key, now: int)
  {
    now - LastBan(t, k) < c.banTime * 1000
  }

  /** The outcome of one message: the new tables and whether a ban is issued. */
  datatype Outcome = Outcome(tables: Tables, ban: bool)

  /** The rule of `spamming_ban` (main.py:429-474) for a message from `userId` in `groupId` at `now`. */
  function Detect(c: Config, t: Tables, groupId: string, userId: string, now: int): Outcome
  {
    var k := (groupId, userId);
    if !Watched(c, groupId) || Cooling(c, t, k, now) then Outcome(t, false)
    else
      var held := Push(Held(t, k), now, c.minCount);
      if |held| >= c.minCount && GapsBelow(Last(held, c.minCount), c.minInterval) && c.banTime != 0 then
        Outcome(Tables(t.timestamps[k := []], t.lastBanned[k := now]), true)
      else
        Outcome(Tables(t.timestamps[k := held], t.lastBanned), false)
  }

  /** A watched message outside the cool-down is recorded, and bans when the full deque has only short gaps. */
  lemma DetectRecords(c: Config, t: Tables, groupId: string, userId: string, now: int)
    requires Watched(c, groupId) && !Cooling(c, t, (groupId, userId), now)
    ensures var k := (groupId, userId);
      var held := Push(Held(t, k), now, c.minCount);
      |held| <= c.minCount
      && Detect(c, t, groupId, userId, now) ==
        if |held| == c.minCount && GapsBelow(held, c.minInterval) && c.banTime != 0 then
          Outcome(Tables(t.timestamps[k := []], t.lastBanned[k := now]), true)
        else
          Outcome(Tables(t.timestamps[k := held], t.lastBanned), false)
  {
    var held := Push(Held(t, (groupId, userId)), now, c.minCount);
    assert |held| >= c.minCount ==> Last(held, c.minCount) == held;
  }

  /** At most `min_count` times are ever held per user. */
  lemma DetectKeepsBound(c: Config, t: Tables, groupId: string, userId: string, now: int)
    requires Bounded(c, t)
    ensures Bounded(c, Detect(c, t, groupId, userId, now).tables)
  {
  }

  /**
   * A ban is issued exactly when the message is watched and outside the
   * cool-down, at least `min_count` times are then held, all gaps between
   * them are below `min_interval`, and the ban time is not zero.
   */
  lemma DetectBansIff(c: Config, t: Tables, groupId: string, userId: string, now: int)
    requires Bounded(c, t)
    ensures var k := (groupId, userId);
      var held := if c.minCount > 0 then Push(Held(t, k), now, c.minCount) else [];
      Detect(c, t, groupId, userId, now).ban <==>
        Watched(c, groupId) && !Cooling(c, t, k, now)
        && |held| == c.minCount && GapsBelow(held, c.minInterval) && c.banTime != 0
  {
    var k := (groupId, userId);
    if Watched(c, groupId) && !Cooling(c, t, k, now) {
      var held := Push(Held(t, k), now, c.minCount);
      assert Last(held, c.minCount) == held;
    }
  }

  /** A message that is not watched or that comes during the cool-down changes nothing and bans no one. */
  lemma IgnoredLeavesTables(c: Config, t: Tables, groupId: string, userId: string, now: int)
    requires !Watched(c, groupId) || Cooling(c, t, (groupId, userId), now)
    ensures Detect(c, t, groupId, userId, now) == Outcome(t, false)
  {
  }

  /** After a ban the user's deque is empty and the last ban is now, whatever the ban call did; no other user changes. */
  lemma BanResets(c: Config, t: Tables, groupId: string, userId: string, now: int)
    requires Detect(c, t, groupId, userId, now).ban
    ensures var t' := Detect(c, t, groupId, userId, now).tables;
      var k := (groupId, userId);
      Held(t', k) == [] && LastBan(t', k) == now && (c.banTime > 0 ==> Cooling(c, t', k, now))
      && forall j :: j != k ==> Held(t', j) == Held(t, j) && LastBan(t', j) == LastBan(t, j)
  {
  }

  /**
   * With `min_count` messages arriving in one burst after a ban, every gap
   * below `min_interval` and the cool-down over, the last of them is banned
   * when the ban time is positive.
   */
  lemma BurstIsBanned(c: Config, t: Tables, groupId: string, userId: string, burst: seq<int>)
    requires Watched(c, groupId) && c.banTime > 0
    requires Held(t, (groupId, userId)) == [] && |burst| == c.minCount
    requires GapsBelow(burst, c.minInterval)
    requires forall i :: 0 <= i < |burst| ==> !Cooling(c, t, (groupId, userId), burst[i])
    ensures Run(c, t, groupId, userId, burst).ban
  {
    var k := (groupId, userId);
    BurstAccumulates(c, t, groupId, userId, burst, |burst| - 1);
    var t' := RunPrefix(c, t, groupId, userId, burst[..|burst| - 1]);
    var now := burst[|burst| - 1];
    assert burst[..|burst| - 1] + [now] == burst;
    RunSnoc(c, t, groupId, userId, burst[..|burst| - 1], now);
    var held := Push(Held(t', k), now, c.minCount);
    assert held == burst;
  }

  /** The tables after feeding the messages of `times` one by one. */
  function RunPrefix(c: Config, t: Tables, groupId: string, userId: string, times: seq<int>): Tables
    decreases |times|
  {
    if times == [] then t
    else RunPrefix(c, Detect(c, t, groupId, userId, times[0]).tables, groupId, userId, times[1..])
  }

  /** The outcome of the last of a non-empty sequence of messages. */
  function Run(c: Config, t: Tables, groupId: string, userId: string, times: seq<int>): Outcome
    requires times != []
  {
    Detect(c, RunPrefix(c, t, groupId, userId, times[..|times| - 1]), groupId, userId, times[|times| - 1])
  }

  lemma {:induction false} RunSnoc(c: Config, t: Tables, groupId: string, userId: string, times: seq<int>, x: int)
    ensures RunPrefix(c, t, groupId, userId, times + [x])
      == Detect(c, RunPrefix(c, t, groupId, userId, times), groupId, userId, x).tables
    decreases |times|
  {
    if times == [] {
      assert ([] + [x])[1..] == [];
    } else {
      assert (times + [x])[1..] == times[1..] + [x];
      RunSnoc(c, Detect(c, t, groupId, userId, times[0]).tables, groupId, userId, times[1..], x);
    }
  }

  /** Before the ban fires, each message of the burst is recorded and nothing else of the user changes. */
  lemma {:induction false} BurstAccumulates(c: Config, t: Tables, groupId: string, userId: string,
                                            burst: seq<int>, n: nat)
    requires Watched(c, groupId) && c.banTime > 0
    requires Held(t, (groupId, userId)) == [] && n < |burst| == c.minCount
    requires GapsBelow(burst, c.minInterval)
    requires forall i :: 0 <= i < |burst| ==> !Cooling(c, t, (groupId, userId), burst[i])
    ensures var t' := RunPrefix(c, t, groupId, userId, burst[..n]);
      Held(t', (groupId, userId)) == burst[..n] && LastBan(t', (groupId, userId)) == LastBan(t, (groupId, userId))
    decreases n
  {
    var k := (groupId, userId);
    if n == 0 {
      assert burst[..0] == [];
    } else {
      BurstAccumulates(c, t, groupId, userId, burst, n - 1);
      var prev := RunPrefix(c, t, groupId, userId, burst[..n - 1]);
      assert burst[..n - 1] + [burst[n - 1]] == burst[..n];
      RunSnoc(c, t, groupId, userId, burst[..n - 1], burst[n - 1]);
      assert !Cooling(c, prev, k, burst[n - 1]);
      var held := Push(Held(prev, k), burst[n - 1], c.minCount);
      assert held == burst[..n];
      assert |held| < c.minCount;
    }
  }

  /** The detector's state: the configuration and the two nested tables of the plugin. */
  class Detector {
    const config: Config
    var timestamps: map<Key, seq<int>>
    var lastBanned: map<Key, int>

    ghost predicate Valid()
      reads this
    {
      Bounded(config, Tables(timestamps, lastBanned))
    }

    constructor (config: Config)
      ensures this.config == config && timestamps == map[] && lastBanned == map[] && Valid()
    {
      this.config := config;
      timestamps := map[];
      lastBanned := map[];
    }

    /**
     * `spamming_ban` for one group message (main.py:427-474). Returns true
     * when `set_group_ban` is called; its outcome does not change the tables.
     */
    method OnMessage(groupId: string, userId: string, now: int) returns (ban: bool)
      requires Valid()
      modifies this`timestamps, this`lastBanned
      ensures Valid()
      ensures Outcome(Tables(timestamps, lastBanned), ban)
        == Detect(config, Tables(old(timestamps), old(lastBanned)), groupId, userId, now)
    {
      ghost var t := Tables(timestamps, lastBanned);
      DetectKeepsBound(config, t, groupId, userId, now);
      if config.minCount == 0 {
        return false;
      }
      if config.whitelist != [] && groupId !in config.whitelist {
        return false;
      }
      var k := (groupId, userId);
      var lastTime := if k in lastBanned then lastBanned[k] else 0;
      if now - lastTime < config.banTime * 1000 {
        assert Cooling(config, t, k, now);
        return false;
      }
      DetectRecords(config, t, groupId, userId, now);
      var held := Push(if k in timestamps then timestamps[k] else [], now, config.minCount);
      assert held == Push(Held(t, k), now, config.minCount);
      timestamps := timestamps[k := held];
      ban := false;
      if |held| >= config.minCount {
        var recent := held[|held| - config.minCount..];
        assert recent == held;
        var quick := CheckGaps(recent, config.minInterval);
        if quick && config.banTime != 0 {
          lastBanned := lastBanned[k := now];
          ban := true;
          timestamps := timestamps[k := []];
          assert timestamps == t.timestamps[k := []];
        }
      }
    }
  }
}
