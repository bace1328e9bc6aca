/**
 * The member filter of main.py's `clear_group_member` ("清理群友"): the
 * members who have not spoken since the threshold and whose group level is
 * below the given one. Missing fields take the defaults the plugin gives
 * them (`last_sent_time` and `level` 0, `user_id` empty).
 */
module Members {
  import opened Wrappers

  /** The fields of one entry of `get_group_member_list` the filter reads. */
  datatype MemberRecord = MemberRecord(lastSent: Option<int>, level: Option<int>, userId: Option<string>)

  /** The command's defaults for `inactive_days` and `under_level` (main.py:809-810). */
  const DefaultInactiveDays: int := 30
  const DefaultUnderLevel: int := 10

  /** `threshold_ts`: `now` less the given number of whole days, in seconds (main.py:823). */
  function Threshold(now: int, inactiveDays: int): int
  {
    now - inactiveDays * 86400
  }

  /** The test at main.py:833. */
  predicate Stale(m: MemberRecord, threshold: int, underLevel: int)
  {
    m.lastSent.GetOr(0) < threshold && m.level.GetOr(0) < underLevel
  }

  /** The ids of the stale members, in list order. */
  function Selected(members: seq<MemberRecord>, threshold: int, underLevel: int): (r: seq<string>)
    ensures |r| <= |members|
    decreases |members|
  {
    if members == [] then []
    else
      (if Stale(members[0], threshold, underLevel) then [members[0].userId.GetOr("")] else [])
      + Selected(members[1..], threshold, underLevel)
  }

  lemma {:induction false} SelectedAppend(a: seq<MemberRecord>, b: seq<MemberRecord>, threshold: int, underLevel: int)
    ensures Selected(a + b, threshold, underLevel) == Selected(a, threshold, underLevel) + Selected(b, threshold, underLevel)
    decreases |a|
  {
    if a == [] {
      assert a + b == b;
    } else {
      assert (a + b)[0] == a[0] && (a + b)[1..] == a[1..] + b;
      SelectedAppend(a[1..], b, threshold, underLevel);
    }
  }

  /** An id is selected exactly when some member with that id is stale. */
  lemma {:induction false} SelectedIff(members: seq<MemberRecord>, threshold: int, underLevel: int, id: string)
    ensures id in Selected(members, threshold, underLevel) <==>
      exists k :: 0 <= k < |members| && Stale(members[k], threshold, underLevel) && members[k].userId.GetOr("") == id
    decreases |members|
  {
    if members != [] {
      SelectedIff(members[1..], threshold, underLevel, id);
      if exists k :: 0 <= k < |members| && Stale(members[k], threshold, underLevel) && members[k].userId.GetOr("") == id {
        var k :| 0 <= k < |members| && Stale(members[k], threshold, underLevel) && members[k].userId.GetOr("") == id;
        if k > 0 {
          assert members[1..][k - 1] == members[k];
        }
      }
      if id in Selected(members[1..], threshold, underLevel) {
        var k :| 0 <= k < |members[1..]| && Stale(members[1..][k], threshold, underLevel)
          && members[1..][k].userId.GetOr("") == id;
        assert members[k + 1] == members[1..][k];
      }
    }
  }

  /** The loop at main.py:827-834 that builds `clear_ids`. */
  method ClearIds(members: seq<MemberRecord>, now: int, inactiveDays: int, underLevel: int) returns (ids: seq<string>)
    ensures ids == Selected(members, Threshold(now, inactiveDays), underLevel)
  {
    var threshold := now - inactiveDays * 86400;
    ids := [];
    var i := 0;
    while i < |members|
      invariant 0 <= i <= |members|
      invariant ids == Selected(members[..i], threshold, underLevel)
    {
      var m := members[i];
      var lastSent := m.lastSent.GetOr(0);
      var level := m.level.GetOr(0);
      assert members[..i + 1] == members[..i] + [m];
      SelectedAppend(members[..i], [m], threshold, underLevel);
      assert [m][1..] == [];
      if lastSent < threshold && level < underLevel {
        ids := ids + [m.userId.GetOr("")];
      }
      i := i + 1;
    }
    assert members[..i] == members;
  }

  /** With the defaults, a member silent for more than 30 days below level 10 is selected; one who spoke since is not. */
  lemma DefaultsExample(now: int)
    ensures Selected([MemberRecord(Some(now - 31 * 86400), Some(3), Some("1")),
                      MemberRecord(Some(now - 86400), Some(3), Some("2")),
                      MemberRecord(None, None, Some("3"))],
                     Threshold(now, DefaultInactiveDays), DefaultUnderLevel)
      == (if now > 30 * 86400 then ["1", "3"] else ["1"])
  {
    var ms := [MemberRecord(Some(now - 31 * 86400), Some(3), Some("1")),
               MemberRecord(Some(now - 86400), Some(3), Some("2")),
               MemberRecord(None, None, Some("3"))];
    var t := Threshold(now, DefaultInactiveDays);
    assert ms[1..][1..] == [ms[2]] && [ms[2]][1..] == [];
    assert Selected([ms[2]], t, DefaultUnderLevel) == if now > 30 * 86400 then ["3"] else [];
    assert Selected(ms[1..], t, DefaultUnderLevel) == Selected([ms[2]], t, DefaultUnderLevel);
  }
}
