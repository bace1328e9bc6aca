/**
 * core/group_join_manager.py: per group, the keywords that let a join
 * request through and the user ids that are refused. The tables live in
 * memory here; loading them from and saving them to the JSON file is not
 * part of this model.
 */
module GroupJoin {
  import opened Text

  /** A group's list, or the empty list when the group has none (`dict.get(g, [])`). */
  function Get(table: map<string, seq<string>>, groupId: string): seq<string>
  {
    if groupId in table then table[groupId] else []
  }

  function Elems(s: seq<string>): set<string>
  {
    set x | x in s
  }

  predicate NoDuplicates(s: seq<string>)
  {
    forall i, j :: 0 <= i < j < |s| ==> s[i] != s[j]
  }

  /**
   * `list(set(s))`: every element once. Python leaves the order open; this
   * method keeps first occurrences, and its contract promises no order.
   */
  method Dedup(s: seq<string>) returns (r: seq<string>)
    ensures NoDuplicates(r) && Elems(r) == Elems(s)
  {
    r := [];
    var i := 0;
    while i < |s|
      invariant 0 <= i <= |s|
      invariant NoDuplicates(r)
      invariant Elems(r) == Elems(s[..i])
    {
      assert s[..i + 1] == s[..i] + [s[i]];
      assert Elems(s[..i + 1]) == Elems(s[..i]) + {s[i]};
      if s[i] !in r {
        assert Elems(r + [s[i]]) == Elems(r) + {s[i]};
        r := r + [s[i]];
      }
      i := i + 1;
    }
    assert s[..i] == s;
  }

  /** `list.remove(x)` when `x` is present: the first occurrence goes. */
  function RemoveFirst(s: seq<string>, x: string): (r: seq<string>)
    ensures multiset(r) == multiset(s) - multiset{x}
    decreases |s|
  {
    if s == [] then []
    else
      assert s == [s[0]] + s[1..];
      if s[0] == x then s[1..]
      else [s[0]] + RemoveFirst(s[1..], x)
  }

  /** The list after the loop `for k in items: if k in lst: lst.remove(k)` has run over `items`. */
  function RemoveAll(s: seq<string>, items: seq<string>): seq<string>
    decreases |items|
  {
    if items == [] then s
    else
      var t := RemoveAll(s, items[..|items| - 1]);
      var x := items[|items| - 1];
      if x in t then RemoveFirst(t, x) else t
  }

  /** One occurrence of each listed item is removed while any is left: multiset difference. */
  lemma {:induction false} RemoveAllIsDifference(s: seq<string>, items: seq<string>)
    ensures multiset(RemoveAll(s, items)) == multiset(s) - multiset(items)
    decreases |items|
  {
    if items != [] {
      var init := items[..|items| - 1];
      var x := items[|items| - 1];
      RemoveAllIsDifference(s, init);
      assert items == init + [x];
      var t := RemoveAll(s, init);
      if x !in t {
        assert multiset(t)[x] == 0;
      }
      assert multiset(RemoveAll(s, items)) == multiset(t) - multiset{x};
      assert multiset(items) == multiset(init) + multiset{x};
      DifferenceOfSum(multiset(s), multiset(init), multiset{x});
    }
  }

  lemma DifferenceOfSum(m: multiset<string>, a: multiset<string>, b: multiset<string>)
    ensures (m - a) - b == m - (a + b)
  {
    forall y ensures ((m - a) - b)[y] == (m - (a + b))[y] {
    }
  }

  /** The removal loop of `remove_keyword` and `remove_reject_id` (core/group_join_manager.py:67-69, 82-84). */
  method RemoveEach(s: seq<string>, items: seq<string>) returns (r: seq<string>)
    ensures r == RemoveAll(s, items)
  {
    r := s;
    var i := 0;
    while i < |items|
      invariant 0 <= i <= |items|
      invariant r == RemoveAll(s, items[..i])
    {
      assert items[..i + 1][..i] == items[..i];
      if items[i] in r {
        r := RemoveFirst(r, items[i]);
      }
      i := i + 1;
    }
    assert items[..i] == items;
  }

  /** `any(kw.lower() in text for kw in keywords)`, with `text` already lower-cased. */
  predicate AnyKeyword(keywords: seq<string>, text: string)
    decreases |keywords|
  {
    keywords != [] && (Contains(text, Lower(keywords[0])) || AnyKeyword(keywords[1..], text))
  }

  lemma {:induction false} AnyKeywordExists(keywords: seq<string>, text: string)
    ensures AnyKeyword(keywords, text) <==> exists k :: 0 <= k < |keywords| && Contains(text, Lower(keywords[k]))
    decreases |keywords|
  {
    if keywords != [] {
      AnyKeywordExists(keywords[1..], text);
      if exists k :: 0 <= k < |keywords| && Contains(text, Lower(keywords[k])) {
        var k :| 0 <= k < |keywords| && Contains(text, Lower(keywords[k]));
        if k > 0 {
          assert keywords[1..][k - 1] == keywords[k];
        }
      }
      if AnyKeyword(keywords[1..], text) && !Contains(text, Lower(keywords[0])) {
        var k :| 0 <= k < |keywords[1..]| && Contains(text, Lower(keywords[1..][k]));
        assert keywords[k + 1] == keywords[1..][k];
      }
    }
  }

  /** `GroupJoinManager` together with its `GroupJoinData` tables. */
  class GroupJoinManager {
    var acceptKeywords: map<string, seq<string>>
    var rejectIds: map<string, seq<string>>

    /** A manager over the tables read from the data file. */
    constructor (acceptKeywords: map<string, seq<string>>, rejectIds: map<string, seq<string>>)
      ensures this.acceptKeywords == acceptKeywords && this.rejectIds == rejectIds
    {
      this.acceptKeywords := acceptKeywords;
      this.rejectIds := rejectIds;
    }

    /** `should_reject`: the group has a refusal list holding the user. */
    predicate ShouldReject(groupId: string, userId: string)
      reads this
    {
      groupId in rejectIds && userId in rejectIds[groupId]
    }

    /** `should_approve`: the group has a keyword list and some keyword, lower-cased, occurs in the lower-cased comment. */
    predicate ShouldApprove(groupId: string, comment: string)
      reads this
    {
      groupId in acceptKeywords && AnyKeyword(acceptKeywords[groupId], Lower(comment))
    }

    /** `get_keywords`: the list `should_approve` consults; empty for a group without one. */
    function GetKeywords(groupId: string): (r: seq<string>)
      reads this
      ensures groupId !in acceptKeywords ==> r == []
      ensures forall comment :: ShouldApprove(groupId, comment) <==> AnyKeyword(r, Lower(comment))
    {
      Get(acceptKeywords, groupId)
    }

    /** `get_reject_ids`: exactly the users `should_reject` refuses; empty for a group without a list. */
    function GetRejectIds(groupId: string): (r: seq<string>)
      reads this
      ensures groupId !in rejectIds ==> r == []
      ensures forall u :: u in r <==> ShouldReject(groupId, u)
    {
      Get(rejectIds, groupId)
    }

    /**
     * `add_keyword` (core/group_join_manager.py:58-63): the group's list
     * becomes the union of its old list and `keywords`, each once; the entry
     * exists afterwards even for an empty `keywords`.
     */
    method AddKeyword(groupId: string, keywords: seq<string>)
      modifies this`acceptKeywords
      ensures groupId in acceptKeywords && acceptKeywords == old(acceptKeywords)[groupId := acceptKeywords[groupId]]
      ensures NoDuplicates(acceptKeywords[groupId])
      ensures Elems(acceptKeywords[groupId]) == Elems(Get(old(acceptKeywords), groupId)) + Elems(keywords)
    {
      var merged := Get(acceptKeywords, groupId) + keywords;
      assert Elems(merged) == Elems(Get(acceptKeywords, groupId)) + Elems(keywords);
      var list := Dedup(merged);
      acceptKeywords := acceptKeywords[groupId := list];
    }

    /** `remove_keyword` (core/group_join_manager.py:65-70): nothing happens for an unknown group. */
    method RemoveKeyword(groupId: string, keywords: seq<string>)
      modifies this`acceptKeywords
      ensures groupId !in old(acceptKeywords) ==> acceptKeywords == old(acceptKeywords)
      ensures groupId in old(acceptKeywords) ==>
        acceptKeywords == old(acceptKeywords)[groupId := RemoveAll(old(acceptKeywords)[groupId], keywords)]
    {
      if groupId in acceptKeywords {
        var list := RemoveEach(acceptKeywords[groupId], keywords);
        acceptKeywords := acceptKeywords[groupId := list];
      }
    }

    /** `add_reject_id` (core/group_join_manager.py:75-78): like `add_keyword`, on the refusal lists. */
    method AddRejectId(groupId: string, ids: seq<string>)
      modifies this`rejectIds
      ensures groupId in rejectIds && rejectIds == old(rejectIds)[groupId := rejectIds[groupId]]
      ensures NoDuplicates(rejectIds[groupId])
      ensures Elems(rejectIds[groupId]) == Elems(Get(old(rejectIds), groupId)) + Elems(ids)
    {
      var merged := Get(rejectIds, groupId) + ids;
      assert Elems(merged) == Elems(Get(rejectIds, groupId)) + Elems(ids);
      var list := Dedup(merged);
      rejectIds := rejectIds[groupId := list];
    }

    /** `remove_reject_id` (core/group_join_manager.py:80-85): nothing happens for an unknown group. */
    method RemoveRejectId(groupId: string, ids: seq<string>)
      modifies this`rejectIds
      ensures groupId !in old(rejectIds) ==> rejectIds == old(rejectIds)
      ensures groupId in old(rejectIds) ==>
        rejectIds == old(rejectIds)[groupId := RemoveAll(old(rejectIds)[groupId], ids)]
    {
      if groupId in rejectIds {
        var list := RemoveEach(rejectIds[groupId], ids);
        rejectIds := rejectIds[groupId := list];
      }
    }

    /** `blacklist_on_leave` (core/group_join_manager.py:90-92): the user is appended, duplicates and all. */
    method BlacklistOnLeave(groupId: string, userId: string)
      modifies this`rejectIds
      ensures rejectIds == old(rejectIds)[groupId := Get(old(rejectIds), groupId) + [userId]]
      ensures ShouldReject(groupId, userId)
      ensures |rejectIds[groupId]| == |Get(old(rejectIds), groupId)| + 1
    {
      rejectIds := rejectIds[groupId := Get(rejectIds, groupId) + [userId]];
    }
  }

  /** `should_approve` holds exactly when one of the group's keywords, lower-cased, occurs in the lower-cased comment. */
  lemma ShouldApproveExists(m: GroupJoinManager, groupId: string, comment: string)
    ensures m.ShouldApprove(groupId, comment) <==>
      groupId in m.acceptKeywords
      && exists k :: 0 <= k < |m.acceptKeywords[groupId]|
           && Contains(Lower(comment), Lower(m.acceptKeywords[groupId][k]))
  {
    if groupId in m.acceptKeywords {
      AnyKeywordExists(m.acceptKeywords[groupId], Lower(comment));
    }
  }

  /** An item listed at most once is gone after it is removed. */
  lemma RemovedIsGone(s: seq<string>, u: string)
    requires multiset(s)[u] <= 1
    ensures u !in RemoveAll(s, [u])
  {
    RemoveAllIsDifference(s, [u]);
    assert multiset(RemoveAll(s, [u]))[u] == 0;
  }
}
