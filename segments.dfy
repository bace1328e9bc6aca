/**
 * The message-segment helpers of core/utils.py over an abstract message
 * chain: the ids a message @-mentions, the quoted message, and the first
 * image of a message.
 */
module Segments {
  import opened Wrappers

  /**
   * The segment kinds the helpers tell apart; every other kind is `Other`.
   * Ids are kept as the strings `str(...)` gives.
   */
  datatype Segment =
    | At(qq: string)
    | Reply(senderId: string, messageStr: string, chain: seq<Segment>)
    | Image(url: string)
    | Plain(text: string)
    | Other

  /** `get_ats`: the ids of the At segments other than the bot's own, in message order. */
  function GetAts(chain: seq<Segment>, selfId: string): (r: seq<string>)
    ensures |r| <= |chain|
    ensures forall k :: 0 <= k < |r| ==> r[k] != selfId
    decreases |chain|
  {
    if chain == [] then []
    else
      var rest := GetAts(chain[1..], selfId);
      if chain[0].At? && chain[0].qq != selfId then [chain[0].qq] + rest else rest
  }

  /** An id is returned exactly when some At segment mentions it and it is not the bot's. */
  lemma {:induction false} GetAtsMembers(chain: seq<Segment>, selfId: string, id: string)
    ensures id in GetAts(chain, selfId) <==>
      id != selfId && exists k :: 0 <= k < |chain| && chain[k] == At(id)
    decreases |chain|
  {
    if chain != [] {
      GetAtsMembers(chain[1..], selfId, id);
      if exists k :: 0 <= k < |chain[1..]| && chain[1..][k] == At(id) {
        var k :| 0 <= k < |chain[1..]| && chain[1..][k] == At(id);
        assert chain[k + 1] == At(id);
      }
      if exists k :: 0 <= k < |chain| && chain[k] == At(id) {
        var k :| 0 <= k < |chain| && chain[k] == At(id);
        if k > 0 {
          assert chain[1..][k - 1] == At(id);
        }
      }
    }
  }

  /** The mentions come in message order: those of a concatenation are those of each part, in turn. */
  lemma {:induction false} GetAtsAppend(a: seq<Segment>, b: seq<Segment>, selfId: string)
    ensures GetAts(a + b, selfId) == GetAts(a, selfId) + GetAts(b, selfId)
    decreases |a|
  {
    if a == [] {
      assert a + b == b;
    } else {
      assert (a + b)[0] == a[0] && (a + b)[1..] == a[1..] + b;
      GetAtsAppend(a[1..], b, selfId);
    }
  }

  /** The first Reply segment of the chain. */
  function FirstReply(chain: seq<Segment>): (r: Option<Segment>)
    ensures r.Some? ==> r.value.Reply? && r.value in chain
    ensures r.None? <==> forall k :: 0 <= k < |chain| ==> !chain[k].Reply?
    decreases |chain|
  {
    if chain == [] then None
    else if chain[0].Reply? then Some(chain[0])
    else
      var r := FirstReply(chain[1..]);
      assert forall k :: 1 <= k < |chain| ==> chain[k] == chain[1..][k - 1];
      r
  }

  /** A chain that starts with non-Reply segments and then a Reply finds that Reply. */
  lemma {:induction false} FirstReplyIsFirst(pre: seq<Segment>, reply: Segment, post: seq<Segment>)
    requires reply.Reply? && forall k :: 0 <= k < |pre| ==> !pre[k].Reply?
    ensures FirstReply(pre + [reply] + post) == Some(reply)
    decreases |pre|
  {
    if pre == [] {
      assert pre + [reply] + post == [reply] + post;
    } else {
      assert (pre + [reply] + post)[1..] == pre[1..] + [reply] + post;
      FirstReplyIsFirst(pre[1..], reply, post);
    }
  }

  /** `get_replyer_id`: the sender of the first Reply, if any. */
  function GetReplyerId(chain: seq<Segment>): (r: Option<string>)
    ensures r.None? <==> forall k :: 0 <= k < |chain| ==> !chain[k].Reply?
    ensures r.Some? ==> exists k :: 0 <= k < |chain| && chain[k].Reply? && chain[k].senderId == r.value
  {
    var first := FirstReply(chain);
    if first.Some? then Some(first.value.senderId) else None
  }

  /** Why `get_reply_message_str` raises: `next` finds no Reply and has no default. */
  datatype NoReply = StopIteration

  /** `get_reply_message_str`: the text of the first Reply; without a Reply it raises. */
  function GetReplyMessageStr(chain: seq<Segment>): (r: Result<string, NoReply>)
    ensures r.Err? <==> forall k :: 0 <= k < |chain| ==> !chain[k].Reply?
    ensures r.Ok? ==> exists k :: 0 <= k < |chain| && chain[k].Reply? && chain[k].messageStr == r.value
  {
    var first := FirstReply(chain);
    if first.Some? then Ok(first.value.messageStr) else Err(StopIteration)
  }

  /** Both `get_replyer_id` and `get_reply_message_str` read the first Reply of the chain. */
  lemma AnswersFromFirstReply(pre: seq<Segment>, reply: Segment, post: seq<Segment>)
    requires reply.Reply? && forall k :: 0 <= k < |pre| ==> !pre[k].Reply?
    ensures GetReplyerId(pre + [reply] + post) == Some(reply.senderId)
    ensures GetReplyMessageStr(pre + [reply] + post) == Ok(reply.messageStr)
  {
    FirstReplyIsFirst(pre, reply, post);
  }

  /** The url of the first Image directly in `chain`. */
  function FirstImage(chain: seq<Segment>): Option<string>
    decreases |chain|
  {
    if chain == [] then None
    else if chain[0].Image? then Some(chain[0].url)
    else FirstImage(chain[1..])
  }

  /** `extract_image_url`: top-level segments in order; a Reply is searched one level deep, in place. */
  function ExtractImageUrl(chain: seq<Segment>): Option<string>
    decreases |chain|
  {
    if chain == [] then None
    else if chain[0].Image? then Some(chain[0].url)
    else if chain[0].Reply? && chain[0].chain != [] && FirstImage(chain[0].chain).Some? then
      FirstImage(chain[0].chain)
    else ExtractImageUrl(chain[1..])
  }

  /** The image urls directly in `chain`, in order. */
  function Images(chain: seq<Segment>): seq<string>
    decreases |chain|
  {
    if chain == [] then []
    else (if chain[0].Image? then [chain[0].url] else []) + Images(chain[1..])
  }

  /**
   * The urls `extract_image_url` may return, in the order it meets them:
   * each top-level Image, and the Images directly inside each top-level Reply.
   */
  function Candidates(chain: seq<Segment>): seq<string>
    decreases |chain|
  {
    if chain == [] then []
    else
      (if chain[0].Image? then [chain[0].url]
       else if chain[0].Reply? then Images(chain[0].chain)
       else [])
      + Candidates(chain[1..])
  }

  lemma {:induction false} FirstImageIsFirstOfImages(chain: seq<Segment>)
    ensures FirstImage(chain) == if Images(chain) == [] then None else Some(Images(chain)[0])
    decreases |chain|
  {
    if chain != [] {
      FirstImageIsFirstOfImages(chain[1..]);
    }
  }

  /** `extract_image_url` returns the first candidate url, and None exactly when there is none. */
  lemma {:induction false} ExtractIsFirstCandidate(chain: seq<Segment>)
    ensures ExtractImageUrl(chain) == if Candidates(chain) == [] then None else Some(Candidates(chain)[0])
    decreases |chain|
  {
    if chain != [] {
      ExtractIsFirstCandidate(chain[1..]);
      if chain[0].Reply? {
        FirstImageIsFirstOfImages(chain[0].chain);
      }
    }
  }

  /** An image two levels down, inside a Reply that is inside a Reply, is not found. */
  lemma NotDeeper(url: string)
    ensures ExtractImageUrl([Reply("1", "", [Reply("2", "", [Image(url)])])]) == None
  {
    var inner := [Reply("2", "", [Image(url)])];
    assert FirstImage(inner) == FirstImage(inner[1..]);
    assert inner[1..] == [];
    var outer := [Reply("1", "", inner)];
    assert outer[1..] == [];
  }
}
