/**
 * Join requests in main.py: the notice `event_monitoring` posts for a join
 * request, the automatic decision it takes, and `approve`, which an admin
 * triggers by quoting that notice and which reads the nickname and the flag
 * back out of it.
 */
module JoinRequest {
  import opened Wrappers
  import opened Text
  import opened Segments
  import opened GroupJoin

  /** The marker `approve` looks for in the quoted text. */
  const Header: string := "【收到进群申请】"

  /** The first line of the notice. */
  const FirstLine: string := "【收到进群申请】同意进群吗："

  /** `nickname or "未知昵称"`. */
  function DisplayNickname(nickname: string): (r: string)
    ensures r != [] && (nickname != [] ==> r == nickname)
  {
    if nickname == "" then "未知昵称" else nickname
  }

  /** Python truthiness of `raw.get("comment")`: present and not empty. */
  predicate HasComment(comment: Option<string>)
  {
    comment.Some? && comment.value != ""
  }

  /** The four fixed lines of the notice. */
  function NoticeLines(nickname: string, userId: string, flag: string): seq<string>
  {
    [FirstLine, "昵称：" + DisplayNickname(nickname), "QQ：" + userId, "flag：" + flag]
  }

  /** The notice built at main.py:714-719: the fixed lines and, if there is one, the comment, joined by line breaks. */
  function RequestText(nickname: string, userId: string, flag: string, comment: Option<string>): string
  {
    var fixed := NoticeLines(nickname, userId, flag);
    Join(if HasComment(comment) then fixed + [comment.value] else fixed, '\n')
  }

  /** What `event_monitoring` does on its own after posting the notice. */
  datatype Decision = AutoReject | AutoApprove | Undecided

  /** main.py:725-734: a refused user is turned down first; a comment holding a keyword is let in. */
  function AutoDecision(m: GroupJoinManager, groupId: string, userId: string, comment: Option<string>): (r: Decision)
    reads m
    ensures r == AutoReject <==> m.ShouldReject(groupId, userId)
    ensures r == AutoApprove <==>
      !m.ShouldReject(groupId, userId) && HasComment(comment) && m.ShouldApprove(groupId, comment.value)
  {
    if m.ShouldReject(groupId, userId) then AutoReject
    else if HasComment(comment) && m.ShouldApprove(groupId, comment.value) then AutoApprove
    else Undecided
  }

  /** What `approve` raises. */
  datatype ApproveError =
    | NoQuote       // no Reply: `get_reply_message_str`'s StopIteration leaves the coroutine as RuntimeError
    | MissingField  // the second or fourth line has no "：" (IndexError)

  /** The `set_group_add_request` call `approve` makes. */
  datatype Request = Request(flag: string, approve: bool, reason: string)

  /** The text `approve` returns (if any) and the request it makes (if any). */
  datatype Handled = Handled(reply: Option<string>, request: Option<Request>)

  /** The reply once the request has been sent; `callOk` is whether the platform call returned normally. */
  function Answer(nickname: string, extra: string, approve: bool, callOk: bool): string
  {
    if !callOk then "这条申请处理过了或者格式不对"
    else if approve then "已同意" + nickname + "进群"
    else "已拒绝" + nickname + "进群" + (if extra != "" then "\n理由：" + extra else "")
  }

  /**
   * The quoted text passes `approve`'s guard (non-empty, with the header, at
   * least `minLines` lines) but its second or fourth line has no "："; there
   * `split("：")[1]` raises IndexError.
   */
  predicate FieldMissing(minLines: nat, text: string)
    requires minLines >= 4
  {
    var lines := Split(text, '\n');
    && text != "" && Contains(text, Header) && |lines| >= minLines
    && ('：' !in lines[1] || '：' !in lines[3])
  }

  /**
   * `approve` (main.py:759-778) on the quoted text, with the source's line
   * count threshold `minLines`: the nickname is what follows the first "："
   * of the second line, up to the next "：", and the flag likewise on the
   * fourth line.
   */
  function ApproveQuoted(minLines: nat, text: string, extra: string, approve: bool, callOk: bool)
    : (r: Result<Handled, ApproveError>)
    requires minLines >= 4
    ensures r.Err? ==> r == Err(MissingField)
    ensures r == Err(MissingField) <==> FieldMissing(minLines, text)
  {
    if text == "" then Ok(Handled(Some("未引用任何【进群申请】"), None))
    else
      var lines := Split(text, '\n');
      if Contains(text, Header) && |lines| >= minLines then
        var nickParts := Split(lines[1], '：');
        var flagParts := Split(lines[3], '：');
        SplitHasSecond(lines[1], '：');
        SplitHasSecond(lines[3], '：');
        if |nickParts| < 2 || |flagParts| < 2 then Err(MissingField)
        else Ok(Handled(Some(Answer(nickParts[1], extra, approve, callOk)),
                        Some(Request(flagParts[1], approve, extra))))
      else Ok(Handled(None, None))
  }

  /** `approve` as written: it needs five lines (main.py:763). */
  function Approve(chain: seq<Segment>, extra: string, approve: bool, callOk: bool): (r: Result<Handled, ApproveError>)
    ensures r == Err(NoQuote) <==> forall k :: 0 <= k < |chain| ==> !chain[k].Reply?
    ensures r == Err(MissingField) <==>
      GetReplyMessageStr(chain).Ok? && FieldMissing(5, GetReplyMessageStr(chain).value)
  {
    match GetReplyMessageStr(chain)
    case Err(_) => Err(NoQuote)
    case Ok(text) => ApproveQuoted(5, text, extra, approve, callOk)
  }

  /**
   * A quoted text with the header and five lines but no "：" on its second
   * line makes `approve` raise IndexError rather than answer.
   */
  lemma MissingFieldExample(sender: string)
    ensures Approve([Reply(sender, Header + "\na\nb\nc\nd", [])], "", true, true) == Err(MissingField)
  {
    var text := Header + "\na\nb\nc\nd";
    var l := [Header, "a", "b", "c", "d"];
    assert l[1..][1..] == l[2..] && l[2..][1..] == l[3..] && l[3..][1..] == l[4..] && l[4..] == ["d"];
    assert Join(l[3..], '\n') == "c\nd";
    assert Join(l[1..], '\n') == "a\nb\nc\nd";
    assert Join(l, '\n') == text;
    assert l == l[..4] + ["d"];
    SplitJoinLines(l[..4], "d", '\n');
    SplitWithoutSeparator("d", '\n');
    PrefixContained(Header, "\na\nb\nc\nd");
    assert FieldMissing(5, text);
    FirstReplyIsFirst([], Reply(sender, text, []), []);
  }

  /** `approve` with the threshold the field reads need: four lines. */
  function ApproveCorrected(chain: seq<Segment>, extra: string, approve: bool, callOk: bool): (r: Result<Handled, ApproveError>)
    ensures r == Err(NoQuote) <==> forall k :: 0 <= k < |chain| ==> !chain[k].Reply?
    ensures r == Err(MissingField) <==>
      GetReplyMessageStr(chain).Ok? && FieldMissing(4, GetReplyMessageStr(chain).value)
  {
    match GetReplyMessageStr(chain)
    case Err(_) => Err(NoQuote)
    case Ok(text) => ApproveQuoted(4, text, extra, approve, callOk)
  }

  /** Values that survive the notice: no line break, and no "：" in the two fields read back. */
  predicate Plain(nickname: string, userId: string, flag: string)
  {
    '\n' !in nickname && '\n' !in userId && '\n' !in flag && '：' !in nickname && '：' !in flag
  }

  /** The second line of a notice and the field after its tag. */
  lemma LabelledField(tag: string, value: string)
    requires '：' !in tag && '：' !in value
    ensures Split(tag + "：" + value, '：') == [tag, value]
  {
    assert tag + "：" + value == tag + ['：'] + value;
    SplitAfterPiece(tag, '：', value);
    SplitWithoutSeparator(value, '：');
  }

  lemma FixedLinesPlain(nickname: string, userId: string, flag: string)
    requires Plain(nickname, userId, flag)
    ensures var l := NoticeLines(nickname, userId, flag);
      forall k :: 0 <= k < |l| ==> '\n' !in l[k]
  {
    var l := NoticeLines(nickname, userId, flag);
    assert '\n' !in DisplayNickname(nickname);
    assert '\n' !in l[0] && '\n' !in l[1] && '\n' !in l[2] && '\n' !in l[3];
  }

  /** The notice for a request from "Alice" without a comment, written out. */
  lemma NoticeExample()
    ensures RequestText("Alice", "10001", "f1", None)
      == "【收到进群申请】同意进群吗：\n昵称：Alice\nQQ：10001\nflag：f1"
  {
    var l := NoticeLines("Alice", "10001", "f1");
    assert Join(l, '\n') == l[0] + "\n" + Join(l[1..], '\n');
    assert l[1..][1..] == l[2..] && l[2..][1..] == l[3..] && l[3..] == [l[3]];
  }

  /** The quoted notice is recognised by its marker. */
  lemma NoticeHasHeader(nickname: string, userId: string, flag: string, comment: Option<string>)
    ensures Contains(RequestText(nickname, userId, flag, comment), Header)
  {
    var fixed := NoticeLines(nickname, userId, flag);
    var parts := if HasComment(comment) then fixed + [comment.value] else fixed;
    assert parts[0] == FirstLine && |parts| > 1;
    var rest := "同意进群吗：" + ['\n'] + Join(parts[1..], '\n');
    assert FirstLine == Header + "同意进群吗：";
    assert RequestText(nickname, userId, flag, comment) == Header + rest;
    PrefixContained(Header, rest);
  }

  /** The lines of a notice: the four fixed ones, then those of the comment if there is one. */
  lemma NoticeLinesOf(nickname: string, userId: string, flag: string, comment: Option<string>)
    requires Plain(nickname, userId, flag)
    ensures var lines := Split(RequestText(nickname, userId, flag, comment), '\n');
      lines == NoticeLines(nickname, userId, flag)
        + (if HasComment(comment) then Split(comment.value, '\n') else [])
  {
    var l := NoticeLines(nickname, userId, flag);
    FixedLinesPlain(nickname, userId, flag);
    if HasComment(comment) {
      SplitJoinLines(l, comment.value, '\n');
    } else {
      assert l == l[..3] + [l[3]];
      SplitJoinLines(l[..3], l[3], '\n');
      SplitWithoutSeparator(l[3], '\n');
    }
  }

  /**
   * Quoting a notice with a comment gives back its nickname (as displayed)
   * and its flag: the request goes out with that flag and the reply names
   * that nickname.
   */
  lemma ApproveRoundTrip(nickname: string, userId: string, flag: string, comment: string,
                         extra: string, approve: bool, callOk: bool)
    requires Plain(nickname, userId, flag) && comment != ""
    ensures ApproveQuoted(5, RequestText(nickname, userId, flag, Some(comment)), extra, approve, callOk)
      == Ok(Handled(Some(Answer(DisplayNickname(nickname), extra, approve, callOk)),
                    Some(Request(flag, approve, extra))))
  {
    QuotedNotice(5, nickname, userId, flag, Some(comment), extra, approve, callOk);
  }

  lemma QuotedNotice(minLines: nat, nickname: string, userId: string, flag: string, comment: Option<string>,
                     extra: string, approve: bool, callOk: bool)
    requires Plain(nickname, userId, flag)
    requires minLines == 4 || (minLines == 5 && HasComment(comment))
    ensures ApproveQuoted(minLines, RequestText(nickname, userId, flag, comment), extra, approve, callOk)
      == Ok(Handled(Some(Answer(DisplayNickname(nickname), extra, approve, callOk)),
                    Some(Request(flag, approve, extra))))
  {
    var text := RequestText(nickname, userId, flag, comment);
    var lines := Split(text, '\n');
    NoticeHasHeader(nickname, userId, flag, comment);
    NoticeLinesOf(nickname, userId, flag, comment);
    assert lines[1] == "昵称：" + DisplayNickname(nickname) && lines[3] == "flag：" + flag;
    assert |lines| >= 4 && (HasComment(comment) ==> |lines| >= 5);
    assert "昵称" + "：" + DisplayNickname(nickname) == lines[1];
    assert "flag" + "：" + flag == lines[3];
    LabelledField("昵称", DisplayNickname(nickname));
    LabelledField("flag", flag);
    assert text != "" by {
      assert |lines| > 1;
    }
  }

  /** A notice without a comment has four lines, so `approve` as written answers nothing and sends nothing. */
  lemma NoCommentIgnored(nickname: string, userId: string, flag: string, extra: string, approve: bool, callOk: bool)
    requires Plain(nickname, userId, flag)
    ensures ApproveQuoted(5, RequestText(nickname, userId, flag, None), extra, approve, callOk)
      == Ok(Handled(None, None))
  {
    NoticeLinesOf(nickname, userId, flag, None);
    assert RequestText(nickname, userId, flag, None) != "";
  }

  /** The concrete case: a request from "Alice" with flag "f1" and no comment. */
  lemma NoCommentExample()
    ensures ApproveQuoted(5, RequestText("Alice", "10001", "f1", None), "", true, true) == Ok(Handled(None, None))
    ensures ApproveQuoted(4, RequestText("Alice", "10001", "f1", None), "", true, true)
      == Ok(Handled(Some(Answer("Alice", "", true, true)), Some(Request("f1", true, ""))))
  {
    NoCommentIgnored("Alice", "10001", "f1", "", true, true);
    QuotedNotice(4, "Alice", "10001", "f1", None, "", true, true);
  }

  /** With the four-line threshold every notice, with or without a comment, is read back. */
  lemma ApproveCorrectedRoundTrip(pre: seq<Segment>, sender: string, inner: seq<Segment>, post: seq<Segment>,
                                  nickname: string, userId: string, flag: string, comment: Option<string>,
                                  extra: string, approve: bool, callOk: bool)
    requires forall k :: 0 <= k < |pre| ==> !pre[k].Reply?
    requires Plain(nickname, userId, flag)
    ensures ApproveCorrected(pre + [Reply(sender, RequestText(nickname, userId, flag, comment), inner)] + post,
                             extra, approve, callOk)
      == Ok(Handled(Some(Answer(DisplayNickname(nickname), extra, approve, callOk)),
                    Some(Request(flag, approve, extra))))
  {
    FirstReplyIsFirst(pre, Reply(sender, RequestText(nickname, userId, flag, comment), inner), post);
    QuotedNotice(4, nickname, userId, flag, comment, extra, approve, callOk);
  }
}
