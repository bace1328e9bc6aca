# QQAdmin plugin core: curfew engine, registry and group-admin rules

A Dafny model of the decision logic of the AstrBot plugin `astrbot_plugin_QQAdmin`, a QQ
group-administration bot. It covers:

- **The curfew engine** (`core/curfew_manager.py`), modelled as `Clock` and `Curfew`:
  - the daily window is read from two `HH:MM` strings;
  - a test decides whether a time of day lies inside the window, including windows that cross midnight;
  - the two-state machine `whole_ban_status` announces and mutes or unmutes the whole group only when the evaluated state differs from the applied one;
  - the background task has start, stop and is-running operations.
- **The curfew registry** (`main.py`), modelled as `CurfewRegistry`: the plugin's `curfew_managers` map. The commands "开启宵禁" / "关闭宵禁" (`start_curfew`, `stop_curfew`) and `terminate` change it.
- **The flood detector** of `spamming_ban` (`Spam`): one bounded deque of arrival times per user, plus a cool-down after each ban.
- **Join requests** (`JoinRequest`): `event_monitoring` posts a notice for each join request and takes the automatic keyword or blacklist decision. `approve` reads the nickname and the flag back from a quoted notice.
- **The member filter** of `clear_group_member` (`Members`).
- **The group-join tables** of `core/group_join_manager.py` (`GroupJoin`): per group, the approval keywords and the refused user ids.
- **Permissions** (`core/permission.py`, modelled as `Permission`):
  - the ordered `PermLevel` enum and its names;
  - the classification `get_perm_level`;
  - the check order of `perm_block`;
  - the process-wide `PermissionManager` instance;
  - the guard order of the `perm_required` decorator.
- **The message-segment helpers** of `core/utils.py` (`Segments`).
- **Python's string operations** the above rely on (`Text`): `split`, `in`, `strip`, one-character `replace` and `lower`.

State the source changes in place is modelled as classes:

- `CurfewManager`, `Task`, `CurfewRegistry`;
- the spam `Detector`;
- the `GroupJoinManager` tables;
- `PermissionManager` and its class-level instance slot.

Their methods are proved against the pure functions of the same module (`Step`, `Run`, `Detect`, `RemoveAll`, `Selected`, …). The lemmas beside those functions state what the source promises.

Conventions:

- **Time of day:** whole seconds after midnight, `0 ..< 86400`.
- **Timestamps:** `spamming_ban` timestamps are integer milliseconds.
- **Platform calls:** the outcome of every call to the chat platform (send a message, mute the group, ban a user, answer a join request) is a boolean input.
- **Member records:** the records the platform returns are parameters (a function from user id to record, or a list).

## Model

| member | source | states |
|---|---|---|
| Clock.ParseClock | core/curfew_manager.py:32-33 | a time that parses lies on a whole minute of the day |
| Clock.ParsedShape | core/curfew_manager.py:32-33 | a string that parses has at least three characters, only ASCII digits and one colon, and starts and ends with a digit |
| Clock.ParseClockExact | core/curfew_manager.py:31-36 | `%H:%M` accepts a string exactly when it spells a whole-minute time as a one- or two-digit hour 0-23, a colon and a one- or two-digit minute 0-59, with nothing before or after (both directions) |
| Clock.FormatClock | core/curfew_manager.py:93 | `strftime('%H:%M')` gives five characters with the colon in the middle |
| Clock.FormatParses | core/curfew_manager.py:93 | the time printed in the curfew announcements parses back to the same time |
| Curfew.InCurfewIsArc | core/curfew_manager.py:80-86 | for distinct ends, a time is in curfew exactly when it lies on the clockwise arc from start to end, both ends included |
| Curfew.EqualEndsAlwaysCurfew | core/curfew_manager.py:81-86 | a window whose start equals its end is curfew at every time of day |
| Curfew.OutsideIsOpenArc | core/curfew_manager.py:80-86 | for distinct ends, a time is outside curfew exactly when it lies strictly between end and start, going clockwise |
| Curfew.StepQuiet | core/curfew_manager.py:88-105 | when the evaluated state equals the applied one, a tick makes no call and keeps the state |
| Curfew.StepTransition | core/curfew_manager.py:88-119 | when they differ, exactly one announcement comes first, the start notice when entering the window and the end notice when leaving it; the calls are that announcement followed by the mute call iff the announcement succeeded; the mute call to the evaluated state is made iff the announcement succeeded; the state becomes the evaluated one iff both calls succeeded, and otherwise stays |
| Curfew.FailedTickIsRetried | core/curfew_manager.py:89-119 | after a failed transition the state is unchanged, and the next tick in the same evaluated state makes the same announcement again and completes the change if its calls succeed |
| Curfew.ChangesAlternate | core/curfew_manager.py:75-119 | the changes of the evaluated state alternate, and the first one leaves the initial state |
| Curfew.RunTracksWindow | core/curfew_manager.py:75-119 | over any sequence of polls whose calls succeed, the loop requests a mute state exactly once per change of the evaluated state (so mute and unmute alternate), and ends in the state evaluated at the last poll |
| Curfew.Task.constructor | core/curfew_manager.py:52 | a freshly created task has not finished |
| Curfew.Task.Cancel | core/curfew_manager.py:57-60 | a cancelled and awaited task has finished |
| Curfew.CurfewManager.constructor | core/curfew_manager.py:24-29 | a new manager keeps its group and window, has no task and `whole_ban_status` false |
| Curfew.CurfewManager.Create | core/curfew_manager.py:17-36 | construction succeeds iff both strings parse; a new manager is not running, has `whole_ban_status` false and the parsed window |
| Curfew.CurfewManager.StartCurfewTask | core/curfew_manager.py:46-53 | afterwards the manager runs; a running manager keeps its task, otherwise a new task is created |
| Curfew.CurfewManager.StopCurfewTask | core/curfew_manager.py:55-68 | afterwards there is no task and the manager is not running, whatever the previous state; a live task has been cancelled |
| Curfew.CurfewManager.Tick | core/curfew_manager.py:77-119 | one poll changes `whole_ban_status` and makes the calls exactly as `Step` prescribes for the old state |
| Curfew.CurfewManager.RunLoop | core/curfew_manager.py:75-119 | a sequence of polls gives the calls and the final state of `Run` |
| Curfew.DefaultWindowScenario | main.py:60-61 | the defaults "23:30" and "6:00" parse to 23:30 and 06:00, and the window covers 23:31, 05:59 and 06:00:00 but not noon or 06:00:01 |
| CurfewRegistry.ParsedIsClean | main.py:564-569 | a string that parses has no full-width colon and no whitespace at either end |
| CurfewRegistry.WideSpelling | main.py:564-569 | a parsable time typed with a full-width colon turns back into itself when the colon is replaced |
| CurfewRegistry.CleanArgument | main.py:564-569 | an argument, or a default, that already parses passes through the preparation unchanged |
| CurfewRegistry.TimeArgumentTolerant | main.py:564-569 | any parsable time surrounded by whitespace and typed with a full-width colon is read as the same time |
| CurfewRegistry.DefaultArguments | main.py:60-61 | without arguments and with the default configuration the window is 23:30-06:00 |
| CurfewRegistry.CurfewRegistry.constructor | main.py:47 | the registry starts empty, with the configured default times |
| CurfewRegistry.CurfewRegistry.StartCurfew | main.py:562-593 | a running group answers "already running" and the map is unchanged; a time that does not parse leaves the map unchanged; otherwise exactly the group's entry becomes a fresh, running manager with the prepared window, and the reply names the prepared texts |
| CurfewRegistry.CurfewRegistry.StartPrepared | main.py:570-593 | the same as `StartCurfew`, for already prepared strings |
| CurfewRegistry.CurfewRegistry.StopCurfew | main.py:597-613 | without a group id nothing changes; a running manager is stopped and only its entry is removed; otherwise the answer is "not running" and the map, stale entries included, stays; other managers are untouched |
| CurfewRegistry.CurfewRegistry.Discard | main.py:907-910 | one step of `terminate`: the entry is removed, and its manager is stopped if it ran and left alone otherwise |
| CurfewRegistry.CurfewRegistry.Terminate | main.py:904-911 | afterwards the map is empty, every manager that ran has been stopped and lost its task, those that did not run are unchanged, and no `whole_ban_status` changes |
| Spam.Push | main.py:84-86 | appending to a deque with `maxlen` grows it by one until it is full, then keeps its length |
| Spam.PushAllKeepsLast | main.py:84-86 | a bounded deque holds exactly the last `maxlen` times appended |
| Spam.CheckGaps | main.py:448-452 | the loop over the intervals answers true iff every gap between neighbouring times is below `min_interval` |
| Spam.DetectKeepsBound | main.py:84-86 | no user ever has more than `min_count` times stored |
| Spam.DetectBansIff | main.py:429-453 | a ban is issued iff detection is on, the group passes the whitelist, the cool-down is over, `min_count` times are held, all their gaps are below `min_interval`, and the ban time is not zero |
| Spam.IgnoredLeavesTables | main.py:429-442 | a message that is not watched, or that comes during the cool-down, is not recorded and bans no one |
| Spam.BanResets | main.py:455-474 | after a ban the user's deque is empty and the last ban time is now, whether or not the ban call succeeded; no other user changes |
| Spam.BurstIsBanned | main.py:444-457 | `min_count` messages in one burst, with gaps below `min_interval`, after the cool-down and from an empty deque, get the sender banned at the last of them |
| Spam.Detector.constructor | main.py:77-92 | a new detector has the configuration and empty tables |
| Spam.Detector.OnMessage | main.py:427-474 | one group message changes the two tables and bans exactly as `Detect` prescribes, and keeps every deque within `min_count` |
| Segments.GetAts | core/utils.py:90-96 | no more ids than segments, and never the bot's own id |
| Segments.GetAtsMembers | core/utils.py:92-96 | an id is returned iff some At segment mentions it and it is not the bot's |
| Segments.GetAtsAppend | core/utils.py:92-96 | ids come in message order: those of a concatenation are those of each part, in turn |
| Segments.FirstReply | core/utils.py:101-103 | the Reply found is in the chain, and none is found iff the chain has no Reply |
| Segments.FirstReplyIsFirst | core/utils.py:101-103 | the first Reply segment of the chain is the one found |
| Segments.GetReplyerId | core/utils.py:99-103 | None iff there is no Reply; otherwise the sender of a Reply of the chain |
| Segments.GetReplyMessageStr | core/utils.py:105-111 | StopIteration iff there is no Reply; otherwise the text of a Reply of the chain |
| Segments.AnswersFromFirstReply | core/utils.py:99-111 | when the chain's first Reply is `reply`, the replier is its sender and the quoted text is its text |
| Segments.ExtractIsFirstCandidate | core/utils.py:139-148 | the url returned is the first of the top-level Images and the Images directly inside top-level Replies, in scan order; None iff there is none |
| Segments.NotDeeper | core/utils.py:144-147 | an Image inside a Reply inside a Reply is not found |
| GroupJoin.Dedup | core/group_join_manager.py:60-62 | `list(set(..))` holds every element of the list once |
| GroupJoin.RemoveFirst | core/group_join_manager.py:68-69 | `list.remove(x)` takes away one occurrence of `x` |
| GroupJoin.RemoveAllIsDifference | core/group_join_manager.py:65-70 | the removal loop leaves the multiset difference of the list and the items |
| GroupJoin.RemoveEach | core/group_join_manager.py:67-69 | the removal loop computes `RemoveAll` |
| GroupJoin.AnyKeywordExists | core/group_join_manager.py:54-56 | the `any(...)` holds iff some lower-cased keyword occurs in the text |
| GroupJoin.GroupJoinManager.constructor | core/group_join_manager.py:41-43 | the manager starts from the tables read from the data file |
| GroupJoin.GroupJoinManager.GetKeywords | core/group_join_manager.py:72-73 | the empty list for a group without one; the keywords returned approve exactly the comments `should_approve` approves |
| GroupJoin.GroupJoinManager.GetRejectIds | core/group_join_manager.py:87-88 | the empty list for a group without one; an id is listed iff `should_reject` refuses it |
| GroupJoin.GroupJoinManager.AddKeyword | core/group_join_manager.py:58-63 | the group's list becomes the duplicate-free union of its old list and the keywords; the entry exists afterwards; other groups are unchanged |
| GroupJoin.GroupJoinManager.RemoveKeyword | core/group_join_manager.py:65-70 | an unknown group changes nothing; otherwise only the group's list changes, one occurrence of each listed keyword being removed while present |
| GroupJoin.GroupJoinManager.AddRejectId | core/group_join_manager.py:75-78 | the group's list becomes the duplicate-free union of its old ids and the new ones; other groups are unchanged |
| GroupJoin.GroupJoinManager.RemoveRejectId | core/group_join_manager.py:80-85 | an unknown group changes nothing; otherwise one occurrence of each listed id is removed while present |
| GroupJoin.GroupJoinManager.BlacklistOnLeave | core/group_join_manager.py:90-92 | the user is appended without deduplication; afterwards `should_reject` holds and the list is one longer; other groups are unchanged |
| GroupJoin.ShouldApproveExists | core/group_join_manager.py:51-56 | `should_approve` is false without a keyword list, and otherwise holds iff some lower-cased keyword occurs in the lower-cased comment |
| GroupJoin.RemovedIsGone | core/group_join_manager.py:80-85 | removing an id that is listed at most once leaves it unlisted |
| JoinRequest.DisplayNickname | main.py:713-715 | the nickname shown is never empty, and is the platform's nickname when that is not empty |
| JoinRequest.AutoDecision | main.py:725-734 | a refused user is rejected whatever the comment; otherwise a non-empty comment containing a keyword is approved; anything else is left to the admins |
| JoinRequest.Approve | main.py:755-778 | `approve` as written fails in two ways and no other: with the StopIteration of `get_reply_message_str` (RuntimeError outside the coroutine) exactly when nothing is quoted; with IndexError (`MissingField`) exactly when the quoted text is non-empty, has the marker and at least five lines, and its second or fourth line has no "：" |
| JoinRequest.MissingFieldExample | main.py:761-765 | quoting "【收到进群申请】" followed by the lines a, b, c, d makes `approve` raise IndexError |
| JoinRequest.ApproveCorrected | main.py:755-778 | with the four-line threshold, the same two failures and no other: StopIteration (RuntimeError outside the coroutine) exactly when nothing is quoted; IndexError exactly when a quoted text with the marker and at least four lines lacks "：" on its second or fourth line |
| JoinRequest.NoticeExample | main.py:716-719 | the notice for a request without a comment is the four lines of the f-string |
| JoinRequest.NoticeHasHeader | main.py:716-719 | every notice contains the marker `approve` looks for |
| JoinRequest.NoticeLinesOf | main.py:716-719 | the lines of a notice are its four fixed lines, then the lines of the comment if there is one |
| JoinRequest.ApproveRoundTrip | main.py:759-778 | quoting a notice that has a comment sends the request with that notice's flag and answers with its nickname as displayed |
| JoinRequest.NoCommentIgnored | main.py:763 | a notice without a comment has four lines, so `approve` as written answers nothing and sends nothing |
| JoinRequest.NoCommentExample | main.py:763 | for Alice's request with flag f1 and no comment, the five-line threshold does nothing, while four lines would approve flag f1 |
| JoinRequest.ApproveCorrectedRoundTrip | main.py:755-778 | with the four-line threshold, quoting any notice, with or without a comment, sends its flag and names its nickname |
| Permission.PermLevel.Value | core/permission.py:13-23 | every level has a value from 0 to 5 |
| Permission.LevelsOrdered | core/permission.py:18-23 | SUPERUSER..UNKNOWN have the values 0..5 in declaration order, every level is among them, and the value determines the level |
| Permission.FromStr | core/permission.py:35-46 | a string outside the table is UNKNOWN; a string in it gives its entry |
| Permission.FromStrToStr | core/permission.py:25-46 | every level reads back from its own name |
| Permission.ToStrInjective | core/permission.py:25-33 | distinct levels have distinct names |
| Permission.RoleMapping | core/permission.py:103-115 | owner gives OWNER, admin gives ADMIN, and member gives HIGH iff its level reaches the threshold and MEMBER otherwise; any other role gives UNKNOWN; a role never gives SUPERUSER |
| Permission.LookupOnlyAfterShortcuts | core/permission.py:94-98 | without a group id the level is UNKNOWN, and for a superuser it is SUPERUSER, whatever the member record says |
| Permission.SuperUserExactly | core/permission.py:94-115 | within a group, the level is SUPERUSER iff the user is a superuser |
| Permission.BlockMessage | core/permission.py:128-144 | every refusal has a non-empty message |
| Permission.FirstUntouchable | core/permission.py:140-144 | the first @-target the bot is not strictly more powerful than, in message order; None iff there is none |
| Permission.PermBlockNoneIff | core/permission.py:126-146 | `perm_block` lets the command through iff the key is configured, the user's level is at most the required one, the bot's level is at most `bot_perm`, and, when targets are checked, the bot is strictly more powerful than each of them |
| Permission.PermBlockOrder | core/permission.py:128-144 | each refusal is the one of the first failing check, in the order unconfigured key, user, bot, targets |
| Permission.TargetLevels | core/permission.py:141-142 | one level per @-target, in order, each looked up like the user's own |
| Permission.BlockForNoneIff | core/permission.py:117-146 | the same iff, with the sender's, the bot's and every @-target's level looked up through `get_perm_level` |
| Permission.ActualPermKey | core/permission.py:163 | the permission key is the given one when it is non-empty, and otherwise the wrapped function's name |
| Permission.GuardDecision | core/permission.py:174-193 | once the manager is in hand: a private chat is refused first; otherwise an uninitialised manager; otherwise the command proceeds iff `perm_block` lets it through; every refusal has a message |
| Permission.InstanceSlot.Guard | core/permission.py:171-193 | the wrapper first fetches the instance with no arguments: with no instance yet it raises, even in a private chat, and leaves an uninitialised instance behind; with one it decides as `GuardDecision` on that instance |
| Permission.InstanceSlot.EarlyCommand | core/permission.py:171-184 | a command before `initialize()` (main.py:102-108) raises; `initialize()` then gets back the uninitialised instance, and every later command answers "private chat only" or "permission system not loaded" |
| Permission.LevelTable | core/permission.py:70-72 | the configured table has the same keys, each name read by `from_str` |
| Permission.PermissionManager.constructor | core/permission.py:55-56 | a fresh instance is not initialised |
| Permission.InstanceSlot.constructor | core/permission.py:51 | no instance exists before the first construction |
| Permission.InstanceSlot.New | core/permission.py:53-57 | once an instance exists it is always the one returned; the first call creates an uninitialised one |
| Permission.InstanceSlot.Construct | core/permission.py:53-74 | repeated construction returns the same instance and ignores the arguments once it is initialised; without `perms` the first initialisation fails after setting the superusers, leaving the instance uninitialised; otherwise the instance is initialised with the given configuration |
| Permission.InstanceSlot.GetInstance | core/permission.py:76-89 | an existing instance is returned as it is; otherwise a new one is built from the arguments, with the same failure without `perms` |
| Members.Selected | main.py:827-834 | no more ids than members |
| Members.SelectedAppend | main.py:827-834 | the ids are taken in list order: those of a concatenation are those of each part, in turn |
| Members.SelectedIff | main.py:833-834 | an id is selected iff some member with that id last spoke before the threshold and is below the level |
| Members.ClearIds | main.py:823-834 | the loop collects exactly the selected ids, with the threshold `now - inactive_days * 86400` |
| Members.DefaultsExample | main.py:809-810 | with the defaults of 30 days and level 10, a member silent for 31 days is selected and one who spoke yesterday is not |
| Text.Split | main.py:762 | `split` never returns an empty list |
| Text.SplitJoin | main.py:762 | joining the pieces of a split with the separator gives the string back |
| Text.SplitPiecesFree | main.py:762 | no piece of a split contains the separator |
| Text.SplitHasSecond | main.py:764-765 | `s.split(sep)[1]` exists exactly when `sep` occurs in `s` |
| Text.SplitJoinLines | main.py:762 | lines without the separator, joined and split again, come back, followed by the pieces of the last one |
| Text.ContainsAt | main.py:763 | `needle in hay` holds iff the needle occurs at some position |
| Text.Strip | main.py:564-569 | the result of `strip()` neither starts nor ends with whitespace |
| Text.StripPadded | main.py:564-569 | `strip()` removes exactly the whitespace around a core that does not start or end with whitespace |
| Text.ReplaceRoundTrip | main.py:564-569 | replacing a character by one that did not occur, and back, restores the string |

## Left out

- Platform calls (`send_group_msg`, `set_group_whole_ban`, `set_group_ban`, `set_group_add_request`, `get_stranger_info`, `get_group_member_info`, `get_group_member_list`) are foreign network calls. They appear only as a success boolean or as input data.
- asyncio is not modelled: `create_task`, `cancel`, `await` and `sleep`.
  - `RunLoop` runs over a finite sequence of polls, each taken after the 10-second sleep; the endless loop and its cancellation point are not modelled.
  - The tasks are a `done` flag. `Task.Cancel` stands for cancelling and awaiting the task.
- The clock (`datetime.now()`, `time.time()`) is a parameter.
  - Times of day are whole seconds. Python compares times with microseconds, so its inclusive end holds only at `HH:MM:00.000000`. Here it holds for the whole second `HH:MM:00`.
  - The host time zone is not modelled.
- The `time.time()` floats of `spamming_ban` are integer milliseconds, and `min_interval` is taken in milliseconds.
- Reading and writing `group_join_data.json` (`GroupJoinData._load`, `_save`, `save`) is file I/O. `GroupJoinManager.constructor` takes the tables as loaded.
- The texts the commands reply with are not modelled: the answers of `start_curfew` and `stop_curfew` are tags, and only `approve`'s answer and the join notice are modelled as strings. The same goes for the log messages.
- The first flood message of `spamming_ban` formats a coroutine object. The messages are left out, so this is not shown either.
- Logging, `event.stop_event()` and the generic `except Exception` around `CurfewManager(...)` in `start_curfew` are not modelled. `CurfewManager.Create` can only fail on a bad time, and `start_curfew_task` cannot fail.
- In main.py, `spamming_ban` and every command except two are wrapped in `perm_required`. This model states the wrapper itself (`Permission.InstanceSlot.Guard`) and not its composition with each command. `Spam.Detector.OnMessage` and the `GroupJoinManager` methods are the undecorated rules.
- `add_reject_ids` ("添加进群黑名单", main.py:645-654) and `qq_admin_help` ("群管帮助", main.py:898-902) have no `perm_required`. So `GroupJoin.GroupJoinManager.AddRejectId` is reachable by any sender, in a group or a private chat, without `Permission.InstanceSlot.Guard`. Its siblings `remove_reject_ids` and `view_reject_ids` require `PermLevel.ADMIN`.
- `event_monitoring` is modelled only for join requests: the notice text, `AutoDecision` and `BlacklistOnLeave`. Not modelled:
  - the configuration switches `enable_audit`, `admin_audit`, `enable_black` and `auto_black`;
  - the leave texts;
  - where the notice is sent.
- `GroupJoin.Dedup`: `list(set(...))` leaves the order open. The method keeps first occurrences, but its contract and those of `AddKeyword` and `AddRejectId` promise only the set of elements and the absence of duplicates.
- `GetKeywords` and `GetRejectIds` return values. Python returns the stored list itself, so a caller could change the table through it; this aliasing is not modelled.
- `Text.Lower`: `str.lower()` is modelled on ASCII letters only. Other Unicode case mappings are left out.
- `Clock.ParseClock`: `strptime`'s `\d` also accepts non-ASCII decimal digits. Only ASCII digits are modelled.
- The f-strings of `perm_block` print a level through the class's own `__str__`, which Python's `Enum.__format__` uses when `__str__` is overridden. `BlockMessage` uses `ToStr` accordingly.
- `get_perm_level` converts `info["level"]` with `int(...)`; a level that is not a number, which would raise, is not modelled. Member records carry integer levels.
- The same goes for `clear_group_member`: member records have integer levels and send times, and `user_id` is a string.
- `clear_group_member` is modelled only up to the selection of `clear_ids`. The listing, the confirmation waiter and the kicks are interactive I/O.
- Commands outside this core are not modelled: forbidden words, muting, essence messages, titles, notices, and the like.
- Curfew scheduling follows the code, not an idealised scheduler: a fixed 10-second poll that sleeps before its first check, with no computation of the next boundary. The end of the window is inclusive, and equal start and end mean curfew all day.

## Findings

| source | as written | input that shows it | evidently intended | confidence | as-written member | corrected member |
|---|---|---|---|---|---|---|
| main.py:763 | `approve` acts only on quoted text with at least five lines, although it reads only lines 2 and 4 | the notice for a join request without a comment (nickname "Alice", QQ 10001, flag "f1") has four lines, so quoting it and sending "同意进群" does nothing and answers nothing | at least four lines, so that requests without a comment can be answered by quoting the notice too | medium, not executed | JoinRequest.NoCommentIgnored | JoinRequest.ApproveCorrectedRoundTrip |
