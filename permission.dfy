/**
 * core/permission.py: the permission levels, how a user's level is worked
 * out from the group member record, the check `perm_block` makes before a
 * command runs, the process-wide `PermissionManager` instance, and the order
 * of the guards in the `perm_required` decorator.
 */
module Permission {
  import opened Wrappers
  import opened Segments

  /** `PermLevel`: a smaller value means more power. */
  datatype PermLevel = SuperUser | Owner | Admin | High | Member | Unknown
  {
    /** The integer of the `IntEnum`. */
    function Value(): (n: nat)
      ensures n <= 5
    {
      match this
      case SuperUser => 0
      case Owner => 1
      case Admin => 2
      case High => 3
      case Member => 4
      case Unknown => 5
    }
  }

  /** The levels in increasing order of their values. */
  const Levels: seq<PermLevel> := [SuperUser, Owner, Admin, High, Member, Unknown]

  /** The values are 0 to 5 in the order of declaration, so comparing levels is a total order. */
  lemma LevelsOrdered()
    ensures forall i :: 0 <= i < |Levels| ==> Levels[i].Value() == i
    ensures forall p: PermLevel :: p in Levels
    ensures forall p: PermLevel, q: PermLevel :: p.Value() == q.Value() ==> p == q
  {
    forall p: PermLevel ensures p in Levels {
      assert p == Levels[p.Value()];
    }
  }

  /** `str(level)`. */
  function ToStr(p: PermLevel): string
  {
    match p
    case SuperUser => "超管"
    case Owner => "群主"
    case Admin => "管理员"
    case High => "高等级成员"
    case Member => "成员"
    case Unknown => "未知/无权限"
  }

  /** The table of `from_str`. */
  const Names: map<string, PermLevel> :=
    map["超管" := SuperUser, "群主" := Owner, "管理员" := Admin, "高等级成员" := High,
        "成员" := Member, "未知" := Unknown, "无权限" := Unknown]

  /** `PermLevel.from_str`: any string outside the table is `UNKNOWN`. */
  function FromStr(s: string): (r: PermLevel)
    ensures s !in Names ==> r == Unknown
    ensures s in Names ==> r == Names[s]
  {
    if s in Names then Names[s] else Unknown
  }

  /** Every level reads back from its own name; `str(UNKNOWN)` is not in the table and falls back to `UNKNOWN`. */
  lemma FromStrToStr(p: PermLevel)
    ensures FromStr(ToStr(p)) == p
  {
    if p == Unknown {
      assert ToStr(p) !in Names;
    }
  }

  /** Distinct levels have distinct names. */
  lemma ToStrInjective(p: PermLevel, q: PermLevel)
    requires ToStr(p) == ToStr(q)
    ensures p == q
  {
    FromStrToStr(p);
    FromStrToStr(q);
  }

  /** The part of `get_group_member_info`'s answer the level depends on; a missing field is `None`. */
  datatype MemberInfo = MemberInfo(role: Option<string>, level: Option<int>)

  /** The role mapping of `get_perm_level` (core/permission.py:103-115). */
  function RoleLevel(info: MemberInfo, levelThreshold: int): PermLevel
  {
    var role := info.role.GetOr("unknown");
    var level := info.level.GetOr(0);
    if role == "owner" then Owner
    else if role == "admin" then Admin
    else if role == "member" then (if level >= levelThreshold then High else Member)
    else Unknown
  }

  /** Which role gives which level, in both directions. */
  lemma RoleMapping(info: MemberInfo, levelThreshold: int)
    ensures var r := RoleLevel(info, levelThreshold);
      var role := info.role.GetOr("unknown");
      var level := info.level.GetOr(0);
      && (r == Owner <==> role == "owner")
      && (r == Admin <==> role == "admin")
      && (r == High <==> role == "member" && level >= levelThreshold)
      && (r == Member <==> role == "member" && level < levelThreshold)
      && (r == Unknown <==> role != "owner" && role != "admin" && role != "member")
      && r != SuperUser
  {
  }

  /**
   * `get_perm_level`: without a group id the level is `UNKNOWN`, a
   * superuser is `SUPERUSER`, and only otherwise is the member record of
   * `userId`, given here as `members`, consulted.
   */
  function GetPermLevel(groupId: string, userId: string, superusers: seq<string>, levelThreshold: int,
                        members: string -> MemberInfo): PermLevel
  {
    if groupId == "" then Unknown
    else if userId in superusers then SuperUser
    else RoleLevel(members(userId), levelThreshold)
  }

  /** The first two answers do not depend on the member record, so no lookup is needed for them. */
  lemma LookupOnlyAfterShortcuts(groupId: string, userId: string, superusers: seq<string>, levelThreshold: int,
                                 members: string -> MemberInfo, others: string -> MemberInfo)
    requires groupId == "" || userId in superusers
    ensures GetPermLevel(groupId, userId, superusers, levelThreshold, members)
      == GetPermLevel(groupId, userId, superusers, levelThreshold, others)
      == (if groupId == "" then Unknown else SuperUser)
  {
  }

  /** A group member's level is `SUPERUSER` exactly for the superusers. */
  lemma SuperUserExactly(groupId: string, userId: string, superusers: seq<string>, levelThreshold: int,
                         members: string -> MemberInfo)
    requires groupId != ""
    ensures GetPermLevel(groupId, userId, superusers, levelThreshold, members) == SuperUser <==> userId in superusers
  {
    RoleMapping(members(userId), levelThreshold);
  }

  /** Why `perm_block` refuses. */
  datatype Block =
    | UnknownKey                     // the permission key is not configured
    | UserLacks(required: PermLevel) // the user's level is above the required one
    | BotLacks(botPerm: PermLevel)   // the bot's level is above the one the command needs
    | CannotTouch(target: PermLevel) // an @-target is at least as powerful as the bot

  /** The message `perm_block` returns. */
  function BlockMessage(b: Block): (r: string)
    ensures r != ""
  {
    match b
    case UnknownKey => "无法执行未知权限的操作"
    case UserLacks(required) => "你没" + ToStr(required) + "权限"
    case BotLacks(botPerm) => "我没" + ToStr(botPerm) + "权限"
    case CannotTouch(target) => "我动不了" + ToStr(target)
  }

  /** The first @-target level the bot cannot act on (`bot_level >= at_level`), scanning in order. */
  function FirstUntouchable(botLevel: PermLevel, atLevels: seq<PermLevel>): (r: Option<PermLevel>)
    ensures r.None? <==> forall k :: 0 <= k < |atLevels| ==> botLevel.Value() < atLevels[k].Value()
    ensures r.Some? ==> exists k :: (0 <= k < |atLevels| && atLevels[k] == r.value
      && botLevel.Value() >= r.value.Value()
      && forall j :: 0 <= j < k ==> botLevel.Value() < atLevels[j].Value())
    decreases |atLevels|
  {
    if atLevels == [] then None
    else if botLevel.Value() >= atLevels[0].Value() then Some(atLevels[0])
    else
      var r := FirstUntouchable(botLevel, atLevels[1..]);
      assert forall k :: 1 <= k < |atLevels| ==> atLevels[k] == atLevels[1..][k - 1];
      r
  }

  /** `perm_block` (core/permission.py:126-146) once the three kinds of level have been looked up. */
  function PermBlock(perms: map<string, PermLevel>, permKey: string, userLevel: PermLevel, botLevel: PermLevel,
                     botPerm: PermLevel, checkAt: bool, atLevels: seq<PermLevel>): Option<Block>
  {
    if permKey !in perms then Some(UnknownKey)
    else if userLevel.Value() > perms[permKey].Value() then Some(UserLacks(perms[permKey]))
    else if botLevel.Value() > botPerm.Value() then Some(BotLacks(botPerm))
    else if checkAt && FirstUntouchable(botLevel, atLevels).Some? then
      Some(CannotTouch(FirstUntouchable(botLevel, atLevels).value))
    else None
  }

  /** The command may run exactly when every check passes. */
  lemma PermBlockNoneIff(perms: map<string, PermLevel>, permKey: string, userLevel: PermLevel, botLevel: PermLevel,
                         botPerm: PermLevel, checkAt: bool, atLevels: seq<PermLevel>)
    ensures PermBlock(perms, permKey, userLevel, botLevel, botPerm, checkAt, atLevels).None? <==>
      && permKey in perms
      && userLevel.Value() <= perms[permKey].Value()
      && botLevel.Value() <= botPerm.Value()
      && (checkAt ==> forall k :: 0 <= k < |atLevels| ==> botLevel.Value() < atLevels[k].Value())
  {
  }

  /** The checks run in a fixed order and the first failing one is reported. */
  lemma PermBlockOrder(perms: map<string, PermLevel>, permKey: string, userLevel: PermLevel, botLevel: PermLevel,
                       botPerm: PermLevel, checkAt: bool, atLevels: seq<PermLevel>, b: Block)
    ensures PermBlock(perms, permKey, userLevel, botLevel, botPerm, checkAt, atLevels) == Some(b) <==>
      match b
      case UnknownKey => permKey !in perms
      case UserLacks(required) =>
        permKey in perms && required == perms[permKey] && userLevel.Value() > required.Value()
      case BotLacks(p) =>
        permKey in perms && userLevel.Value() <= perms[permKey].Value()
        && p == botPerm && botLevel.Value() > botPerm.Value()
      case CannotTouch(target) =>
        permKey in perms && userLevel.Value() <= perms[permKey].Value() && botLevel.Value() <= botPerm.Value()
        && checkAt && FirstUntouchable(botLevel, atLevels) == Some(target)
  {
  }

  /** The levels of the @-targets, each looked up like the user's own. */
  function TargetLevels(ids: seq<string>, groupId: string, superusers: seq<string>, levelThreshold: int,
                        members: string -> MemberInfo): (r: seq<PermLevel>)
    ensures |r| == |ids|
    ensures forall k :: 0 <= k < |ids| ==> r[k] == GetPermLevel(groupId, ids[k], superusers, levelThreshold, members)
  {
    seq(|ids|, k requires 0 <= k < |ids| => GetPermLevel(groupId, ids[k], superusers, levelThreshold, members))
  }

  /** The event fields the guard reads. */
  datatype Event = Event(groupId: string, senderId: string, selfId: string, chain: seq<Segment>, isPrivate: bool)

  /** Why `PermissionManager(...)` raises. */
  datatype InitError = PermsMissing

  /** `PermissionManager`: the configuration, once `__init__` has completed. */
  class PermissionManager {
    var initialized: bool
    var superusers: seq<string>
    var perms: map<string, PermLevel>
    var levelThreshold: int

    /** `__new__` for a fresh instance: `_initialized` is false; the other attributes are not set yet. */
    constructor ()
      ensures !initialized
    {
      initialized := false;
    }

    /** `get_perm_level` with this manager's configuration. */
    function LevelOf(groupId: string, userId: string, members: string -> MemberInfo): PermLevel
      reads this
    {
      GetPermLevel(groupId, userId, superusers, levelThreshold, members)
    }

    /** `perm_block` for a command, with the three kinds of level looked up from `members`. */
    function BlockFor(event: Event, botPerm: PermLevel, permKey: string, checkAt: bool,
                      members: string -> MemberInfo): Option<Block>
      reads this
    {
      var ats := GetAts(event.chain, event.selfId);
      PermBlock(perms, permKey, LevelOf(event.groupId, event.senderId, members),
                LevelOf(event.groupId, event.selfId, members), botPerm, checkAt,
                TargetLevels(ats, event.groupId, superusers, levelThreshold, members))
    }
  }

  /**
   * A command passes `perm_block` exactly when its key is configured, the
   * sender's level is at most the required one, the bot's level is at most
   * the one the command needs and, when targets are checked, the bot is
   * strictly more powerful than everyone it @-mentions.
   */
  lemma BlockForNoneIff(m: PermissionManager, event: Event, botPerm: PermLevel, permKey: string, checkAt: bool,
                        members: string -> MemberInfo)
    ensures m.BlockFor(event, botPerm, permKey, checkAt, members).None? <==>
      && permKey in m.perms
      && m.LevelOf(event.groupId, event.senderId, members).Value() <= m.perms[permKey].Value()
      && m.LevelOf(event.groupId, event.selfId, members).Value() <= botPerm.Value()
      && (checkAt ==> forall id :: id in GetAts(event.chain, event.selfId) ==>
            m.LevelOf(event.groupId, event.selfId, members).Value() < m.LevelOf(event.groupId, id, members).Value())
  {
    var botLevel := m.LevelOf(event.groupId, event.selfId, members);
    var ats := GetAts(event.chain, event.selfId);
    var atLevels := TargetLevels(ats, event.groupId, m.superusers, m.levelThreshold, members);
    PermBlockNoneIff(m.perms, permKey, m.LevelOf(event.groupId, event.senderId, members), botLevel,
                     botPerm, checkAt, atLevels);
    TargetsAbove(ats, atLevels, botLevel, m, event.groupId, members);
  }

  lemma TargetsAbove(ats: seq<string>, atLevels: seq<PermLevel>, botLevel: PermLevel, m: PermissionManager,
                     groupId: string, members: string -> MemberInfo)
    requires atLevels == TargetLevels(ats, groupId, m.superusers, m.levelThreshold, members)
    ensures (forall k :: 0 <= k < |atLevels| ==> botLevel.Value() < atLevels[k].Value()) <==>
      (forall id :: id in ats ==> botLevel.Value() < m.LevelOf(groupId, id, members).Value())
  {
    if forall k :: 0 <= k < |atLevels| ==> botLevel.Value() < atLevels[k].Value() {
      forall id | id in ats ensures botLevel.Value() < m.LevelOf(groupId, id, members).Value() {
        var k :| 0 <= k < |ats| && ats[k] == id;
        assert atLevels[k] == m.LevelOf(groupId, id, members);
      }
    }
    if forall id :: id in ats ==> botLevel.Value() < m.LevelOf(groupId, id, members).Value() {
      forall k | 0 <= k < |atLevels| ensures botLevel.Value() < atLevels[k].Value() {
        assert ats[k] in ats;
      }
    }
  }

  /** `perm_key or func.__name__`. */
  function ActualPermKey(permKey: Option<string>, funcName: string): (r: string)
    ensures permKey.Some? && permKey.value != "" ==> r == permKey.value
    ensures permKey.None? || permKey.value == "" ==> r == funcName
  {
    if permKey.Some? && permKey.value != "" then permKey.value else funcName
  }

  /** What the decorated command does. */
  datatype GuardOutcome = PrivateOnly | NotLoaded | Refused(message: string) | Proceed

  /**
   * The guards of `perm_required`'s wrapper (core/permission.py:174-193), in
   * their order, once `get_instance()` has returned the manager `m`.
   */
  function GuardDecision(m: PermissionManager, event: Event, botPerm: PermLevel, permKey: Option<string>, funcName: string,
                 checkAt: bool, members: string -> MemberInfo): (r: GuardOutcome)
    reads m
    ensures r == PrivateOnly <==> event.isPrivate
    ensures r == NotLoaded <==> !event.isPrivate && !m.initialized
    ensures r == Proceed <==>
      !event.isPrivate && m.initialized && m.BlockFor(event, botPerm, ActualPermKey(permKey, funcName), checkAt, members).None?
    ensures r.Refused? ==> r.message != ""
  {
    if event.isPrivate then PrivateOnly
    else if !m.initialized then NotLoaded
    else
      match m.BlockFor(event, botPerm, ActualPermKey(permKey, funcName), checkAt, members)
      case Some(b) => Refused(BlockMessage(b))
      case None => Proceed
  }

  /** `{k: PermLevel.from_str(v) for k, v in perms.items()}`. */
  function LevelTable(perms: map<string, string>): (r: map<string, PermLevel>)
    ensures r.Keys == perms.Keys
    ensures forall k :: k in perms ==> r[k] == FromStr(perms[k])
  {
    map k | k in perms :: FromStr(perms[k])
  }

  /** The class attribute `_instance`. */
  class InstanceSlot {
    var instance: PermissionManager?

    constructor ()
      ensures instance == null
    {
      instance := null;
    }

    /** `__new__`: the one instance, created on first use with `_initialized` false. */
    method New() returns (m: PermissionManager)
      modifies this
      ensures old(instance) != null ==> m == old(instance)
      ensures old(instance) == null ==> fresh(m) && !m.initialized
      ensures instance == m
    {
      if instance == null {
        instance := new PermissionManager();
      }
      m := instance;
    }

    /**
     * `PermissionManager(superusers, perms, level_threshold)`: `__new__`
     * then `__init__`. An initialised instance ignores the arguments. Without
     * `perms` the first initialisation raises, after `superusers` has been
     * set, and leaves the slot holding an instance that is not initialised.
     */
    method Construct(superusers: Option<seq<string>>, perms: Option<map<string, string>>, levelThreshold: int)
      returns (r: Result<PermissionManager, InitError>)
      modifies this, instance
      ensures instance != null
      ensures old(instance) != null ==> instance == old(instance)
      ensures old(instance) == null ==> fresh(instance)
      ensures old(instance) != null && old(instance.initialized) ==>
        r == Ok(instance) && unchanged(instance)
      ensures (old(instance) == null || !old(instance.initialized)) && perms.None? ==>
        r == Err(PermsMissing) && !instance.initialized && instance.superusers == superusers.GetOr([])
      ensures (old(instance) == null || !old(instance.initialized)) && perms.Some? ==>
        && r == Ok(instance) && instance.initialized
        && instance.superusers == superusers.GetOr([])
        && instance.perms == LevelTable(perms.value)
        && instance.levelThreshold == levelThreshold
    {
      var m := New();
      if m.initialized {
        return Ok(m);
      }
      m.superusers := superusers.GetOr([]);
      if perms.None? {
        return Err(PermsMissing);
      }
      m.perms := LevelTable(perms.value);
      m.levelThreshold := levelThreshold;
      m.initialized := true;
      r := Ok(m);
    }

    /** `get_instance`: the existing instance as it is, or a new one built from the arguments. */
    method GetInstance(superusers: Option<seq<string>>, perms: Option<map<string, string>>, levelThreshold: int)
      returns (r: Result<PermissionManager, InitError>)
      modifies this
      ensures old(instance) != null ==> r == Ok(old(instance)) && instance == old(instance)
      ensures old(instance) == null ==> instance != null && fresh(instance)
      ensures old(instance) == null && perms.None? ==> r == Err(PermsMissing) && !instance.initialized
      ensures old(instance) == null && perms.Some? ==>
        && r == Ok(instance) && instance.initialized
        && instance.superusers == superusers.GetOr([])
        && instance.perms == LevelTable(perms.value)
        && instance.levelThreshold == levelThreshold
    {
      if instance == null {
        r := Construct(superusers, perms, levelThreshold);
      } else {
        r := Ok(instance);
      }
    }

    /**
     * The whole wrapper of `perm_required`: the argument-less `get_instance()`
     * comes before every guard, so with no instance yet it raises, private chat
     * or not, and leaves behind an instance that is not initialised.
     */
    method Guard(event: Event, botPerm: PermLevel, permKey: Option<string>, funcName: string,
                 checkAt: bool, members: string -> MemberInfo)
      returns (r: Result<GuardOutcome, InitError>)
      modifies this
      ensures old(instance) == null ==>
        r == Err(PermsMissing) && instance != null && fresh(instance) && !instance.initialized
      ensures old(instance) != null ==>
        instance == old(instance) && r == Ok(GuardDecision(instance, event, botPerm, permKey, funcName, checkAt, members))
    {
      var got := GetInstance(None, None, 50);
      if got.Err? {
        return Err(got.error);
      }
      r := Ok(GuardDecision(got.value, event, botPerm, permKey, funcName, checkAt, members));
    }

    /**
     * A command that arrives before the plugin's `initialize()`: the command
     * raises, `initialize()` then gets the uninitialised instance back from
     * `get_instance` and leaves it so, and every later command in a group
     * answers that the permission system is not loaded.
     */
    method EarlyCommand(event: Event, botPerm: PermLevel, permKey: Option<string>, funcName: string,
                        checkAt: bool, members: string -> MemberInfo,
                        superusers: seq<string>, perms: map<string, string>, levelThreshold: int)
      returns (first: Result<GuardOutcome, InitError>, init: Result<PermissionManager, InitError>,
               later: Result<GuardOutcome, InitError>)
      requires instance == null
      modifies this
      ensures first == Err(PermsMissing)
      ensures init.Ok? && init.value == instance && !instance.initialized
      ensures later == Ok(if event.isPrivate then PrivateOnly else NotLoaded)
    {
      first := Guard(event, botPerm, permKey, funcName, checkAt, members);
      init := GetInstance(Some(superusers), Some(perms), levelThreshold);
      later := Guard(event, botPerm, permKey, funcName, checkAt, members);
    }
  }
}
