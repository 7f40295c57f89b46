/**
 * The registration state machine of one session, the side effects of
 * crossing into the registered state, and the tables that turn errors into
 * numeric replies.
 */
module SessionState {
  import opened Types
  import opened ServerErrors
  import opened MessageTarget

  /** How far a connection has got with NICK and USER. */
  datatype State =
    | Initial
    | NickAssigned(nickname: Nick)
    | UserSet(identity: UserInfo)
    | Registered(nickname: Nick, identity: UserInfo)

  /** `State.nick`: the nick, once one was assigned. */
  function NickOf(st: State): (r: Option<Nick>)
    ensures r.Some? <==> st.NickAssigned? || st.Registered?
  {
    match st
    case Initial => None
    case UserSet(_) => None
    case NickAssigned(n) => Some(n)
    case Registered(n, _) => Some(n)
  }

  /** `State.userInfo`: the USER data, once it was given. */
  function UserInfoOf(st: State): (r: Option<UserInfo>)
    ensures r.Some? <==> st.UserSet? || st.Registered?
  {
    match st
    case Initial => None
    case NickAssigned(_) => None
    case UserSet(info) => Some(info)
    case Registered(_, info) => Some(info)
  }

  /** `State.isRegistered`. */
  predicate IsRegistered(st: State) {
    st.Registered?
  }

  /** Registered exactly when both a nick and the USER data are known. */
  lemma RegisteredMeansBoth(st: State)
    ensures IsRegistered(st) <==> NickOf(st).Some? && UserInfoOf(st).Some?
  {
  }

  /**
   * `changeNick(to:)`: the nick becomes `n`; the USER data stays; a state
   * with USER data becomes (or stays) registered, one without gets just the nick.
   */
  function ChangeNick(st: State, n: Nick): (r: State)
    ensures NickOf(r) == Some(n)
    ensures UserInfoOf(r) == UserInfoOf(st)
    ensures IsRegistered(r) <==> UserInfoOf(st).Some?
    ensures IsRegistered(st) ==> IsRegistered(r)
    ensures st.Initial? || st.NickAssigned? ==> r == NickAssigned(n)
    ensures st.UserSet? ==> r == Registered(n, st.identity)
    ensures st.Registered? ==> r == Registered(n, st.identity)
  {
    match st
    case Initial => NickAssigned(n)
    case NickAssigned(_) => NickAssigned(n)
    case UserSet(info) => Registered(n, info)
    case Registered(_, info) => Registered(n, info)
  }

  /** The hand-written `==` of State: same variant and equal payloads. */
  predicate StateEquals(a: State, b: State) {
    match (a, b)
    case (Initial, Initial) => true
    case (NickAssigned(x), NickAssigned(y)) => x == y
    case (UserSet(x), UserSet(y)) => x == y
    case (Registered(x, i), Registered(y, j)) => x == y && i == j
    case _ => false
  }

  /** The hand-written `==` is structural equality. */
  lemma StateEqualsIsEquality(a: State, b: State)
    ensures StateEquals(a, b) <==> a == b
  {
  }

  /** `userID`: nick!user@host of a registered session; the host is the USER servername, else the server's origin. */
  function UserIdOf(st: State, origin: string): (r: Option<UserID>)
    ensures r.Some? <==> IsRegistered(st)
    ensures r.Some? ==> && r.value.nick == NickOf(st).value
                        && r.value.user == UserInfoOf(st).value.username
                        && r.value.host == (if UserInfoOf(st).value.servername.Some?
                                            then UserInfoOf(st).value.servername.value else origin)
  {
    match st
    case Registered(n, info) => Some(UserID(n, info.username, info.servername.GetOr(origin)))
    case _ => None
  }

  /** The origin of messages the session sends on its own behalf: its mask once registered, else none. */
  function MaskOf(st: State, origin: string): (r: Origin)
    ensures r.UserMask? <==> IsRegistered(st)
    ensures r.UserMask? ==> Some(r.id) == UserIdOf(st, origin)
    ensures !IsRegistered(st) ==> r == NoOrigin
  {
    match UserIdOf(st, origin)
    case Some(id) => UserMask(id)
    case None => NoOrigin
  }

  /** `target`: how replies address the session, its nick or "*". */
  function TargetOf(st: State): (r: string)
    ensures NickOf(st).Some? ==> r == NickOf(st).value
    ensures NickOf(st).None? ==> r == "*"
  {
    match NickOf(st)
    case Some(n) => n
    case None => "*"
  }

  /** The condition of the `state` observer: the registered flag changed and is now set. */
  predicate WelcomeFires(before: State, after: State) {
    IsRegistered(before) != IsRegistered(after) && IsRegistered(after)
  }

  /** `sendCurrentMode`: a MODE message with the whole mode as added, when a nick is known. */
  function CurrentMode(st: State, mode: UserMode, origin: string): (ms: seq<Message>)
    ensures |ms| <= 1
    ensures |ms| == 1 <==> NickOf(st).Some?
    ensures |ms| == 1 ==> ms[0] == Message(ServerName(origin), None, ModeCmd(NickOf(st).value, mode, {}))
  {
    match NickOf(st)
    case Some(n) => [Message(ServerName(origin), None, ModeCmd(n, mode, {}))]
    case None => []
  }

  /** The welcome replies (abstracted to one record) sent by `sendWelcome`. */
  function Welcome(st: State, origin: string): Message {
    Message(ServerName(origin), Some(TargetOf(st)), WelcomeBurst(NickOf(st).GetOr("")))
  }

  /**
   * What assigning `after` over `before` emits: the welcome, then the current
   * mode, exactly when the session becomes registered; nothing otherwise.
   */
  function TransitionEffects(before: State, after: State, mode: UserMode, origin: string): (ms: seq<Message>)
    ensures WelcomeFires(before, after) ==> ms == [Welcome(after, origin)] + CurrentMode(after, mode, origin)
    ensures WelcomeFires(before, after) ==> |ms| == 2 && ms[1].command == ModeCmd(NickOf(after).value, mode, {})
    ensures !WelcomeFires(before, after) ==> ms == []
  {
    if WelcomeFires(before, after) then [Welcome(after, origin)] + CurrentMode(after, mode, origin) else []
  }

  /** The state-changing commands: NICK (accepted) and USER. */
  datatype Step = NickStep(nick: Nick) | UserStep(info: UserInfo)

  /** The state after a step: `changeNick`, or what `doUserInfo` assigns (nothing once registered). */
  function ApplyStep(st: State, step: Step): (r: State)
    ensures IsRegistered(st) ==> IsRegistered(r)
    ensures step.UserStep? && IsRegistered(st) ==> r == st
  {
    match step
    case NickStep(n) => ChangeNick(st, n)
    case UserStep(info) =>
      if IsRegistered(st) then st
      else if NickOf(st).Some? then Registered(NickOf(st).value, info)
      else UserSet(info)
  }

  /** The state after a run of steps. */
  function Run(st: State, steps: seq<Step>): State
    decreases |steps|
  {
    if steps == [] then st else Run(ApplyStep(st, steps[0]), steps[1..])
  }

  /** The nick of the last NICK step of a run, if there is one. */
  function LastNick(steps: seq<Step>): Option<Nick>
    decreases |steps|
  {
    if steps == [] then None
    else
      var later := LastNick(steps[1..]);
      if later.Some? then later
      else if steps[0].NickStep? then Some(steps[0].nick)
      else None
  }

  /**
   * Replies address a session by the nick of its last NICK step; before any
   * NICK they keep the address it had ("*" for a new session).
   */
  lemma {:induction false} TargetTracksNick(st: State, steps: seq<Step>)
    ensures TargetOf(Run(st, steps)) == LastNick(steps).GetOr(TargetOf(st))
    ensures TargetOf(Initial) == "*"
    decreases |steps|
  {
    if steps != [] {
      var next := ApplyStep(st, steps[0]);
      TargetTracksNick(next, steps[1..]);
      if steps[0].UserStep? {
        assert NickOf(next) == NickOf(st);
      }
    }
  }

  /** How often the welcome fires during a run of steps. */
  function WelcomeCount(st: State, steps: seq<Step>): nat
    decreases |steps|
  {
    if steps == [] then 0
    else
      var next := ApplyStep(st, steps[0]);
      (if WelcomeFires(st, next) then 1 else 0) + WelcomeCount(next, steps[1..])
  }

  /** Once registered, a session stays registered through any run of steps. */
  lemma {:induction false} RegisteredStays(st: State, steps: seq<Step>)
    requires IsRegistered(st)
    ensures IsRegistered(Run(st, steps))
    ensures WelcomeCount(st, steps) == 0
    decreases |steps|
  {
    if steps != [] {
      RegisteredStays(ApplyStep(st, steps[0]), steps[1..]);
    }
  }

  /**
   * Over any run of NICK and USER steps the welcome fires exactly once if the
   * session ends up registered having started unregistered, and never otherwise.
   */
  lemma {:induction false} WelcomeOnce(st: State, steps: seq<Step>)
    ensures WelcomeCount(st, steps) == if !IsRegistered(st) && IsRegistered(Run(st, steps)) then 1 else 0
    decreases |steps|
  {
    if steps != [] {
      var next := ApplyStep(st, steps[0]);
      if IsRegistered(next) {
        RegisteredStays(next, steps[1..]);
      } else {
        WelcomeOnce(next, steps[1..]);
      }
    } else if IsRegistered(st) {
      assert Run(st, steps) == st;
    }
  }

  /** A nick and USER data, in either order, register a fresh session. */
  lemma NickAndUserRegister(n: Nick, info: UserInfo)
    ensures Run(Initial, [NickStep(n), UserStep(info)]) == Registered(n, info)
    ensures Run(Initial, [UserStep(info), NickStep(n)]) == Registered(n, info)
    ensures WelcomeCount(Initial, [NickStep(n), UserStep(info)]) == 1
    ensures WelcomeCount(Initial, [UserStep(info), NickStep(n)]) == 1
  {
    var a := [NickStep(n), UserStep(info)];
    assert a[1..] == [UserStep(info)] && a[1..][1..] == [];
    assert Run(Initial, a) == Run(NickAssigned(n), [UserStep(info)]) == Run(Registered(n, info), []);
    assert WelcomeCount(Initial, a) == WelcomeCount(NickAssigned(n), [UserStep(info)]);
    var b := [UserStep(info), NickStep(n)];
    assert b[1..] == [NickStep(n)] && b[1..][1..] == [];
    assert Run(Initial, b) == Run(UserSet(info), [NickStep(n)]) == Run(Registered(n, info), []);
  }

  // ---------------------------------------------------------------------
  // Error replies

  /** The arguments of one `sendError` call: code, explicit text (if any), leading arguments. */
  datatype ErrorCall = ErrorCall(code: Code, message: Option<string>, args: seq<string>)

  /** `handleError(IRCServerError)`: which `sendError` each domain error becomes. */
  function ServerErrorCall(e: ServerError, nick: Option<Nick>): (c: ErrorCall)
    ensures e.NicknameInUse? <==> c.code == ERROR_NICKNAME_IN_USE
    ensures e.NoSuchNick? <==> c.code == ERROR_NO_SUCH_NICK
    ensures e.NoSuchChannel? <==> c.code == ERROR_NO_SUCH_CHANNEL
    ensures e.AlreadyRegistered? <==> c.code == ERROR_ALREADY_REGISTERED
    ensures e.NotRegistered? <==> c.code == ERROR_NOT_REGISTERED
    ensures e.CantChangeModeForOtherUsers? <==> c.code == ERROR_USERS_DONT_MATCH
    ensures e.DoesNotRespondTo? <==> c.code == ERROR_UNKNOWN_COMMAND
    ensures c.message.Some? <==> e.CantChangeModeForOtherUsers?
    ensures c.code in MAPPED_CODES
  {
    match e
    case NicknameInUse(n) => ErrorCall(ERROR_NICKNAME_IN_USE, None, [n])
    case NoSuchNick(n) => ErrorCall(ERROR_NO_SUCH_NICK, None, [n])
    case NoSuchChannel(c) => ErrorCall(ERROR_NO_SUCH_CHANNEL, None, [c])
    case AlreadyRegistered => ErrorCall(ERROR_ALREADY_REGISTERED, None, [nick.GetOr("?")])
    case NotRegistered => ErrorCall(ERROR_NOT_REGISTERED, None, [])
    case CantChangeModeForOtherUsers => ErrorCall(ERROR_USERS_DONT_MATCH, Some("Can't change mode for other users"), [])
    case DoesNotRespondTo(cmd) => ErrorCall(ERROR_UNKNOWN_COMMAND, None, [cmd])
  }

  /** `handleError(IRCParserError)`: which `sendError` each protocol error becomes. */
  function ParserErrorCall(e: ParserError): (c: ErrorCall)
    ensures c.message.None? && |c.args| == 2
    ensures e.InvalidNickName? ==> c == ErrorCall(ERROR_ERRONEOUS_NICKNAME, None, [e.badNick, "Invalid nickname"])
    ensures e.InvalidArgumentCount? ==> c == ErrorCall(ERROR_NEED_MORE_PARAMS, None, [e.forCommand, "Not enough parameters"])
    ensures e.InvalidChannelName? ==> c == ErrorCall(ERROR_ILLEGAL_CHANNEL_NAME, None, [e.badChannel, "Illegal channel name"])
    ensures !(e.InvalidNickName? || e.InvalidArgumentCount? || e.InvalidChannelName?) ==>
      c == ErrorCall(ERROR_UNKNOWN_COMMAND, None, ["?", "Protocol error"])
  {
    match e
    case InvalidNickName(n) => ErrorCall(ERROR_ERRONEOUS_NICKNAME, None, [n, "Invalid nickname"])
    case InvalidArgumentCount(cmd, _, _) => ErrorCall(ERROR_NEED_MORE_PARAMS, None, [cmd, "Not enough parameters"])
    case InvalidChannelName(c) => ErrorCall(ERROR_ILLEGAL_CHANNEL_NAME, None, [c, "Illegal channel name"])
    case _ => ErrorCall(ERROR_UNKNOWN_COMMAND, None, ["?", "Protocol error"])
  }

  /** The message one `sendError` call sends. */
  function ErrorMessageOf(origin: string, target: string, c: ErrorCall): Message {
    ErrorReply(origin, target, c.code, c.message, c.args)
  }

  /**
   * Every domain error reply ends in the code's table text, except the mode
   * error, which ends in its own explanation.
   */
  lemma {:induction false} ServerErrorText(e: ServerError, nick: Option<Nick>, origin: string, target: string)
    ensures var m := ErrorMessageOf(origin, target, ServerErrorCall(e, nick));
      && m.command.Numeric?
      && |m.command.args| >= 1
      && m.command.args[|m.command.args| - 1] ==
           (if e.CantChangeModeForOtherUsers? then "Can't change mode for other users"
            else ErrorMessage(ServerErrorCall(e, nick).code))
      && ErrorMessage(ServerErrorCall(e, nick).code) in ERROR_MAP.Values
  {
    var c := ServerErrorCall(e, nick);
    TableKeysDistinct();
    assert c.code in ERROR_MAP;
  }

  /**
   * Because the human text of a protocol error is passed as an argument and
   * not as the explicit message, the reply carries a third, appended
   * argument: the table text of the code, which for 432, 461 and 479 is the
   * "Unmapped error code" fallback.
   */
  lemma {:induction false} ParserErrorText(e: ParserError, origin: string, target: string)
    ensures var c := ParserErrorCall(e);
      var m := ErrorMessageOf(origin, target, c);
      && |m.command.args| == 3
      && m.command.args[..2] == c.args
      && (e.InvalidNickName? ==> m.command.args[2] == "Unmapped error code 432")
      && (e.InvalidArgumentCount? ==> m.command.args[2] == "Unmapped error code 461")
      && (e.InvalidChannelName? ==> m.command.args[2] == "Unmapped error code 479")
      && (!(e.InvalidNickName? || e.InvalidArgumentCount? || e.InvalidChannelName?) ==>
            m.command.args[2] == "No such command.")
  {
    var c := ParserErrorCall(e);
    var m := ErrorMessageOf(origin, target, c);
    assert m.command.args == c.args + [ErrorMessage(c.code)];
    ParserFallbackTexts();
  }

  /** The table texts the three protocol-error codes outside the table fall back to. */
  lemma ParserFallbackTexts()
    ensures ErrorMessage(ERROR_ERRONEOUS_NICKNAME) == "Unmapped error code 432"
    ensures ErrorMessage(ERROR_NEED_MORE_PARAMS) == "Unmapped error code 461"
    ensures ErrorMessage(ERROR_ILLEGAL_CHANNEL_NAME) == "Unmapped error code 479"
    ensures ErrorMessage(ERROR_UNKNOWN_COMMAND) == "No such command."
  {
    ParserCodesRendered();
    FallbackText(ERROR_ERRONEOUS_NICKNAME, "432");
    FallbackText(ERROR_NEED_MORE_PARAMS, "461");
    FallbackText(ERROR_ILLEGAL_CHANNEL_NAME, "479");
    MappedTexts();
  }

  /** A code outside the table whose rendering is `digits` falls back to the text naming `digits`. */
  lemma FallbackText(code: Code, digits: string)
    requires code !in MAPPED_CODES && Decimal(code) == digits
    ensures ErrorMessage(code) == "Unmapped error code " + digits
  {
    UnmappedText(code);
  }

  /** The decimal renderings of the three protocol-error codes outside the table. */
  lemma ParserCodesRendered()
    ensures Decimal(432) == "432" && Decimal(461) == "461" && Decimal(479) == "479"
  {
    assert Decimal(43) == "43";
    assert Decimal(46) == "46";
    assert Decimal(47) == "47";
  }
}
