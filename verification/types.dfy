/**
 * Value types shared by the IRC server core: names, identities, mode flags,
 * numeric reply codes, the two error families and the abstract outbound
 * message records.
 *
 * Nicknames and channel names come validated from the wire codec; here they
 * are plain strings compared by equality.
 */
module Types {

  datatype Option<T> = None | Some(value: T) {
    function GetOr(default: T): T {
      match this
      case Some(v) => v
      case None => default
    }
  }

  type Nick = string
  type ChannelName = string

  /** The identity of a session object (Swift `===`). */
  type SessionId = nat

  /** USER command payload. */
  datatype UserInfo = UserInfo(
    username: string,
    hostname: Option<string>,
    servername: Option<string>,
    realname: string)

  /** nick!user@host of a registered user. */
  datatype UserID = UserID(nick: Nick, user: string, host: string)

  /** User mode flags (section 3.1.5 of RFC 2812). */
  datatype UserFlag =
    | Away | Invisible | ReceivesWallOps | Restricted
    | Operator | LocalOperator | ReceivesServerNotices

  type UserMode = set<UserFlag>

  /** Channel mode flags (section 4 of RFC 2811). */
  datatype ChannelFlag =
    | Anonymous | InviteOnly | Moderated | NoOutsideClients | Quiet
    | Private | Secret | ServerReop | TopicOnlyByOperator

  type ChannelMode = set<ChannelFlag>

  /** The letters of the flags of `order` that are in `m`, in the order listed. */
  function LettersOf<F>(order: seq<F>, m: set<F>, letter: F -> char): string {
    if order == [] then "" else (if order[0] in m then [letter(order[0])] else "") + LettersOf(order[1..], m, letter)
  }

  /** A letter appears exactly when some listed flag in the set has it. */
  lemma {:induction false} LettersOfHas<F>(order: seq<F>, m: set<F>, letter: F -> char, c: char)
    ensures c in LettersOf(order, m, letter) <==> exists i | 0 <= i < |order| :: order[i] in m && letter(order[i]) == c
  {
    if order != [] {
      LettersOfHas(order[1..], m, letter, c);
      if c in LettersOf(order[1..], m, letter) {
        var i :| 0 <= i < |order[1..]| && order[1..][i] in m && letter(order[1..][i]) == c;
        assert order[i + 1] == order[1..][i];
      }
      if exists i | 0 <= i < |order| :: order[i] in m && letter(order[i]) == c {
        var i :| 0 <= i < |order| && order[i] in m && letter(order[i]) == c;
        if i > 0 {
          assert order[1..][i - 1] == order[i];
        }
      }
    }
  }

  /** The user mode flags in the order their letters are written. */
  const USER_FLAG_ORDER: seq<UserFlag> :=
    [Away, Invisible, ReceivesWallOps, Restricted, Operator, LocalOperator, ReceivesServerNotices]

  /** The channel mode flags in the order their letters are written. */
  const CHANNEL_FLAG_ORDER: seq<ChannelFlag> :=
    [Anonymous, InviteOnly, Moderated, NoOutsideClients, Quiet, Private, Secret, ServerReop, TopicOnlyByOperator]

  /** Letters of a user mode, in a fixed order. */
  function UserModeLetters(m: UserMode): string {
    LettersOf(USER_FLAG_ORDER, m, UserFlagLetter)
  }

  /** Letters of a channel mode, in a fixed order. */
  function ChannelModeLetters(m: ChannelMode): string {
    LettersOf(CHANNEL_FLAG_ORDER, m, ChannelFlagLetter)
  }

  /** The letter of one user mode flag. */
  function UserFlagLetter(f: UserFlag): char {
    match f
    case Away => 'a'
    case Invisible => 'i'
    case ReceivesWallOps => 'w'
    case Restricted => 'r'
    case Operator => 'o'
    case LocalOperator => 'O'
    case ReceivesServerNotices => 's'
  }

  /** The letter of one channel mode flag. */
  function ChannelFlagLetter(f: ChannelFlag): char {
    match f
    case Anonymous => 'a'
    case InviteOnly => 'i'
    case Moderated => 'm'
    case NoOutsideClients => 'n'
    case Quiet => 'q'
    case Private => 'p'
    case Secret => 's'
    case ServerReop => 'r'
    case TopicOnlyByOperator => 't'
  }

  /** The user flag a letter stands for, if any. */
  function UserFlagOf(c: char): Option<UserFlag> {
    match c
    case 'a' => Some(Away)
    case 'i' => Some(Invisible)
    case 'w' => Some(ReceivesWallOps)
    case 'r' => Some(Restricted)
    case 'o' => Some(Operator)
    case 'O' => Some(LocalOperator)
    case 's' => Some(ReceivesServerNotices)
    case _ => None
  }

  /** The channel flag a letter stands for, if any. */
  function ChannelFlagOf(c: char): Option<ChannelFlag> {
    match c
    case 'a' => Some(Anonymous)
    case 'i' => Some(InviteOnly)
    case 'm' => Some(Moderated)
    case 'n' => Some(NoOutsideClients)
    case 'q' => Some(Quiet)
    case 'p' => Some(Private)
    case 's' => Some(Secret)
    case 'r' => Some(ServerReop)
    case 't' => Some(TopicOnlyByOperator)
    case _ => None
  }

  /** Each user flag is listed once in the letter order, and its letter reads back as the flag. */
  lemma UserFlagLetterRoundTrip(f: UserFlag)
    ensures UserFlagOf(UserFlagLetter(f)) == Some(f)
    ensures f in USER_FLAG_ORDER
  {
  }

  /** Each channel flag is listed once in the letter order, and its letter reads back as the flag. */
  lemma ChannelFlagLetterRoundTrip(f: ChannelFlag)
    ensures ChannelFlagOf(ChannelFlagLetter(f)) == Some(f)
    ensures f in CHANNEL_FLAG_ORDER
  {
  }

  /** Numeric reply codes (the values NIOIRC's `IRCCommandCode` gives them). */
  type Code = c: nat | c < 1000

  const REPLY_UMODE_IS: Code := 221
  const REPLY_ISON: Code := 303
  const REPLY_WHOIS_USER: Code := 311
  const REPLY_WHOIS_SERVER: Code := 312
  const REPLY_END_OF_WHOIS: Code := 318
  const REPLY_LIST_START: Code := 321
  const REPLY_LIST: Code := 322
  const REPLY_LIST_END: Code := 323
  const REPLY_CHANNEL_MODE_IS: Code := 324
  const REPLY_TOPIC: Code := 332
  const REPLY_END_OF_BAN_LIST: Code := 368
  const REPLY_MOTD: Code := 372
  const REPLY_MOTD_START: Code := 375
  const REPLY_END_OF_MOTD: Code := 376
  const ERROR_NO_SUCH_NICK: Code := 401
  const ERROR_NO_SUCH_SERVER: Code := 402
  const ERROR_NO_SUCH_CHANNEL: Code := 403
  const ERROR_UNKNOWN_COMMAND: Code := 421
  const ERROR_ERRONEOUS_NICKNAME: Code := 432
  const ERROR_NICKNAME_IN_USE: Code := 433
  const ERROR_NOT_REGISTERED: Code := 451
  const ERROR_NEED_MORE_PARAMS: Code := 461
  const ERROR_ALREADY_REGISTERED: Code := 462
  const ERROR_ILLEGAL_CHANNEL_NAME: Code := 479
  const ERROR_USERS_DONT_MATCH: Code := 502

  /** Domain errors raised by command handlers and the registry. */
  datatype ServerError =
    | NicknameInUse(inUse: Nick)
    | NoSuchNick(missingNick: Nick)
    | NoSuchChannel(missingChannel: ChannelName)
    | AlreadyRegistered
    | NotRegistered
    | CantChangeModeForOtherUsers
    | DoesNotRespondTo(command: string)

  /** Protocol errors of the wire codec that reach the session. */
  datatype ParserError =
    | InvalidNickName(badNick: string)
    | InvalidArgumentCount(forCommand: string, count: int, expected: int)
    | InvalidChannelName(badChannel: string)
    | InvalidCAPCommand(subCommand: string)
    | TransportError
    | NotImplemented
    | OtherSyntaxError

  /** What a command handler throws. */
  datatype DispatchError = Domain(serverError: ServerError) | Protocol(parserError: ParserError)

  /** Result of a command handler: returned normally, or threw. */
  datatype Outcome = Done | Failed(error: DispatchError)

  datatype CapSubCommand = LS | LIST | REQ | ACK | NAK | END

  function CapSubCommandString(c: CapSubCommand): string {
    match c
    case LS => "LS"
    case LIST => "LIST"
    case REQ => "REQ"
    case ACK => "ACK"
    case NAK => "NAK"
    case END => "END"
  }

  datatype Recipient = Everything | ToNick(nick: Nick) | ToChannel(channel: ChannelName)

  /** The prefix of an outbound message. */
  datatype Origin = NoOrigin | ServerName(host: string) | UserMask(id: UserID)

  datatype Command =
    | Numeric(code: Code, args: seq<string>)
    | PongCmd(pongServer: string, pongServer2: string)
    | NickCmd(newNick: Nick)
    | ModeCmd(modeNick: Nick, add: UserMode, remove: UserMode)
    | CapCmd(sub: CapSubCommand, caps: set<string>)  // the capability list, in no particular order
    | JoinCmd(joined: ChannelName)
    | PartCmd(parted: ChannelName, partText: Option<string>)
    | PrivMsgCmd(to: Recipient, text: string)
    | IsOnReply(online: set<Nick>)  // numeric 303, the nicks space-joined in no particular order
    | WelcomeBurst(welcomeNick: Nick)  // the welcome replies sent on registration

  datatype Message = Message(origin: Origin, target: Option<string>, command: Command)

  /** One write of a message to the connection of session `to`. */
  datatype Delivery = Delivery(to: SessionId, message: Message)

  /** One write of `m` to each session of `sessions`, in order. */
  function Broadcast(sessions: seq<SessionId>, m: Message): (r: seq<Delivery>)
    ensures |r| == |sessions|
    ensures forall i | 0 <= i < |r| :: r[i] == Delivery(sessions[i], m)
  {
    if sessions == [] then [] else Broadcast(sessions[..|sessions| - 1], m) + [Delivery(sessions[|sessions| - 1], m)]
  }

  /** Every listed session receives the broadcast. */
  lemma BroadcastReaches(sessions: seq<SessionId>, m: Message)
    ensures forall s | s in sessions :: Delivery(s, m) in Broadcast(sessions, m)
  {
    var r := Broadcast(sessions, m);
    forall s | s in sessions ensures Delivery(s, m) in r {
      var i :| 0 <= i < |sessions| && sessions[i] == s;
      assert r[i] == Delivery(s, m);
    }
  }

  /** One write of `m` to each session of `sessions` except `self`, in order. */
  function BroadcastExcept(sessions: seq<SessionId>, self: SessionId, m: Message): (r: seq<Delivery>)
    ensures |r| <= |sessions|
    ensures forall d | d in r :: d.message == m && d.to != self && d.to in sessions
    ensures forall s | s in sessions && s != self :: Delivery(s, m) in r
  {
    if sessions == [] then []
    else
      var last := sessions[|sessions| - 1];
      BroadcastExcept(sessions[..|sessions| - 1], self, m) + (if last == self then [] else [Delivery(last, m)])
  }

  /** Broadcasting to one more session appends its delivery. */
  lemma BroadcastSnoc(sessions: seq<SessionId>, m: Message, i: nat)
    requires i < |sessions|
    ensures Broadcast(sessions[..i + 1], m) == Broadcast(sessions[..i], m) + [Delivery(sessions[i], m)]
  {
    assert sessions[..i + 1][..i] == sessions[..i];
  }

  /** Broadcasting to one more session appends its delivery unless it is the excluded one. */
  lemma BroadcastExceptSnoc(sessions: seq<SessionId>, self: SessionId, m: Message, i: nat)
    requires i < |sessions|
    ensures BroadcastExcept(sessions[..i + 1], self, m)
         == BroadcastExcept(sessions[..i], self, m) + (if sessions[i] == self then [] else [Delivery(sessions[i], m)])
  {
    assert sessions[..i + 1][..i] == sessions[..i];
  }

  /** One write of each message of `ms` to session `s`, in order. */
  function ToSession(s: SessionId, ms: seq<Message>): (r: seq<Delivery>)
    ensures |r| == |ms|
    ensures forall i | 0 <= i < |r| :: r[i].to == s && r[i].message == ms[i]
  {
    seq(|ms|, i requires 0 <= i < |ms| => Delivery(s, ms[i]))
  }
}
