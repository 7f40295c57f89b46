/**
 * One client connection: its registration state, user mode, negotiated
 * capabilities and joined channels, and the command handlers that act on
 * them and on the shared registry.
 *
 * Writes to any connection are recorded, in order, in `sent`: a write to this
 * session's own connection is a Delivery to `id`, a write to another
 * session's connection a Delivery to that session's id.
 */
module Sessions {
  import opened Types
  import opened Seqs
  import opened Channels
  import opened Registry
  import opened MessageTarget
  import opened ServerErrors
  import opened SessionState
  import opened Dispatch

  class Session {
    const id: SessionId
    const server: ServerContext
    var state: State
    var mode: UserMode
    var activeCapabilities: set<string>
    var joinedChannels: set<ChannelName>
    var sent: seq<Delivery>

    /** The registry is well formed and does not own this session. */
    ghost predicate Valid()
      reads server, server.Repr
    {
      server.Valid() && this !in server.Repr
    }

    /** The joined set agrees with the registry: joined exactly where subscribed. */
    ghost predicate InSync()
      reads this, server
    {
      Tracks(Progress(server.channels, joinedChannels, []), id)
    }

    /** Once the session has a nick, the registry files that nick under this session. */
    ghost predicate NickBound()
      reads this, server
    {
      NickOf(state).Some? ==> NickOf(state).value in server.nickToSession && server.nickToSession[NickOf(state).value] == id
    }

    /** Who this session is when it issues a command. */
    function Me(): (me: Caller)
      reads this`state
      ensures me.id == id && me.nick == NickOf(state) && me.origin == server.origin && me.target == TargetOf(state)
      ensures me.mask == MaskOf(state, server.origin)
    {
      Caller(id, NickOf(state), MaskOf(state, server.origin), server.origin, TargetOf(state))
    }

    /**
     * A new connection: nothing assigned, no mode, every server capability
     * active, no channels. Its identity is new, so no channel lists it yet.
     */
    constructor (id: SessionId, server: ServerContext)
      requires server.Valid()
      requires forall n | n in server.channels :: id !in server.channels[n].subscribers
      ensures Valid() && InSync() && NickBound()
      ensures this.id == id && this.server == server
      ensures state == Initial && mode == {} && activeCapabilities == SERVER_CAPABILITIES
      ensures joinedChannels == {} && sent == []
    {
      this.id := id;
      this.server := server;
      state := Initial;
      mode := {};
      activeCapabilities := SERVER_CAPABILITIES;
      joinedChannels := {};
      sent := [];
    }

    // -------------------------------------------------------------------
    // Writing

    /** `sendReply`: the numeric with exactly these arguments, to this connection. */
    method SendReply(code: Code, args: seq<string>)
      modifies this`sent
      ensures sent == old(sent) + [ReplyTo(Me(), code, args)]
    {
      sent := sent + [ReplyTo(Me(), code, args)];
    }

    /** `sendError`: the numeric with the arguments and the trailing text, to this connection. */
    method SendError(code: Code, message: Option<string>, args: seq<string>)
      modifies this`sent
      ensures sent == old(sent) + [Delivery(id, ErrorReply(server.origin, TargetOf(state), code, message, args))]
      ensures sent[|sent| - 1].message.command.args[|args|] == if message.Some? then message.value else ErrorMessage(code)
    {
      sent := sent + [Delivery(id, ErrorReply(server.origin, TargetOf(state), code, message, args))];
    }

    /** `sendMotD`: the message of the day, framed, to this connection; nothing for an empty text. */
    method SendMotD(text: string)
      modifies this`sent
      ensures sent == old(sent) + ToSession(id, MotDMessages(server.origin, TargetOf(state), text))
      ensures text == [] ==> sent == old(sent)
    {
      sent := sent + ToSession(id, MotDMessages(server.origin, TargetOf(state), text));
    }

    /**
     * Assigns the state, with the effect of its observer: crossing into the
     * registered state sends the welcome and then the current mode.
     */
    method SetState(newState: State)
      modifies this`state, this`sent
      ensures state == newState
      ensures sent == old(sent) + ToSession(id, TransitionEffects(old(state), newState, mode, server.origin))
      ensures !WelcomeFires(old(state), newState) ==> sent == old(sent)
    {
      var effects := TransitionEffects(state, newState, mode, server.origin);
      state := newState;
      sent := sent + ToSession(id, effects);
    }

    // -------------------------------------------------------------------
    // Errors

    /** `handleError(IRCServerError)`: the error reply its table names. */
    method HandleServerError(e: ServerError)
      modifies this`sent
      ensures sent == old(sent) + [Delivery(id, ErrorMessageOf(server.origin, TargetOf(state), ServerErrorCall(e, NickOf(state))))]
    {
      var call := ServerErrorCall(e, NickOf(state));
      SendError(call.code, call.message, call.args);
    }

    /** `handleError(IRCParserError)`: the error reply its table names. */
    method HandleParserError(e: ParserError)
      modifies this`sent
      ensures sent == old(sent) + [Delivery(id, ErrorMessageOf(server.origin, TargetOf(state), ParserErrorCall(e)))]
    {
      var call := ParserErrorCall(e);
      SendError(call.code, call.message, call.args);
    }

    /**
     * What happens to an error a handler throws: a domain error is answered
     * by its reply, and so is a protocol error except a transport error or a
     * missing implementation, which go on down the pipeline unanswered.
     */
    method Report(outcome: Outcome)
      modifies this`sent
      ensures outcome.Done? ==> sent == old(sent)
      ensures outcome.Failed? && outcome.error.Domain? ==>
        sent == old(sent) + [Delivery(id, ErrorMessageOf(server.origin, TargetOf(state), ServerErrorCall(outcome.error.serverError, NickOf(state))))]
      ensures outcome.Failed? && outcome.error.Protocol? && (outcome.error.parserError.TransportError? || outcome.error.parserError.NotImplemented?) ==>
        sent == old(sent)
      ensures outcome.Failed? && outcome.error.Protocol? && !(outcome.error.parserError.TransportError? || outcome.error.parserError.NotImplemented?) ==>
        sent == old(sent) + [Delivery(id, ErrorMessageOf(server.origin, TargetOf(state), ParserErrorCall(outcome.error.parserError)))]
    {
      match outcome
      case Done =>
      case Failed(Domain(e)) => HandleServerError(e);
      case Failed(Protocol(e)) =>
        if !(e.TransportError? || e.NotImplemented?) {
          HandleParserError(e);
        }
    }

    // -------------------------------------------------------------------
    // Registration

    /** `doPing`: PONG naming this server, unless a second server is named that is not this one. */
    method DoPing(server1: string, server2: Option<string>) returns (outcome: Outcome)
      modifies this`sent
      ensures outcome == Done
      ensures server2.Some? && server2.value != server.origin ==>
        sent == old(sent) + [Delivery(id, ErrorReply(server.origin, TargetOf(state), ERROR_NO_SUCH_SERVER, None, [server2.value]))]
      ensures !(server2.Some? && server2.value != server.origin) ==>
        sent == old(sent) + [Delivery(id, Message(ServerName(server.origin), None, PongCmd(server.origin, server1)))]
    {
      if server2.Some? && server2.value != server.origin {
        SendError(ERROR_NO_SUCH_SERVER, None, [server2.value]);
        return Done;
      }
      sent := sent + [Delivery(id, Message(ServerName(server.origin), None, PongCmd(server.origin, server1)))];
      return Done;
    }

    /**
     * `doNick`: the same nick again does nothing; a session with a nick renames
     * it in the registry and announces the change under its old mask; a
     * session without one registers the nick. A registry error leaves the
     * session's state alone.
     */
    method DoNick(nick: Nick) returns (outcome: Outcome)
      requires Valid()
      modifies this`state, this`sent, server`nickToSession
      ensures Valid() && server.channels == old(server.channels)
      ensures NickOf(old(state)) == Some(nick) ==>
        outcome == Done && state == old(state) && sent == old(sent) && server.nickToSession == old(server.nickToSession)
      ensures NickOf(old(state)).Some? && NickOf(old(state)).value != nick ==>
        var r := Rename(old(server.nickToSession), NickOf(old(state)).value, nick);
        && server.nickToSession == r.nicks
        && (r.error.Some? ==> outcome == Failed(Domain(r.error.value)) && state == old(state) && sent == old(sent))
        && (r.error.None? ==>
              && outcome == Done && state == ChangeNick(old(state), nick)
              && sent == old(sent) + [Delivery(id, Message(RenameOrigin(old(state), server.origin), None, NickCmd(nick)))])
      ensures NickOf(old(state)).None? ==>
        var r := Register(old(server.nickToSession), nick, id);
        && server.nickToSession == r.nicks
        && (r.error.Some? ==> outcome == Failed(Domain(r.error.value)) && state == old(state) && sent == old(sent))
        && (r.error.None? ==>
              && outcome == Done && state == ChangeNick(old(state), nick)
              && sent == old(sent) + ToSession(id, TransitionEffects(old(state), state, mode, server.origin)))
      ensures old(NickBound()) ==> NickBound()
    {
      match NickOf(state)
      case Some(oldNick) =>
        if oldNick == nick {
          return Done;
        }
        outcome := RenameTo(oldNick, nick);
      case None =>
        outcome := RegisterAs(nick);
    }

    /** The NICK change of a session that has another nick: rename it in the registry, then echo NICK. */
    method RenameTo(oldNick: Nick, nick: Nick) returns (outcome: Outcome)
      requires Valid() && NickOf(state) == Some(oldNick) && oldNick != nick
      modifies this`state, this`sent, server`nickToSession
      ensures Valid() && server.channels == old(server.channels)
      ensures var r := Rename(old(server.nickToSession), oldNick, nick);
        && server.nickToSession == r.nicks
        && (r.error.Some? ==> outcome == Failed(Domain(r.error.value)) && state == old(state) && sent == old(sent))
        && (r.error.None? ==>
              && outcome == Done && state == ChangeNick(old(state), nick)
              && sent == old(sent) + [Delivery(id, Message(RenameOrigin(old(state), server.origin), None, NickCmd(nick)))])
      ensures old(NickBound()) ==> NickBound()
    {
      var origin := RenameOrigin(state, server.origin);
      var error := server.RenameNick(oldNick, nick);
      if error.Some? {
        return Failed(Domain(error.value));
      }
      SetState(ChangeNick(state, nick));
      sent := sent + [Delivery(id, Message(origin, None, NickCmd(nick)))];
      return Done;
    }

    /** The first NICK of a session: register the nick, which may complete registration. */
    method RegisterAs(nick: Nick) returns (outcome: Outcome)
      requires Valid() && NickOf(state).None?
      modifies this`state, this`sent, server`nickToSession
      ensures Valid() && server.channels == old(server.channels)
      ensures var r := Register(old(server.nickToSession), nick, id);
        && server.nickToSession == r.nicks
        && (r.error.Some? ==> outcome == Failed(Domain(r.error.value)) && state == old(state) && sent == old(sent))
        && (r.error.None? ==>
              && outcome == Done && state == ChangeNick(old(state), nick)
              && sent == old(sent) + ToSession(id, TransitionEffects(old(state), state, mode, server.origin)))
      ensures old(NickBound()) ==> NickBound()
    {
      var error := server.RegisterSession(id, nick);
      if error.Some? {
        return Failed(Domain(error.value));
      }
      SetState(ChangeNick(state, nick));
      return Done;
    }

    /** `doUserInfo`: refused once registered; otherwise stores the USER data, registering a session that has a nick. */
    method DoUserInfo(info: UserInfo) returns (outcome: Outcome)
      modifies this`state, this`sent
      ensures IsRegistered(old(state)) ==> outcome == Failed(Domain(AlreadyRegistered)) && state == old(state) && sent == old(sent)
      ensures !IsRegistered(old(state)) ==>
        && outcome == Done
        && state == ApplyStep(old(state), UserStep(info))
        && UserInfoOf(state) == Some(info) && NickOf(state) == NickOf(old(state))
        && (IsRegistered(state) <==> NickOf(old(state)).Some?)
        && sent == old(sent) + ToSession(id, TransitionEffects(old(state), state, mode, server.origin))
    {
      if IsRegistered(state) {
        return Failed(Domain(AlreadyRegistered));
      }
      if NickOf(state).Some? {
        SetState(Registered(NickOf(state).value, info));
      } else {
        SetState(UserSet(info));
      }
      return Done;
    }

    // -------------------------------------------------------------------
    // Modes

    /** `doModeGet(nick:)`: the session's own mode, to a registered session asking about itself. */
    method DoModeGet(nick: Nick) returns (outcome: Outcome)
      modifies this`sent
      ensures !IsRegistered(state) ==> outcome == Failed(Domain(NotRegistered)) && sent == old(sent)
      ensures IsRegistered(state) && nick != NickOf(state).value ==>
        outcome == Failed(Domain(CantChangeModeForOtherUsers)) && sent == old(sent)
      ensures IsRegistered(state) && nick == NickOf(state).value ==>
        outcome == Done && sent == old(sent) + [ReplyTo(Me(), REPLY_UMODE_IS, [UserModeText(mode)])]
    {
      if !IsRegistered(state) {
        return Failed(Domain(NotRegistered));
      }
      if nick != NickOf(state).value {
        return Failed(Domain(CantChangeModeForOtherUsers));
      }
      SendReply(REPLY_UMODE_IS, [UserModeText(mode)]);
      return Done;
    }

    /**
     * `doMode(nick:add:remove:)`: applies the change to the session's own
     * mode; a change that alters nothing sends nothing, otherwise MODE with the
     * whole new mode as added and the removed flags.
     */
    method DoMode(nick: Nick, add: UserMode, remove: UserMode) returns (outcome: Outcome)
      modifies this`mode, this`sent
      ensures !IsRegistered(state) ==> outcome == Failed(Domain(NotRegistered)) && mode == old(mode) && sent == old(sent)
      ensures IsRegistered(state) && nick != NickOf(state).value ==>
        outcome == Failed(Domain(CantChangeModeForOtherUsers)) && mode == old(mode) && sent == old(sent)
      ensures IsRegistered(state) && nick == NickOf(state).value ==>
        && outcome == Done
        && mode == ApplyModeChange(old(mode), add, remove)
        && (mode == old(mode) ==> sent == old(sent))
        && (mode != old(mode) ==>
              sent == old(sent) + [Delivery(id, Message(ServerName(server.origin), None, ModeCmd(nick, mode, remove)))])
    {
      if !IsRegistered(state) {
        return Failed(Domain(NotRegistered));
      }
      if nick != NickOf(state).value {
        return Failed(Domain(CantChangeModeForOtherUsers));
      }
      var newMode := ApplyModeChange(mode, add, remove);
      if newMode == mode {
        return Done;
      }
      mode := newMode;
      sent := sent + [Delivery(id, Message(ServerName(server.origin), None, ModeCmd(nick, mode, remove)))];
      return Done;
    }

    /** `doModeGet(channel:)`: a channel's mode, to a registered session. */
    method DoModeGetChannel(channel: ChannelName) returns (outcome: Outcome)
      requires Valid()
      modifies this`sent
      ensures !IsRegistered(state) ==> outcome == Failed(Domain(NotRegistered)) && sent == old(sent)
      ensures IsRegistered(state) && channel !in server.channels ==>
        outcome == Failed(Domain(NoSuchChannel(channel))) && sent == old(sent)
      ensures IsRegistered(state) && channel in server.channels ==>
        outcome == Done && sent == old(sent) + [ReplyTo(Me(), REPLY_CHANNEL_MODE_IS, [channel, ChannelModeText(server.channels[channel].mode)])]
    {
      if !IsRegistered(state) {
        return Failed(Domain(NotRegistered));
      }
      var m := server.GetChannelMode(channel);
      if m.None? {
        return Failed(Domain(NoSuchChannel(channel)));
      }
      SendReply(REPLY_CHANNEL_MODE_IS, [channel, ChannelModeText(m.value)]);
      return Done;
    }

    /** `doGetBanMask`: bans are not kept, so a registered session always gets the end of an empty list. */
    method DoGetBanMask(channel: ChannelName) returns (outcome: Outcome)
      modifies this`sent
      ensures !IsRegistered(state) ==> outcome == Failed(Domain(NotRegistered)) && sent == old(sent)
      ensures IsRegistered(state) ==>
        outcome == Done && sent == old(sent) + [ReplyTo(Me(), REPLY_END_OF_BAN_LIST, [channel, "End of Channel Ban List"])]
    {
      if !IsRegistered(state) {
        return Failed(Domain(NotRegistered));
      }
      SendReply(REPLY_END_OF_BAN_LIST, [channel, "End of Channel Ban List"]);
      return Done;
    }

    // -------------------------------------------------------------------
    // Capabilities

    /**
     * `doCAP`: LS lists the server's capabilities; REQ of known capabilities
     * makes exactly those active and acknowledges them, REQ of an unknown one
     * is a protocol error; END is silent; any other subcommand is a protocol error.
     */
    method DoCAP(cmd: CapSubCommand, capIDs: seq<string>) returns (outcome: Outcome)
      modifies this`activeCapabilities, this`sent
      ensures cmd.LS? ==>
        && outcome == Done && activeCapabilities == old(activeCapabilities)
        && sent == old(sent) + [Delivery(id, Message(ServerName(server.origin), Some(TargetOf(state)), CapCmd(LS, SERVER_CAPABILITIES)))]
      ensures cmd.REQ? && !AllSupported(capIDs) ==>
        outcome == Failed(Protocol(InvalidCAPCommand("REQ"))) && activeCapabilities == old(activeCapabilities) && sent == old(sent)
      ensures cmd.REQ? && AllSupported(capIDs) ==>
        && outcome == Done
        && activeCapabilities == Elements(capIDs) && activeCapabilities <= SERVER_CAPABILITIES
        && sent == old(sent) + [Delivery(id, Message(ServerName(server.origin), Some(TargetOf(state)), CapCmd(ACK, Elements(capIDs))))]
      ensures cmd.END? ==> outcome == Done && activeCapabilities == old(activeCapabilities) && sent == old(sent)
      ensures !(cmd.LS? || cmd.REQ? || cmd.END?) ==>
        outcome == Failed(Protocol(InvalidCAPCommand(CapSubCommandString(cmd))))
        && activeCapabilities == old(activeCapabilities) && sent == old(sent)
    {
      var reply: Command;
      match cmd {
        case LS =>
          reply := CapCmd(LS, SERVER_CAPABILITIES);
        case REQ =>
          var ok := CheckCapabilities(capIDs);
          if !ok {
            return Failed(Protocol(InvalidCAPCommand(CapSubCommandString(cmd))));
          }
          activeCapabilities := Elements(capIDs);
          reply := CapCmd(ACK, activeCapabilities);
        case END =>
          return Done;
        case _ =>
          return Failed(Protocol(InvalidCAPCommand(CapSubCommandString(cmd))));
      }
      sent := sent + [Delivery(id, Message(ServerName(server.origin), Some(TargetOf(state)), reply))];
      return Done;
    }

    // -------------------------------------------------------------------
    // Fan-out

    /** `forEach { $0.sendMessage(m) }`: the message to each listed session, in order. */
    method SendToAll(sessions: seq<SessionId>, m: Message)
      modifies this`sent
      ensures sent == old(sent) + Broadcast(sessions, m)
    {
      var i := 0;
      while i < |sessions|
        invariant 0 <= i <= |sessions|
        invariant sent == old(sent) + Broadcast(sessions[..i], m)
      {
        BroadcastSnoc(sessions, m, i);
        sent := sent + [Delivery(sessions[i], m)];
        i := i + 1;
      }
      assert sessions[..i] == sessions;
    }

    /** The channel loop of `doMessage`: the message to each listed session but this one, in order. */
    method SendToAllBut(sessions: seq<SessionId>, m: Message)
      modifies this`sent
      ensures sent == old(sent) + BroadcastExcept(sessions, id, m)
    {
      var i := 0;
      while i < |sessions|
        invariant 0 <= i <= |sessions|
        invariant sent == old(sent) + BroadcastExcept(sessions[..i], id, m)
      {
        SendUnlessSelf(sessions, i, m, old(sent));
        i := i + 1;
      }
      assert sessions[..i] == sessions;
    }

    /** One pass of the channel loop of `doMessage`: session `i` gets the message unless it is this one. */
    method SendUnlessSelf(sessions: seq<SessionId>, i: nat, m: Message, ghost base: seq<Delivery>)
      requires i < |sessions| && sent == base + BroadcastExcept(sessions[..i], id, m)
      modifies this`sent
      ensures sent == base + BroadcastExcept(sessions[..i + 1], id, m)
    {
      BroadcastExceptSnoc(sessions, id, m, i);
      if sessions[i] != id {
        sent := sent + [Delivery(sessions[i], m)];
      }
    }

    // -------------------------------------------------------------------
    // Channels

    /**
     * `doJoin`: for a registered session, joins each listed channel it is not
     * yet in, as JoinAll says: JOIN to all subscribers, then the topic reply.
     */
    method DoJoin(names: seq<ChannelName>) returns (outcome: Outcome)
      requires Valid()
      modifies this`joinedChannels, this`sent, server.Repr
      ensures Valid() && fresh(server.Repr - old(server.Repr))
      ensures server.nickToSession == old(server.nickToSession)
      ensures !IsRegistered(state) ==>
        && outcome == Failed(Domain(NotRegistered))
        && server.channels == old(server.channels) && joinedChannels == old(joinedChannels) && sent == old(sent)
      ensures IsRegistered(state) ==>
        && outcome == Done
        && Progress(server.channels, joinedChannels, sent)
           == JoinAll(Progress(old(server.channels), old(joinedChannels), old(sent)), Me(), names)
      ensures old(InSync()) ==> InSync()
    {
      if !IsRegistered(state) {
        return Failed(Domain(NotRegistered));
      }
      ghost var start := Progress(server.channels, joinedChannels, sent);
      var me := Me();
      var i := 0;
      while i < |names|
        invariant 0 <= i <= |names|
        invariant Valid() && fresh(server.Repr - old(server.Repr))
        invariant server.nickToSession == old(server.nickToSession)
        invariant Progress(server.channels, joinedChannels, sent) == JoinAll(start, me, names[..i])
      {
        assert names[..i + 1][..i] == names[..i];
        JoinOne(names[i], me);
        i := i + 1;
      }
      assert names[..i] == names;
      if old(InSync()) {
        JoinAllJoins(start, me, names);
      }
      return Done;
    }

    /** One pass of the `doJoin` loop. */
    method JoinOne(name: ChannelName, me: Caller)
      requires Valid() && me == Me()
      modifies this`joinedChannels, this`sent, server.Repr
      ensures Valid() && fresh(server.Repr - old(server.Repr))
      ensures server.nickToSession == old(server.nickToSession)
      ensures Progress(server.channels, joinedChannels, sent)
              == JoinStep(Progress(old(server.channels), old(joinedChannels), old(sent)), me, name)
    {
      if name in joinedChannels {
        return;
      }
      var info := EnterChannel(name);
      var subscribers := server.GetSessionsIn(name);
      AnnounceJoin(name, me, subscribers.value, info.welcome);
    }

    /** The registry half of one `doJoin` pass: join the channel and remember it. */
    method EnterChannel(name: ChannelName) returns (info: ChannelInfo)
      requires Valid()
      modifies this`joinedChannels, server.Repr
      ensures Valid() && fresh(server.Repr - old(server.Repr))
      ensures server.nickToSession == old(server.nickToSession)
      ensures server.channels == Joined(old(server.channels), name, id, NickOf(state))
      ensures joinedChannels == old(joinedChannels) + {name}
      ensures info == server.channels[name]
    {
      info := server.JoinChannel(name, id, NickOf(state));
      server.ChannelsWellFormed();
      joinedChannels := joinedChannels + {info.name};
    }

    /** The writes of one `doJoin` pass: JOIN to every subscriber, then the topic to the joiner. */
    method AnnounceJoin(name: ChannelName, me: Caller, subscribers: seq<SessionId>, welcome: string)
      requires me == Me()
      modifies this`sent
      ensures sent == old(sent) + Broadcast(subscribers, JoinMessage(me, name)) + [ReplyTo(me, REPLY_TOPIC, [name, welcome])]
    {
      SendToAll(subscribers, JoinMessage(me, name));
      SendReply(REPLY_TOPIC, [name, welcome]);
    }

    /**
     * `doPart`: for each listed channel the session is in, PART to all its
     * subscribers, then leave it and forget it, as PartAll says.
     */
    method DoPart(names: seq<ChannelName>, text: Option<string>) returns (outcome: Outcome)
      requires Valid()
      modifies this`joinedChannels, this`sent, server.Repr
      ensures Valid() && server.Repr == old(server.Repr)
      ensures server.nickToSession == old(server.nickToSession)
      ensures outcome == Done
      ensures Progress(server.channels, joinedChannels, sent)
              == PartAll(Progress(old(server.channels), old(joinedChannels), old(sent)), Me(), text, names)
      ensures old(InSync()) ==> InSync()
    {
      ghost var start := Progress(server.channels, joinedChannels, sent);
      if names == [] {
        return Done;
      }
      var me := Me();
      var i := 0;
      while i < |names|
        invariant 0 <= i <= |names|
        invariant Valid() && server.Repr == old(server.Repr)
        invariant server.nickToSession == old(server.nickToSession)
        invariant Progress(server.channels, joinedChannels, sent) == PartAll(start, me, text, names[..i])
      {
        assert names[..i + 1][..i] == names[..i];
        PartOne(names[i], me, text);
        i := i + 1;
      }
      assert names[..i] == names;
      if old(InSync()) {
        server.ChannelsWellFormed();
        PartAllLeaves(start, me, text, names);
      }
      return Done;
    }

    /** One pass of the `doPart` loop. */
    method PartOne(name: ChannelName, me: Caller, text: Option<string>)
      requires Valid() && me == Me()
      modifies this`joinedChannels, this`sent, server.Repr
      ensures Valid() && server.Repr == old(server.Repr)
      ensures server.nickToSession == old(server.nickToSession)
      ensures Progress(server.channels, joinedChannels, sent)
              == PartStep(Progress(old(server.channels), old(joinedChannels), old(sent)), me, text, name)
    {
      if name !in joinedChannels {
        return;
      }
      var subscribers := server.GetSessionsIn(name);
      SendToAll(if subscribers.Some? then subscribers.value else [], PartMessage(me, name, text));
      LeaveChannel(name);
    }

    /** The registry half of one `doPart` pass: leave the channel and forget it. */
    method LeaveChannel(name: ChannelName)
      requires Valid()
      modifies this`joinedChannels, server.Repr
      ensures Valid() && server.Repr == old(server.Repr)
      ensures server.nickToSession == old(server.nickToSession)
      ensures server.channels == Parted(old(server.channels), name, id)
      ensures joinedChannels == old(joinedChannels) - {name}
    {
      server.PartChannel(name, id);
      joinedChannels := joinedChannels - {name};
    }

    /** `doPartAll`: parts every joined channel, in some order, without a text. */
    method DoPartAll() returns (outcome: Outcome)
      requires Valid()
      modifies this`joinedChannels, this`sent, server.Repr
      ensures Valid() && server.Repr == old(server.Repr)
      ensures server.nickToSession == old(server.nickToSession)
      ensures outcome == Done && joinedChannels == {}
      ensures server.channels.Keys == old(server.channels).Keys
      ensures |sent| >= |old(sent)| && sent[..|old(sent)|] == old(sent)
      ensures server.channels == PartChannels(old(server.channels), old(joinedChannels), id)
      ensures exists names | NoDuplicates(names) && Elements(names) == old(joinedChannels) ::
        Progress(server.channels, joinedChannels, sent)
        == PartAll(Progress(old(server.channels), old(joinedChannels), old(sent)), Me(), None, names)
      ensures old(InSync()) ==>
        && InSync()
        && (forall n | n in server.channels :: id !in server.channels[n].subscribers)
        && (forall n | n in old(server.channels) && n !in old(joinedChannels) :: server.channels[n] == old(server.channels)[n])
    {
      ghost var start := Progress(server.channels, joinedChannels, sent);
      var names := SetToSeq(joinedChannels);
      assert Elements(names) == joinedChannels;
      var me := Me();
      outcome := DoPart(names, None);
      PartAllForgets(start, me, None, names);
      PartAllIsPartChannels(start, me, None, names);
      if old(InSync()) {
        server.ChannelsWellFormed();
        PartAllLeaves(start, me, None, names);
      }
    }

    // -------------------------------------------------------------------
    // Messages and queries

    /**
     * `doMessage`: the text to each recipient in turn, as Route says; a
     * recipient that does not exist gets an error reply and the rest are
     * still served.
     */
    method DoMessage(recipients: seq<Recipient>, text: string) returns (outcome: Outcome)
      requires Valid()
      modifies this`sent
      ensures outcome == Done
      ensures sent == old(sent) + Route(server.nickToSession, server.channels, Me(), recipients, text)
    {
      var me := Me();
      var nicks := server.nickToSession;
      ghost var channels := server.channels;
      var i := 0;
      while i < |recipients|
        invariant 0 <= i <= |recipients|
        invariant sent == old(sent) + RoutedUpTo(nicks, channels, me, recipients, i, text)
      {
        MessageStep(recipients, i, me, text, old(sent));
        i := i + 1;
      }
      RoutedUpToRoute(nicks, channels, me, recipients, i, text);
      assert recipients[..i] == recipients;
      return Done;
    }

    /** Pass `i` of the `doMessage` loop extends the writes of the passes before it. */
    method MessageStep(recipients: seq<Recipient>, i: nat, me: Caller, text: string, ghost base: seq<Delivery>)
      requires Valid() && me == Me() && i < |recipients|
      requires sent == base + RoutedUpTo(server.nickToSession, server.channels, me, recipients, i, text)
      modifies this`sent
      ensures sent == base + RoutedUpTo(server.nickToSession, server.channels, me, recipients, i + 1, text)
    {
      MessageOne(recipients[i], me, text);
    }

    /** One pass of the `doMessage` loop. */
    method MessageOne(r: Recipient, me: Caller, text: string)
      requires Valid() && me == Me()
      modifies this`sent
      ensures sent == old(sent) + RouteOne(server.nickToSession, server.channels, me, r, text)
    {
      match r
      case Everything =>
        SendReply(ERROR_NO_SUCH_NICK, ["*", "No such nick/channel"]);
      case ToNick(n) =>
        var target := server.GetSession(n);
        if target.None? {
          SendReply(ERROR_NO_SUCH_NICK, [n, "No such nick/channel '" + n + "'"]);
        } else {
          sent := sent + [Delivery(target.value, PrivMsg(me, r, text))];
        }
      case ToChannel(c) =>
        var targets := server.GetSessionsIn(c);
        if targets.None? {
          SendReply(ERROR_NO_SUCH_CHANNEL, [c, "No such channel '" + c + "'"]);
        } else {
          SendToAllBut(targets.value, PrivMsg(me, r, text));
        }
    }

    /** `doIsOnline`: which of the asked nicks are online, to a registered session. */
    method DoIsOnline(nicks: seq<Nick>) returns (outcome: Outcome)
      requires Valid()
      modifies this`sent
      ensures !IsRegistered(state) ==> outcome == Failed(Domain(NotRegistered)) && sent == old(sent)
      ensures IsRegistered(state) ==>
        && outcome == Done
        && |sent| == |old(sent)| + 1 && sent[..|old(sent)|] == old(sent)
        && var m := sent[|sent| - 1];
           && m.to == id && m.message.origin == ServerName(server.origin) && m.message.target == Some(TargetOf(state))
           && m.message.command.IsOnReply?
           && (forall n :: n in m.message.command.online <==> n in nicks && n in server.nickToSession)
    {
      if !IsRegistered(state) {
        return Failed(Domain(NotRegistered));
      }
      var online := server.GetNicksOnline();
      var result := Elements(nicks) * Elements(online);
      sent := sent + [Delivery(id, Message(ServerName(server.origin), Some(TargetOf(state)), IsOnReply(result)))];
      return Done;
    }

    /**
     * `doList`: to a registered session asking this server, the start reply,
     * one row per channel (the listed ones that exist, in order, or all of
     * them), then the end reply.
     */
    method DoList(channels: Option<seq<ChannelName>>, target: Option<string>) returns (outcome: Outcome)
      requires Valid()
      modifies this`sent
      ensures !IsRegistered(state) ==> outcome == Failed(Domain(NotRegistered)) && sent == old(sent)
      ensures IsRegistered(state) && target.Some? && target.value != server.origin ==>
        outcome == Done && sent == old(sent) + [Delivery(id, ErrorReply(server.origin, TargetOf(state), ERROR_NO_SUCH_SERVER, None, [target.value]))]
      ensures IsRegistered(state) && !(target.Some? && target.value != server.origin) && channels.Some? ==>
        outcome == Done && sent == old(sent) + Listing(Me(), KnownInfos(server.channels, channels.value))
      ensures IsRegistered(state) && !(target.Some? && target.value != server.origin) && channels.None? ==>
        && outcome == Done
        && exists infos: seq<ChannelInfo> ::
             && sent == old(sent) + Listing(Me(), infos)
             && |infos| == |server.channels|
             && forall n | n in server.channels :: ListRow(Me(), server.channels[n]) in ListRows(Me(), infos)
    {
      if !IsRegistered(state) {
        return Failed(Domain(NotRegistered));
      }
      if target.Some? && target.value != server.origin {
        SendError(ERROR_NO_SUCH_SERVER, None, [target.value]);
        return Done;
      }
      var infos := server.GetChannelInfos(channels);
      SendListing(infos);
      if channels.None? {
        ListRowsCover(Me(), infos, server.channels);
      }
      return Done;
    }

    /** The LIST replies for the given infos: start, one row each, end. */
    method SendListing(infos: seq<ChannelInfo>)
      modifies this`sent
      ensures sent == old(sent) + Listing(Me(), infos)
    {
      SendReply(REPLY_LIST_START, ["Channel", "Users  Name"]);
      SendListRows(infos);
      SendReply(REPLY_LIST_END, ["End of /LIST"]);
    }

    /** The loop of `doList`: one row per info, in order. */
    method SendListRows(infos: seq<ChannelInfo>)
      modifies this`sent
      ensures sent == old(sent) + ListRows(Me(), infos)
    {
      var me := Me();
      var i := 0;
      while i < |infos|
        invariant 0 <= i <= |infos|
        invariant sent == old(sent) + ListRows(me, infos[..i])
      {
        assert infos[..i + 1][..i] == infos[..i];
        sent := sent + [ListRow(me, infos[i])];
        i := i + 1;
      }
      assert infos[..i] == infos;
    }

    /**
     * `doWhoIs`: to a registered session asking this server, a user reply for
     * each mask that is its own nick, then the server reply and the end reply.
     */
    method DoWhoIs(serverName: Option<string>, masks: seq<string>) returns (outcome: Outcome)
      modifies this`sent
      ensures !IsRegistered(state) ==> outcome == Failed(Domain(NotRegistered)) && sent == old(sent)
      ensures IsRegistered(state) && serverName.Some? && serverName.value != server.origin ==>
        outcome == Done && sent == old(sent) + [Delivery(id, ErrorReply(server.origin, TargetOf(state), ERROR_NO_SUCH_SERVER, None, [serverName.value]))]
      ensures IsRegistered(state) && !(serverName.Some? && serverName.value != server.origin) ==>
        && outcome == Done
        && sent == old(sent) + WhoIsUsers(Me(), NickOf(state).value, UserInfoOf(state).value, masks)
                  + [ReplyTo(Me(), REPLY_WHOIS_SERVER, [server.origin, "The Interwebs"]),
                     ReplyTo(Me(), REPLY_END_OF_WHOIS, [JoinWith(masks, ","), "End of /WHOIS list"])]
    {
      if NickOf(state).None? || UserInfoOf(state).None? {
        return Failed(Domain(NotRegistered));
      }
      var myNick, info := NickOf(state).value, UserInfoOf(state).value;
      if serverName.Some? && serverName.value != server.origin {
        SendError(ERROR_NO_SUCH_SERVER, None, [serverName.value]);
        return Done;
      }
      SendWhoIsUsers(myNick, info, masks);
      SendReply(REPLY_WHOIS_SERVER, [server.origin, "The Interwebs"]);
      SendReply(REPLY_END_OF_WHOIS, [JoinWith(masks, ","), "End of /WHOIS list"]);
      return Done;
    }

    /** The mask loop of `doWhoIs`: a 311 for each mask naming this session's own nick. */
    method SendWhoIsUsers(myNick: Nick, info: UserInfo, masks: seq<string>)
      modifies this`sent
      ensures sent == old(sent) + WhoIsUsers(Me(), myNick, info, masks)
    {
      var me := Me();
      var i := 0;
      while i < |masks|
        invariant 0 <= i <= |masks|
        invariant sent == old(sent) + WhoIsUsers(me, myNick, info, masks[..i])
      {
        WhoIsStep(myNick, info, masks, i, me, old(sent));
        i := i + 1;
      }
      assert masks[..i] == masks;
    }

    /** One pass of the mask loop: the 311 for mask `i` if it names this session's nick. */
    method WhoIsStep(myNick: Nick, info: UserInfo, masks: seq<string>, i: nat, me: Caller, ghost base: seq<Delivery>)
      requires i < |masks| && me == Me()
      requires sent == base + WhoIsUsers(me, myNick, info, masks[..i])
      modifies this`sent
      ensures sent == base + WhoIsUsers(me, myNick, info, masks[..i + 1])
    {
      WhoIsUsersSnoc(me, myNick, info, masks, i);
      if masks[i] == myNick {
        SendReply(REPLY_WHOIS_USER, [myNick, "~" + info.username, TargetOf(state), "*", info.realname]);
      }
    }

    // -------------------------------------------------------------------
    // Disconnect

    /**
     * `channelInactive`: leaves every joined channel (the joined set itself is
     * kept), then releases the nick if one was assigned; a registry error is
     * only logged.
     */
    method Teardown()
      requires Valid()
      modifies server.Repr
      ensures Valid() && server.Repr == old(server.Repr)
      ensures server.channels == PartChannels(old(server.channels), joinedChannels, id)
      ensures NickOf(state).Some? ==> server.nickToSession == Unregister(old(server.nickToSession), NickOf(state).value, id).nicks
      ensures NickOf(state).None? ==> server.nickToSession == old(server.nickToSession)
      ensures old(InSync()) ==> forall n | n in server.channels :: id !in server.channels[n].subscribers
      ensures old(NickBound()) && NickOf(state).Some? ==> NickOf(state).value !in server.nickToSession
    {
      server.ChannelsWellFormed();
      PartEvery(joinedChannels);
      if old(InSync()) {
        Vacated(old(server.channels), joinedChannels, id);
      }
      if NickOf(state).Some? {
        var _ := server.UnregisterSession(id, NickOf(state).value);
      }
    }

    /** The loop of `channelInactive`: parts each of `names` in the registry, in some order. */
    method PartEvery(names: set<ChannelName>)
      requires Valid()
      modifies server.Repr
      ensures Valid() && server.Repr == old(server.Repr)
      ensures server.nickToSession == old(server.nickToSession)
      ensures server.channels == PartChannels(old(server.channels), names, id)
    {
      var rest := names;
      while rest != {}
        invariant rest <= names
        invariant Valid() && server.Repr == old(server.Repr)
        invariant server.nickToSession == old(server.nickToSession)
        invariant server.channels == PartChannels(old(server.channels), names - rest, id)
        decreases |rest|
      {
        var c :| c in rest;
        PartChannelsStep(old(server.channels), names - rest, c, id);
        server.PartChannel(c, id);
        assert names - rest + {c} == names - (rest - {c});
        rest := rest - {c};
      }
      assert names - rest == names;
    }
  }

  /** Where a NICK change appears to come from: the mask before the rename, else the server. */
  function RenameOrigin(st: State, origin: string): (o: Origin)
    ensures IsRegistered(st) ==> o == MaskOf(st, origin)
    ensures !IsRegistered(st) ==> o == ServerName(origin)
  {
    if IsRegistered(st) then MaskOf(st, origin) else ServerName(origin)
  }

  /**
   * A registered session's NICK change is announced from its mask under the
   * old nick, which differs from the mask it has after the change.
   */
  lemma RenameOriginBeforeRename(st: State, nick: Nick, origin: string)
    requires IsRegistered(st) && NickOf(st).value != nick
    ensures RenameOrigin(st, origin).UserMask?
    ensures RenameOrigin(st, origin).id.nick == NickOf(st).value
    ensures RenameOrigin(st, origin) != MaskOf(ChangeNick(st, nick), origin)
  {
  }

  /** After the teardown loop a session that was in step with the registry is subscribed nowhere. */
  lemma {:induction false} Vacated(channels: map<ChannelName, ChannelInfo>, joined: set<ChannelName>, s: SessionId)
    requires DistinctSubscribers(channels)
    requires Tracks(Progress(channels, joined, []), s)
    ensures forall n | n in PartChannels(channels, joined, s) :: s !in PartChannels(channels, joined, s)[n].subscribers
  {
    PartChannelsLeaves(channels, joined, s);
    forall n | n in channels && n !in joined ensures s !in channels[n].subscribers {
      assert !(n in channels && s in channels[n].subscribers);
    }
  }
}
