/**
 * What the command handlers of a session compute, as functions on values:
 * the user mode update, capability negotiation, the JOIN and PART loops over
 * a list of channel names, the routing of PRIVMSG to its recipients, and the
 * rows of LIST and WHOIS. The session methods are proved to do what these
 * say; the lemmas here state what the handlers promise.
 */
module Dispatch {
  import opened Types
  import opened Seqs
  import opened Channels
  import opened Registry
  import opened MessageTarget
  import opened ServerErrors

  /** Who is issuing a command: session, nick (if any), mask, the server's name, and how replies address it. */
  datatype Caller = Caller(id: SessionId, nick: Option<Nick>, mask: Origin, origin: string, target: string)

  /** The message `sendReply` sends to the caller, as a delivery. */
  function ReplyTo(me: Caller, code: Code, args: seq<string>): Delivery {
    Delivery(me.id, Reply(me.origin, me.target, code, args))
  }

  // ---------------------------------------------------------------------
  // MODE and CAP

  /** `doMode`: the flags to remove are removed first, then the flags to add are added. */
  function ApplyModeChange(mode: UserMode, add: UserMode, remove: UserMode): (r: UserMode)
    ensures add <= r && r <= mode + add
    ensures forall f :: f in r <==> f in add || (f in mode && f !in remove)
  {
    (mode - remove) + add
  }

  /** Applying the same change twice is applying it once; adding wins over removing the same flag. */
  lemma ModeChangeIdempotent(mode: UserMode, add: UserMode, remove: UserMode)
    ensures ApplyModeChange(ApplyModeChange(mode, add, remove), add, remove) == ApplyModeChange(mode, add, remove)
    ensures forall f | f in add && f in remove :: f in ApplyModeChange(mode, add, remove)
  {
  }

  /** The mode as `doModeGet` reports it: empty, or "+" and the letters; a flag is set exactly when its letter appears. */
  function UserModeText(mode: UserMode): (s: string)
    ensures mode == {} ==> s == ""
    ensures mode != {} ==> |s| >= 2 && s[0] == '+' && s[1..] == UserModeLetters(mode)
    ensures forall f :: f in mode <==> UserFlagLetter(f) in s
  {
    UserModeLettersExact(mode);
    if mode == {} then ""
    else
      UserModeLettersNonEmpty(mode);
      "+" + UserModeLetters(mode)
  }

  /** The letters of a user mode name exactly its flags. */
  lemma UserModeLettersExact(mode: UserMode)
    ensures forall f :: f in mode <==> UserFlagLetter(f) in UserModeLetters(mode)
  {
    forall f ensures f in mode <==> UserFlagLetter(f) in UserModeLetters(mode) {
      LettersOfHas(USER_FLAG_ORDER, mode, UserFlagLetter, UserFlagLetter(f));
      UserFlagLetterRoundTrip(f);
      var i :| 0 <= i < |USER_FLAG_ORDER| && USER_FLAG_ORDER[i] == f;
      forall j | 0 <= j < |USER_FLAG_ORDER| && UserFlagLetter(USER_FLAG_ORDER[j]) == UserFlagLetter(f)
        ensures USER_FLAG_ORDER[j] == f
      {
        UserFlagLetterRoundTrip(USER_FLAG_ORDER[j]);
      }
    }
  }

  /** A non-empty mode has at least one letter. */
  lemma UserModeLettersNonEmpty(mode: UserMode)
    requires mode != {}
    ensures UserModeLetters(mode) != ""
  {
    var f :| f in mode;
    UserModeLettersExact(mode);
    assert UserFlagLetter(f) in UserModeLetters(mode);
  }

  /** The channel mode as `doModeGet(channel:)` reports it; a flag is set exactly when its letter appears. */
  function ChannelModeText(mode: ChannelMode): (s: string)
    ensures mode == {} ==> s == ""
    ensures mode != {} ==> |s| >= 2 && s[0] == '+' && s[1..] == ChannelModeLetters(mode)
    ensures forall f :: f in mode <==> ChannelFlagLetter(f) in s
  {
    ChannelModeLettersExact(mode);
    if mode == {} then ""
    else
      var f :| f in mode;
      assert ChannelFlagLetter(f) in ChannelModeLetters(mode);
      "+" + ChannelModeLetters(mode)
  }

  /** The letters of a channel mode name exactly its flags. */
  lemma ChannelModeLettersExact(mode: ChannelMode)
    ensures forall f :: f in mode <==> ChannelFlagLetter(f) in ChannelModeLetters(mode)
  {
    forall f ensures f in mode <==> ChannelFlagLetter(f) in ChannelModeLetters(mode) {
      LettersOfHas(CHANNEL_FLAG_ORDER, mode, ChannelFlagLetter, ChannelFlagLetter(f));
      ChannelFlagLetterRoundTrip(f);
      var i :| 0 <= i < |CHANNEL_FLAG_ORDER| && CHANNEL_FLAG_ORDER[i] == f;
      forall j | 0 <= j < |CHANNEL_FLAG_ORDER| && ChannelFlagLetter(CHANNEL_FLAG_ORDER[j]) == ChannelFlagLetter(f)
        ensures CHANNEL_FLAG_ORDER[j] == f
      {
        ChannelFlagLetterRoundTrip(CHANNEL_FLAG_ORDER[j]);
      }
    }
  }

  /** `serverCapabilities`. */
  const SERVER_CAPABILITIES: set<string> := {"multi-prefix"}

  /** Whether every requested capability is one the server offers. */
  predicate AllSupported(ids: seq<string>) {
    forall i | 0 <= i < |ids| :: ids[i] in SERVER_CAPABILITIES
  }

  /** The check loop of CAP REQ: true exactly when no requested capability is unknown. */
  method CheckCapabilities(ids: seq<string>) returns (ok: bool)
    ensures ok <==> AllSupported(ids)
    ensures ok ==> Elements(ids) <= SERVER_CAPABILITIES
    ensures !ok ==> exists i | 0 <= i < |ids| :: ids[i] != "multi-prefix"
  {
    var i := 0;
    while i < |ids|
      invariant 0 <= i <= |ids|
      invariant forall j | 0 <= j < i :: ids[j] in SERVER_CAPABILITIES
    {
      if ids[i] !in SERVER_CAPABILITIES {
        return false;
      }
      i := i + 1;
    }
    return true;
  }

  // ---------------------------------------------------------------------
  // JOIN and PART

  /** The part of the session and registry state a JOIN or PART loop changes: the channel table, the joined set, the writes so far. */
  datatype Progress = Progress(channels: map<ChannelName, ChannelInfo>, joined: set<ChannelName>, out: seq<Delivery>)

  /** The session's joined set agrees with the registry: joined exactly where subscribed. */
  ghost predicate Tracks(p: Progress, s: SessionId) {
    forall c :: c in p.joined <==> c in p.channels && s in p.channels[c].subscribers
  }

  /** The JOIN message a session sends for one channel. */
  function JoinMessage(me: Caller, name: ChannelName): Message {
    Message(me.mask, None, JoinCmd(name))
  }

  /**
   * One pass of the `doJoin` loop: skip a channel already joined; otherwise
   * join it, remember it, send JOIN to every subscriber (the joiner included),
   * then send the joiner the welcome as topic.
   */
  function JoinStep(p: Progress, me: Caller, name: ChannelName): (q: Progress)
    ensures name in p.joined ==> q == p
    ensures name !in p.joined ==> q.channels == Joined(p.channels, name, me.id, me.nick) && q.joined == p.joined + {name}
  {
    if name in p.joined then p
    else
      var chs := Joined(p.channels, name, me.id, me.nick);
      var info := chs[name];
      Progress(chs, p.joined + {name},
               p.out + Broadcast(info.subscribers, JoinMessage(me, name))
                     + [ReplyTo(me, REPLY_TOPIC, [name, info.welcome])])
  }

  /** The `doJoin` loop over a list of names. */
  function JoinAll(p: Progress, me: Caller, names: seq<ChannelName>): Progress {
    if names == [] then p else JoinStep(JoinAll(p, me, names[..|names| - 1]), me, names[|names| - 1])
  }

  /** Joining keeps the joined set in step with the registry, and leaves the session subscribed. */
  lemma JoinStepTracks(p: Progress, me: Caller, name: ChannelName)
    requires Tracks(p, me.id)
    ensures Tracks(JoinStep(p, me, name), me.id)
    ensures name in JoinStep(p, me, name).channels && me.id in JoinStep(p, me, name).channels[name].subscribers
    ensures JoinStep(p, me, name).joined == p.joined + {name}
    ensures JoinStep(p, me, name).channels.Keys == p.channels.Keys + {name}
  {
  }

  /**
   * A newcomer's JOIN goes to every subscriber, itself included, and the
   * writes end with the topic reply carrying the channel's welcome.
   */
  lemma JoinStepAnnounces(p: Progress, me: Caller, name: ChannelName)
    requires name !in p.joined
    ensures var q := JoinStep(p, me, name);
      && (forall s | s in q.channels[name].subscribers :: Delivery(s, JoinMessage(me, name)) in q.out[|p.out|..])
      && Delivery(me.id, JoinMessage(me, name)) in q.out[|p.out|..]
      && q.out[|q.out| - 1] == ReplyTo(me, REPLY_TOPIC, [name, q.channels[name].welcome])
      && q.out[..|p.out|] == p.out
  {
    var chs := Joined(p.channels, name, me.id, me.nick);
    var info := chs[name];
    var topic := ReplyTo(me, REPLY_TOPIC, [name, info.welcome]);
    assert JoinStep(p, me, name) == Progress(chs, p.joined + {name}, p.out + Broadcast(info.subscribers, JoinMessage(me, name)) + [topic]);
    BroadcastThen(p.out, info.subscribers, JoinMessage(me, name), topic);
  }

  /** Writes that broadcast `m` and then send `last` reach every listed session and end with `last`. */
  lemma BroadcastThen(out: seq<Delivery>, sessions: seq<SessionId>, m: Message, last: Delivery)
    ensures var all := out + Broadcast(sessions, m) + [last];
      && (forall s | s in sessions :: Delivery(s, m) in all[|out|..])
      && all[|all| - 1] == last
      && all[..|out|] == out
  {
    var b := Broadcast(sessions, m);
    var all := out + b + [last];
    assert all[|out|..] == b + [last];
    BroadcastReaches(sessions, m);
  }

  /**
   * After the `doJoin` loop the session is in every listed channel and
   * subscribed to each; the joined set grew by exactly the listed names, and
   * the agreement with the registry is kept.
   */
  lemma {:induction false} JoinAllJoins(p: Progress, me: Caller, names: seq<ChannelName>)
    requires Tracks(p, me.id)
    ensures var q := JoinAll(p, me, names);
      && Tracks(q, me.id)
      && q.joined == p.joined + Elements(names)
      && (forall i | 0 <= i < |names| :: names[i] in q.channels && me.id in q.channels[names[i]].subscribers)
      && q.channels.Keys == p.channels.Keys + Elements(names)
  {
    if names != [] {
      var init, last := names[..|names| - 1], names[|names| - 1];
      JoinAllJoins(p, me, init);
      var mid := JoinAll(p, me, init);
      var q := JoinStep(mid, me, last);
      assert JoinAll(p, me, names) == q;
      JoinStepTracks(mid, me, last);
      ElementsSnoc(names);
      TracksSubscribed(q, me.id, names);
    }
  }

  /** Where the joined set agrees with the registry, every listed joined channel lists the session. */
  lemma TracksSubscribed(q: Progress, s: SessionId, names: seq<ChannelName>)
    requires Tracks(q, s) && Elements(names) <= q.joined
    ensures forall i | 0 <= i < |names| :: names[i] in q.channels && s in q.channels[names[i]].subscribers
  {
    forall i | 0 <= i < |names| ensures names[i] in q.channels && s in q.channels[names[i]].subscribers {
      assert names[i] in Elements(names);
    }
  }

  /** A JOIN loop over channels the session is already in changes nothing and sends nothing. */
  lemma {:induction false} JoinAllJoined(p: Progress, me: Caller, names: seq<ChannelName>)
    requires Elements(names) <= p.joined
    ensures JoinAll(p, me, names) == p
  {
    if names != [] {
      assert names[|names| - 1] in Elements(names);
      assert Elements(names[..|names| - 1]) <= Elements(names);
      JoinAllJoined(p, me, names[..|names| - 1]);
    }
  }

  /** Joining the same list twice is joining it once. */
  lemma JoinAllTwice(p: Progress, me: Caller, names: seq<ChannelName>)
    requires Tracks(p, me.id)
    ensures JoinAll(JoinAll(p, me, names), me, names) == JoinAll(p, me, names)
  {
    JoinAllJoins(p, me, names);
    JoinAllJoined(JoinAll(p, me, names), me, names);
  }

  /** The PART message a session sends for one channel. */
  function PartMessage(me: Caller, name: ChannelName, text: Option<string>): Message {
    Message(me.mask, None, PartCmd(name, text))
  }

  /** The subscribers of a channel, none for a channel that does not exist (`getSessions(in:)`, optional-chained). */
  function SubscribersOf(channels: map<ChannelName, ChannelInfo>, name: ChannelName): seq<SessionId> {
    if name in channels then channels[name].subscribers else []
  }

  /**
   * One pass of the `doPart` loop: skip a channel not joined; otherwise send
   * PART to every subscriber (the parting session still among them), then
   * leave the channel and forget it.
   */
  function PartStep(p: Progress, me: Caller, text: Option<string>, name: ChannelName): (q: Progress)
    ensures name !in p.joined ==> q == p
    ensures name in p.joined ==> q.channels == Parted(p.channels, name, me.id) && q.joined == p.joined - {name}
  {
    if name !in p.joined then p
    else
      Progress(Parted(p.channels, name, me.id), p.joined - {name},
               p.out + Broadcast(SubscribersOf(p.channels, name), PartMessage(me, name, text)))
  }

  /** The `doPart` loop over a list of names. */
  function PartAll(p: Progress, me: Caller, text: Option<string>, names: seq<ChannelName>): Progress {
    if names == [] then p else PartStep(PartAll(p, me, text, names[..|names| - 1]), me, text, names[|names| - 1])
  }

  /** Parting keeps the joined set in step with the registry and every subscriber list duplicate-free. */
  lemma PartStepTracks(p: Progress, me: Caller, text: Option<string>, name: ChannelName)
    requires Tracks(p, me.id) && DistinctSubscribers(p.channels)
    ensures var q := PartStep(p, me, text, name);
      Tracks(q, me.id) && DistinctSubscribers(q.channels)
  {
    PartKeepsDistinct(p.channels, name, me.id);
  }

  /** The parting session is still subscribed when PART goes out, so it receives its own PART. */
  lemma PartStepEchoes(p: Progress, me: Caller, text: Option<string>, name: ChannelName)
    requires Tracks(p, me.id) && name in p.joined
    ensures Delivery(me.id, PartMessage(me, name, text)) in PartStep(p, me, text, name).out[|p.out|..]
  {
    var subs := SubscribersOf(p.channels, name);
    var i :| 0 <= i < |subs| && subs[i] == me.id;
    var b := Broadcast(subs, PartMessage(me, name, text));
    assert PartStep(p, me, text, name).out[|p.out|..] == b;
    assert b[i] == Delivery(me.id, PartMessage(me, name, text));
  }

  /**
   * After the `doPart` loop the listed channels are forgotten and the session
   * is subscribed to none of them; the other joined channels stay, and the
   * channel table keeps its names.
   */
  lemma {:induction false} PartAllLeaves(p: Progress, me: Caller, text: Option<string>, names: seq<ChannelName>)
    requires Tracks(p, me.id) && DistinctSubscribers(p.channels)
    ensures var q := PartAll(p, me, text, names);
      && Tracks(q, me.id) && DistinctSubscribers(q.channels)
      && q.joined == p.joined - Elements(names)
      && q.channels.Keys == p.channels.Keys
      && (forall n | n in Elements(names) && n in q.channels :: me.id !in q.channels[n].subscribers)
      && (forall n | n in p.channels && n !in Elements(names) :: q.channels[n] == p.channels[n])
  {
    if names != [] {
      var init := names[..|names| - 1];
      PartAllLeaves(p, me, text, init);
      PartStepTracks(PartAll(p, me, text, init), me, text, names[|names| - 1]);
      assert Elements(names) == Elements(init) + {names[|names| - 1]} by {
        assert names == init + [names[|names| - 1]];
      }
    }
  }

  /** The `doPart` loop forgets exactly the listed channels, whatever the registry holds. */
  lemma {:induction false} PartAllForgets(p: Progress, me: Caller, text: Option<string>, names: seq<ChannelName>)
    ensures PartAll(p, me, text, names).joined == p.joined - Elements(names)
    ensures PartAll(p, me, text, names).channels.Keys == p.channels.Keys
    ensures |PartAll(p, me, text, names).out| >= |p.out|
    ensures PartAll(p, me, text, names).out[..|p.out|] == p.out
  {
    if names != [] {
      var init := names[..|names| - 1];
      PartAllForgets(p, me, text, init);
      assert Elements(names) == Elements(init) + {names[|names| - 1]} by {
        assert names == init + [names[|names| - 1]];
      }
      var mid := PartAll(p, me, text, init);
      assert PartAll(p, me, text, names).out[..|mid.out|] == mid.out;
    }
  }

  /**
   * Parting distinct channels the session is in, in any order, unsubscribes
   * it from exactly those channels: the registry ends as PartChannels says.
   */
  lemma {:induction false} PartAllIsPartChannels(p: Progress, me: Caller, text: Option<string>, names: seq<ChannelName>)
    requires NoDuplicates(names) && Elements(names) <= p.joined
    ensures PartAll(p, me, text, names).channels == PartChannels(p.channels, Elements(names), me.id)
  {
    if names == [] {
      assert PartChannels(p.channels, {}, me.id) == p.channels;
    } else {
      var init, last := names[..|names| - 1], names[|names| - 1];
      assert names == init + [last];
      assert Elements(names) == Elements(init) + {last};
      assert last !in Elements(init);
      assert NoDuplicates(init);
      PartAllIsPartChannels(p, me, text, init);
      PartAllForgets(p, me, text, init);
      PartChannelsStep(p.channels, Elements(init), last, me.id);
    }
  }

  /** Joining a channel one was not in and parting it again leaves the channel table and the joined set as they were. */
  lemma JoinThenPartRestores(p: Progress, me: Caller, text: Option<string>, name: ChannelName)
    requires Tracks(p, me.id) && name in p.channels && name !in p.joined
    ensures var q := PartStep(JoinStep(p, me, name), me, text, name);
      q.channels == p.channels && q.joined == p.joined
  {
    JoinThenPart(p.channels, name, me.id, me.nick);
  }

  // ---------------------------------------------------------------------
  // PRIVMSG

  /** The PRIVMSG a session sends to one recipient. */
  function PrivMsg(me: Caller, r: Recipient, text: string): Message {
    Message(me.mask, None, PrivMsgCmd(r, text))
  }

  /**
   * One pass of the `doMessage` loop: "everything" and unknown names get an
   * error reply to the sender; a nick gets the message at its session; a
   * channel gets it at every subscriber except the sender.
   */
  function RouteOne(nicks: map<Nick, SessionId>, channels: map<ChannelName, ChannelInfo>, me: Caller, r: Recipient, text: string)
    : seq<Delivery>
  {
    match r
    case Everything => [ReplyTo(me, ERROR_NO_SUCH_NICK, ["*", "No such nick/channel"])]
    case ToNick(n) =>
      if n !in nicks then [ReplyTo(me, ERROR_NO_SUCH_NICK, [n, "No such nick/channel '" + n + "'"])]
      else [Delivery(nicks[n], PrivMsg(me, r, text))]
    case ToChannel(c) =>
      if c !in channels then [ReplyTo(me, ERROR_NO_SUCH_CHANNEL, [c, "No such channel '" + c + "'"])]
      else BroadcastExcept(channels[c].subscribers, me.id, PrivMsg(me, r, text))
  }

  /**
   * The writes for one recipient: an error reply to the sender for
   * "everything" and for unknown names, the message at the nick's session,
   * or the message at every subscriber of the channel except the sender.
   */
  lemma RouteOneShape(nicks: map<Nick, SessionId>, channels: map<ChannelName, ChannelInfo>, me: Caller, r: Recipient, text: string)
    ensures var ds := RouteOne(nicks, channels, me, r, text);
      && (r.Everything? ==> ds == [ReplyTo(me, ERROR_NO_SUCH_NICK, ["*", "No such nick/channel"])])
      && (r.ToNick? && r.nick !in nicks ==>
            ds == [ReplyTo(me, ERROR_NO_SUCH_NICK, [r.nick, "No such nick/channel '" + r.nick + "'"])])
      && (r.ToNick? && r.nick in nicks ==> ds == [Delivery(nicks[r.nick], PrivMsg(me, r, text))])
      && (r.ToChannel? && r.channel !in channels ==>
            ds == [ReplyTo(me, ERROR_NO_SUCH_CHANNEL, [r.channel, "No such channel '" + r.channel + "'"])])
      && (r.ToChannel? && r.channel in channels ==>
            && (forall d | d in ds :: d.message == PrivMsg(me, r, text) && d.to != me.id && d.to in channels[r.channel].subscribers)
            && (forall s | s in channels[r.channel].subscribers && s != me.id :: Delivery(s, PrivMsg(me, r, text)) in ds))
  {
  }

  /** The `doMessage` loop: the writes for each recipient, in the order listed. */
  function Route(nicks: map<Nick, SessionId>, channels: map<ChannelName, ChannelInfo>, me: Caller, rs: seq<Recipient>, text: string)
    : seq<Delivery>
  {
    if rs == [] then []
    else RouteOne(nicks, channels, me, rs[0], text) + Route(nicks, channels, me, rs[1..], text)
  }

  /** Routing a list is routing its parts one after the other: a failed recipient does not stop the rest. */
  lemma {:induction false} RouteAppend(nicks: map<Nick, SessionId>, channels: map<ChannelName, ChannelInfo>, me: Caller,
                                       a: seq<Recipient>, b: seq<Recipient>, text: string)
    ensures Route(nicks, channels, me, a + b, text) == Route(nicks, channels, me, a, text) + Route(nicks, channels, me, b, text)
  {
    if a == [] {
      assert a + b == b;
    } else {
      assert (a + b)[0] == a[0] && (a + b)[1..] == a[1..] + b;
      RouteAppend(nicks, channels, me, a[1..], b, text);
    }
  }

  /** Routing one more recipient appends its writes. */
  lemma RouteSnoc(nicks: map<Nick, SessionId>, channels: map<ChannelName, ChannelInfo>, me: Caller,
                  rs: seq<Recipient>, r: Recipient, text: string)
    ensures Route(nicks, channels, me, rs + [r], text) == Route(nicks, channels, me, rs, text) + RouteOne(nicks, channels, me, r, text)
  {
    RouteAppend(nicks, channels, me, rs, [r], text);
    assert [r][1..] == [];
  }

  /** The writes of the first `i` passes of the `doMessage` loop. */
  function RoutedUpTo(nicks: map<Nick, SessionId>, channels: map<ChannelName, ChannelInfo>, me: Caller,
                      rs: seq<Recipient>, i: nat, text: string): seq<Delivery>
    requires i <= |rs|
  {
    if i == 0 then [] else RoutedUpTo(nicks, channels, me, rs, i - 1, text) + RouteOne(nicks, channels, me, rs[i - 1], text)
  }

  /** The loop's running writes are the routing of the recipients seen so far. */
  lemma {:induction false} RoutedUpToRoute(nicks: map<Nick, SessionId>, channels: map<ChannelName, ChannelInfo>, me: Caller,
                                           rs: seq<Recipient>, i: nat, text: string)
    requires i <= |rs|
    ensures RoutedUpTo(nicks, channels, me, rs, i, text) == Route(nicks, channels, me, rs[..i], text)
  {
    if i > 0 {
      RoutedUpToRoute(nicks, channels, me, rs, i - 1, text);
      assert rs[..i] == rs[..i - 1] + [rs[i - 1]];
      RouteSnoc(nicks, channels, me, rs[..i - 1], rs[i - 1], text);
    }
  }

  /**
   * The sender never receives its own channel message: every delivery to the
   * sender is an error reply or a message to its own nick.
   */
  lemma {:induction false} RouteSkipsSender(nicks: map<Nick, SessionId>, channels: map<ChannelName, ChannelInfo>, me: Caller,
                                            rs: seq<Recipient>, text: string)
    ensures forall d | d in Route(nicks, channels, me, rs, text) && d.to == me.id ::
      d.message.command.Numeric? || (d.message.command.PrivMsgCmd? && d.message.command.to.ToNick?)
  {
    if rs != [] {
      RouteSkipsSender(nicks, channels, me, rs[1..], text);
      RouteOneShape(nicks, channels, me, rs[0], text);
    }
  }

  /** Every subscriber of a listed channel other than the sender receives the message. */
  lemma {:induction false} RouteReachesChannel(nicks: map<Nick, SessionId>, channels: map<ChannelName, ChannelInfo>, me: Caller,
                                               rs: seq<Recipient>, text: string, i: nat, s: SessionId)
    requires i < |rs| && rs[i].ToChannel? && rs[i].channel in channels
    requires s in channels[rs[i].channel].subscribers && s != me.id
    ensures Delivery(s, PrivMsg(me, rs[i], text)) in Route(nicks, channels, me, rs, text)
  {
    if i == 0 {
      RouteOneShape(nicks, channels, me, rs[0], text);
    } else {
      RouteReachesChannel(nicks, channels, me, rs[1..], text, i - 1, s);
    }
  }

  // ---------------------------------------------------------------------
  // LIST and WHOIS

  /** The LIST row of one channel: name, subscriber count, welcome text. */
  function ListRow(me: Caller, info: ChannelInfo): Delivery {
    ReplyTo(me, REPLY_LIST, [info.name, Decimal(|info.subscribers|), info.welcome])
  }

  /** The LIST rows of the listed infos, in order. */
  function ListRows(me: Caller, infos: seq<ChannelInfo>): (ds: seq<Delivery>)
    ensures |ds| == |infos|
    ensures forall i | 0 <= i < |infos| :: ds[i] == ListRow(me, infos[i])
  {
    if infos == [] then []
    else ListRows(me, infos[..|infos| - 1]) + [ListRow(me, infos[|infos| - 1])]
  }

  /** Each row names its channel, carries its welcome, and its count reads back as the number of subscribers. */
  lemma ListRowsCount(me: Caller, infos: seq<ChannelInfo>)
    ensures forall i | 0 <= i < |infos| ::
      && ListRows(me, infos)[i].message.command == Numeric(REPLY_LIST, ListRows(me, infos)[i].message.command.args)
      && |ListRows(me, infos)[i].message.command.args| == 3
      && ListRows(me, infos)[i].message.command.args[0] == infos[i].name
      && ListRows(me, infos)[i].message.command.args[2] == infos[i].welcome
      && DecimalValue(ListRows(me, infos)[i].message.command.args[1]) == |infos[i].subscribers|
  {
    forall i | 0 <= i < |infos|
      ensures DecimalValue(ListRows(me, infos)[i].message.command.args[1]) == |infos[i].subscribers|
    {
      DecimalRoundTrip(|infos[i].subscribers|);
    }
  }

  /** The whole LIST answer: the start reply, the rows, the end reply. */
  function Listing(me: Caller, infos: seq<ChannelInfo>): (ds: seq<Delivery>)
    ensures |ds| == |infos| + 2
    ensures ds[0] == ReplyTo(me, REPLY_LIST_START, ["Channel", "Users  Name"])
    ensures ds[|ds| - 1] == ReplyTo(me, REPLY_LIST_END, ["End of /LIST"])
    ensures ds[1..|ds| - 1] == ListRows(me, infos)
  {
    [ReplyTo(me, REPLY_LIST_START, ["Channel", "Users  Name"])] + ListRows(me, infos) + [ReplyTo(me, REPLY_LIST_END, ["End of /LIST"])]
  }

  /** When the infos name every channel, with each channel's own info, every channel gets its row. */
  lemma ListRowsCover(me: Caller, infos: seq<ChannelInfo>, channels: map<ChannelName, ChannelInfo>)
    requires forall i | 0 <= i < |infos| :: infos[i].name in channels && infos[i] == channels[infos[i].name]
    requires forall n | n in channels :: exists i | 0 <= i < |infos| :: infos[i].name == n
    ensures forall n | n in channels :: ListRow(me, channels[n]) in ListRows(me, infos)
  {
    forall n | n in channels ensures ListRow(me, channels[n]) in ListRows(me, infos) {
      var i :| 0 <= i < |infos| && infos[i].name == n;
      assert ListRows(me, infos)[i] == ListRow(me, channels[n]);
    }
  }

  /** The 311 reply for one WHOIS mask that names the caller. */
  function WhoIsUser(me: Caller, mask: string, info: UserInfo): Delivery {
    ReplyTo(me, REPLY_WHOIS_USER, [mask, "~" + info.username, me.target, "*", info.realname])
  }

  /** The 311 replies of the `doWhoIs` loop: one for each mask equal to the caller's own nick. */
  function WhoIsUsers(me: Caller, myNick: Nick, info: UserInfo, masks: seq<string>): (ds: seq<Delivery>)
    ensures |ds| <= |masks|
    ensures forall d | d in ds :: d == WhoIsUser(me, myNick, info)
    ensures ds != [] <==> myNick in masks
  {
    if masks == [] then []
    else
      var init := WhoIsUsers(me, myNick, info, masks[..|masks| - 1]);
      assert masks == masks[..|masks| - 1] + [masks[|masks| - 1]];
      init + (if masks[|masks| - 1] == myNick then [WhoIsUser(me, myNick, info)] else [])
  }

  /** One more mask adds its 311, if it names the caller, after the earlier ones. */
  lemma WhoIsUsersSnoc(me: Caller, myNick: Nick, info: UserInfo, masks: seq<string>, i: nat)
    requires i < |masks|
    ensures WhoIsUsers(me, myNick, info, masks[..i + 1])
         == WhoIsUsers(me, myNick, info, masks[..i]) + (if masks[i] == myNick then [WhoIsUser(me, myNick, info)] else [])
  {
    assert masks[..i + 1][..i] == masks[..i];
  }
}
