/**
 * The server-wide registry: which session holds which nick, and which
 * channels exist. Every operation runs under one lock acquisition in the
 * server, so each is one atomic method here.
 *
 * The value-level functions (Register, Rename, Unregister, Joined, Parted,
 * ...) say what each operation does to the registry's contents; the class
 * methods are proved to do exactly that.
 */
module Registry {
  import opened Types
  import opened Seqs
  import opened Channels

  /** The snapshot `getServerInfo` returns. */
  datatype ServerInfo = ServerInfo(
    userCount: nat,
    invisibleCount: nat,
    serverCount: nat,
    operatorCount: nat,
    channelCount: nat)

  /** The nick table after an operation, and the error it threw (if any). */
  datatype NickResult = NickResult(nicks: map<Nick, SessionId>, error: Option<ServerError>)

  const DEFAULT_CHANNEL_NAMES: seq<ChannelName> := [
    "#NIO", "#SwiftDE", "#NozeIO", "#ZeeQL", "#ApacheExpress", "#PLSwift",
    "#SwiftXcode", "#mod_swift", "#ZeeZide"
  ]

  // ---------------------------------------------------------------------
  // Nick table

  /** `registerSession`: bind a free nick to the session, or fail with nicknameInUse. */
  function Register(nicks: map<Nick, SessionId>, nick: Nick, s: SessionId): (r: NickResult)
    ensures r.error.Some? <==> nick in nicks
    ensures r.error.Some? ==> r.error.value == NicknameInUse(nick) && r.nicks == nicks
    ensures r.error.None? ==> r.nicks.Keys == nicks.Keys + {nick} && r.nicks[nick] == s
    ensures forall n | n in nicks :: n in r.nicks && r.nicks[n] == nicks[n]
  {
    if nick in nicks then NickResult(nicks, Some(NicknameInUse(nick)))
    else NickResult(nicks[nick := s], None)
  }

  /**
   * `renameNick`: renaming to the same nick does nothing; otherwise a taken
   * target nick is reported first (even when the old nick is unknown), then
   * an unknown old nick; on success the session moves to the new nick.
   */
  function Rename(nicks: map<Nick, SessionId>, from: Nick, to: Nick): (r: NickResult)
    ensures from == to ==> r == NickResult(nicks, None)
    ensures from != to && to in nicks ==> r.error == Some(NicknameInUse(to))
    ensures from != to && to !in nicks && from !in nicks ==> r.error == Some(NoSuchNick(from))
    ensures from != to && to !in nicks && from in nicks ==> r.error.None?
    ensures r.error.Some? ==> r.nicks == nicks
    ensures from != to && r.error.None? ==>
      && from in nicks && to !in nicks
      && r.nicks.Keys == nicks.Keys - {from} + {to}
      && r.nicks[to] == nicks[from]
      && (forall n | n in nicks && n != from :: r.nicks[n] == nicks[n])
  {
    if from == to then NickResult(nicks, None)
    else if to in nicks then NickResult(nicks, Some(NicknameInUse(to)))
    else if from !in nicks then NickResult(nicks, Some(NoSuchNick(from)))
    else NickResult((nicks - {from})[to := nicks[from]], None)
  }

  /**
   * `unregisterSession`: an unknown nick fails with noSuchNick; a nick held by
   * another session is left alone without error; otherwise only that nick is
   * removed.
   */
  function Unregister(nicks: map<Nick, SessionId>, nick: Nick, s: SessionId): (r: NickResult)
    ensures r.error.Some? <==> nick !in nicks
    ensures r.error.Some? ==> r.error.value == NoSuchNick(nick)
    ensures nick in nicks && nicks[nick] != s ==> r.nicks == nicks
    ensures nick in nicks && nicks[nick] == s ==> r.nicks.Keys == nicks.Keys - {nick}
    ensures forall n | n in r.nicks :: n in nicks && r.nicks[n] == nicks[n]
    ensures forall n | n in nicks && n != nick :: n in r.nicks
  {
    if nick !in nicks then NickResult(nicks, Some(NoSuchNick(nick)))
    else if nicks[nick] != s then NickResult(nicks, None)
    else NickResult(nicks - {nick}, None)
  }

  /** No session holds two nicks. */
  predicate OneNickPerSession(nicks: map<Nick, SessionId>) {
    forall a, b | a in nicks && b in nicks && a != b :: nicks[a] != nicks[b]
  }

  /** Registering a session that holds no nick yet keeps one nick per session. */
  lemma RegisterKeepsOneNick(nicks: map<Nick, SessionId>, nick: Nick, s: SessionId)
    requires OneNickPerSession(nicks)
    requires forall n | n in nicks :: nicks[n] != s
    ensures OneNickPerSession(Register(nicks, nick, s).nicks)
  {
  }

  /** Renaming moves a binding, so it keeps one nick per session and the table's size. */
  lemma {:induction false} RenameKeepsOneNick(nicks: map<Nick, SessionId>, from: Nick, to: Nick)
    requires OneNickPerSession(nicks)
    ensures OneNickPerSession(Rename(nicks, from, to).nicks)
    ensures |Rename(nicks, from, to).nicks| == |nicks|
  {
    var r := Rename(nicks, from, to);
    if from != to && r.error.None? {
      assert r.nicks.Keys == nicks.Keys - {from} + {to};
      assert |nicks.Keys - {from}| == |nicks.Keys| - 1;
    }
  }

  /** After a successful unregistration of its own nick, the session holds no nick. */
  lemma UnregisterReleases(nicks: map<Nick, SessionId>, nick: Nick, s: SessionId)
    requires OneNickPerSession(nicks)
    requires nick in nicks && nicks[nick] == s
    ensures var r := Unregister(nicks, nick, s).nicks;
      OneNickPerSession(r) && forall n | n in r :: r[n] != s
  {
  }

  /** Unregistering twice is unregistering once (the second call only reports noSuchNick). */
  lemma UnregisterTwice(nicks: map<Nick, SessionId>, nick: Nick, s: SessionId)
    ensures var once := Unregister(nicks, nick, s).nicks;
      Unregister(once, nick, s).nicks == once
  {
  }

  /**
   * The server's user count moves by one on a successful registration and
   * down by one when a session releases its own nick; otherwise it stays put.
   */
  lemma {:induction false} UserCountMoves(nicks: map<Nick, SessionId>, nick: Nick, s: SessionId)
    ensures var r := Register(nicks, nick, s);
      |r.nicks| == if r.error.None? then |nicks| + 1 else |nicks|
    ensures var r := Unregister(nicks, nick, s);
      |r.nicks| == if r.error.None? && nicks[nick] == s then |nicks| - 1 else |nicks|
  {
    if nick !in nicks {
      assert Register(nicks, nick, s).nicks.Keys == nicks.Keys + {nick};
    } else if nicks[nick] == s {
      assert Unregister(nicks, nick, s).nicks.Keys == nicks.Keys - {nick};
    }
  }

  // ---------------------------------------------------------------------
  // Channel table

  /** Each channel is filed under its own name. */
  predicate NamedByKey(channels: map<ChannelName, ChannelInfo>) {
    forall n | n in channels :: channels[n].name == n
  }

  /** Every channel's subscriber list holds each session at most once. */
  predicate DistinctSubscribers(channels: map<ChannelName, ChannelInfo>) {
    forall n | n in channels :: NoDuplicates(channels[n].subscribers)
  }

  /** The channel `joinChannel` subscribes to: the existing one, or a fresh one whose only operator is the joiner's nick. */
  function JoinTarget(channels: map<ChannelName, ChannelInfo>, name: ChannelName, nick: Option<Nick>): ChannelInfo {
    if name in channels then channels[name]
    else FreshInfo(name, None).(operators := if nick.Some? then {nick.value} else {})
  }

  /**
   * `joinChannel`: create the channel if it does not exist (the joiner's nick,
   * if any, becoming its one operator), then subscribe the session unless it
   * already is.
   */
  function Joined(channels: map<ChannelName, ChannelInfo>, name: ChannelName, s: SessionId, nick: Option<Nick>)
    : (r: map<ChannelName, ChannelInfo>)
    ensures r.Keys == channels.Keys + {name}
    ensures forall n | n in channels && n != name :: r[n] == channels[n]
    ensures s in r[name].subscribers
    ensures name in channels ==> r[name] == channels[name].(subscribers := r[name].subscribers)
    ensures name !in channels ==>
      && r[name].subscribers == [s]
      && r[name].operators == (if nick.Some? then {nick.value} else {})
      && r[name].mode == DEFAULT_MODE
      && r[name].welcome == DefaultWelcome(name)
    ensures name in channels && s in channels[name].subscribers ==> r == channels
    ensures name in channels && s !in channels[name].subscribers ==>
      r[name].subscribers == channels[name].subscribers + [s]
  {
    Subscribed(WithChannel(channels, name, nick), name, s)
  }

  /** The table with the channel `joinChannel` subscribes to filed under `name`. */
  function WithChannel(channels: map<ChannelName, ChannelInfo>, name: ChannelName, nick: Option<Nick>): map<ChannelName, ChannelInfo> {
    channels[name := JoinTarget(channels, name, nick)]
  }

  /** The table with the session appended to the named channel's subscribers unless already there. */
  function Subscribed(channels: map<ChannelName, ChannelInfo>, name: ChannelName, s: SessionId): map<ChannelName, ChannelInfo>
    requires name in channels
  {
    var c := channels[name];
    channels[name := c.(subscribers := if s in c.subscribers then c.subscribers else c.subscribers + [s])]
  }

  /** `partChannel`: unsubscribe the session from an existing channel; never removes a channel. */
  function Parted(channels: map<ChannelName, ChannelInfo>, name: ChannelName, s: SessionId)
    : (r: map<ChannelName, ChannelInfo>)
    ensures r.Keys == channels.Keys
    ensures name !in channels ==> r == channels
    ensures forall n | n in channels && n != name :: r[n] == channels[n]
    ensures name in channels ==>
      r[name] == channels[name].(subscribers := Without(channels[name].subscribers, s))
  {
    if name !in channels then channels
    else channels[name := channels[name].(subscribers := Without(channels[name].subscribers, s))]
  }

  /** Joining keeps every subscriber list duplicate-free. */
  lemma JoinKeepsDistinct(channels: map<ChannelName, ChannelInfo>, name: ChannelName, s: SessionId, nick: Option<Nick>)
    requires DistinctSubscribers(channels)
    ensures DistinctSubscribers(Joined(channels, name, s, nick))
  {
    var r := Joined(channels, name, s, nick);
    if name in channels && s !in channels[name].subscribers {
      AppendNoDuplicates(channels[name].subscribers, s);
    }
  }

  /** Parting keeps every subscriber list duplicate-free, and the session is then gone from the channel. */
  lemma {:induction false} PartKeepsDistinct(channels: map<ChannelName, ChannelInfo>, name: ChannelName, s: SessionId)
    requires DistinctSubscribers(channels)
    ensures DistinctSubscribers(Parted(channels, name, s))
    ensures name in channels ==> s !in Parted(channels, name, s)[name].subscribers
  {
    if name in channels {
      WithoutNoDuplicates(channels[name].subscribers, s);
    }
  }

  /** Parting a channel just joined by a newcomer restores its subscriber list. */
  lemma {:induction false} JoinThenPart(channels: map<ChannelName, ChannelInfo>, name: ChannelName, s: SessionId, nick: Option<Nick>)
    requires name in channels && s !in channels[name].subscribers
    ensures Parted(Joined(channels, name, s, nick), name, s) == channels
  {
    WithoutAppended(channels[name].subscribers, s);
    var r := Parted(Joined(channels, name, s, nick), name, s);
    assert r[name] == channels[name];
  }

  /** Parting twice is parting once, when no session is listed twice. */
  lemma {:induction false} PartTwice(channels: map<ChannelName, ChannelInfo>, name: ChannelName, s: SessionId)
    requires DistinctSubscribers(channels)
    ensures var once := Parted(channels, name, s);
      Parted(once, name, s) == once
  {
    PartKeepsDistinct(channels, name, s);
    var once := Parted(channels, name, s);
    if name in once {
      WithoutAbsent(once[name].subscribers, s);
    }
  }

  /** The session unsubscribed from every channel of `names` (others untouched); what the teardown loop leaves. */
  function PartChannels(channels: map<ChannelName, ChannelInfo>, names: set<ChannelName>, s: SessionId)
    : map<ChannelName, ChannelInfo>
  {
    map n | n in channels :: if n in names then channels[n].(subscribers := Without(channels[n].subscribers, s)) else channels[n]
  }

  /** Parting one more channel extends the set of channels parted, whatever the order. */
  lemma PartChannelsStep(channels: map<ChannelName, ChannelInfo>, done: set<ChannelName>, name: ChannelName, s: SessionId)
    requires name !in done
    ensures Parted(PartChannels(channels, done, s), name, s) == PartChannels(channels, done + {name}, s)
  {
  }

  /** After parting a set of channels, the session is subscribed to none of them. */
  lemma {:induction false} PartChannelsLeaves(channels: map<ChannelName, ChannelInfo>, names: set<ChannelName>, s: SessionId)
    requires DistinctSubscribers(channels)
    ensures var r := PartChannels(channels, names, s);
      && r.Keys == channels.Keys
      && DistinctSubscribers(r)
      && forall n | n in names && n in r :: s !in r[n].subscribers
  {
    var r := PartChannels(channels, names, s);
    forall n | n in r
      ensures NoDuplicates(r[n].subscribers)
      ensures n in names ==> s !in r[n].subscribers
    {
      if n in names {
        WithoutNoDuplicates(channels[n].subscribers, s);
      }
    }
  }

  /** Tearing down twice is tearing down once: the second pass finds the session in none of the channels. */
  lemma PartChannelsTwice(channels: map<ChannelName, ChannelInfo>, names: set<ChannelName>, s: SessionId)
    requires DistinctSubscribers(channels)
    ensures var once := PartChannels(channels, names, s);
      PartChannels(once, names, s) == once
  {
    var once := PartChannels(channels, names, s);
    PartChannelsLeaves(channels, names, s);
    forall n | n in once && n in names
      ensures Without(once[n].subscribers, s) == once[n].subscribers
    {
      WithoutAbsent(once[n].subscribers, s);
    }
  }

  /** `registerDefaultChannels` over `names`: a fresh channel for each, a later name replacing an earlier one. */
  function DefaultChannels(names: seq<ChannelName>): map<ChannelName, ChannelInfo> {
    if names == [] then map[]
    else
      var last := names[|names| - 1];
      DefaultChannels(names[..|names| - 1])[last := FreshInfo(last, None)]
  }

  /** The default channels are exactly the listed names, each fresh with the default welcome. */
  lemma {:induction false} DefaultChannelsShape(names: seq<ChannelName>)
    ensures DefaultChannels(names).Keys == Elements(names)
    ensures forall n | n in DefaultChannels(names) :: DefaultChannels(names)[n] == FreshInfo(n, None)
  {
    if names != [] {
      var init := names[..|names| - 1];
      DefaultChannelsShape(init);
      assert names == init + [names[|names| - 1]];
    }
  }

  /** With no name listed twice there is one default channel per name. */
  lemma {:induction false} DefaultChannelsSize(names: seq<ChannelName>)
    requires NoDuplicates(names)
    ensures |DefaultChannels(names)| == |names|
  {
    if names != [] {
      var init := names[..|names| - 1];
      assert NoDuplicates(init);
      DefaultChannelsSize(init);
      DefaultChannelsShape(init);
      assert names[|names| - 1] !in Elements(init);
    }
  }

  /** The server starts with nine channels, named by their key, with empty subscriber lists. */
  lemma DefaultChannelCount()
    ensures |DefaultChannels(DEFAULT_CHANNEL_NAMES)| == 9
    ensures NamedByKey(DefaultChannels(DEFAULT_CHANNEL_NAMES))
    ensures DistinctSubscribers(DefaultChannels(DEFAULT_CHANNEL_NAMES))
    ensures forall n | n in DefaultChannels(DEFAULT_CHANNEL_NAMES) :: DefaultChannels(DEFAULT_CHANNEL_NAMES)[n].subscribers == []
  {
    assert NoDuplicates(DEFAULT_CHANNEL_NAMES);
    DefaultChannelsSize(DEFAULT_CHANNEL_NAMES);
    DefaultChannelsShape(DEFAULT_CHANNEL_NAMES);
  }

  /** Filing one more default channel on top of a table. */
  lemma OverlayStep(base: map<ChannelName, ChannelInfo>, names: seq<ChannelName>, i: nat)
    requires i < |names|
    ensures (base + DefaultChannels(names[..i]))[names[i] := FreshInfo(names[i], None)]
         == base + DefaultChannels(names[..i + 1])
  {
    assert names[..i + 1][..i] == names[..i];
  }

  /** `getChannelInfos(names)`: the infos of the listed names that exist, in the order listed. */
  function KnownInfos(channels: map<ChannelName, ChannelInfo>, names: seq<ChannelName>): (r: seq<ChannelInfo>)
    ensures |r| <= |names|
    ensures forall i | 0 <= i < |r| :: r[i] in channels.Values
  {
    if names == [] then []
    else
      var last := names[|names| - 1];
      KnownInfos(channels, names[..|names| - 1]) + (if last in channels then [channels[last]] else [])
  }

  /** Listing two runs of names one after the other lists each run's infos one after the other. */
  lemma {:induction false} KnownInfosAppend(channels: map<ChannelName, ChannelInfo>, a: seq<ChannelName>, b: seq<ChannelName>)
    ensures KnownInfos(channels, a + b) == KnownInfos(channels, a) + KnownInfos(channels, b)
  {
    if b != [] {
      var init := b[..|b| - 1];
      KnownInfosAppend(channels, a, init);
      assert (a + b)[..|a + b| - 1] == a + init;
    } else {
      assert a + b == a;
    }
  }

  /** When every listed name exists, there is one info per name, in order. */
  lemma {:induction false} KnownInfosAll(channels: map<ChannelName, ChannelInfo>, names: seq<ChannelName>)
    requires forall i | 0 <= i < |names| :: names[i] in channels
    ensures |KnownInfos(channels, names)| == |names|
    ensures forall i | 0 <= i < |names| :: KnownInfos(channels, names)[i] == channels[names[i]]
  {
    if names != [] {
      KnownInfosAll(channels, names[..|names| - 1]);
    }
  }

  /** Listing every name once lists every channel once. */
  lemma KnownInfosEvery(channels: map<ChannelName, ChannelInfo>, names: seq<ChannelName>)
    requires NamedByKey(channels) && NoDuplicates(names)
    requires |names| == |channels| && forall n :: n in names <==> n in channels
    ensures var r := KnownInfos(channels, names);
      && |r| == |channels|
      && (forall i | 0 <= i < |r| :: r[i].name in channels && r[i] == channels[r[i].name])
      && (forall n | n in channels :: exists i | 0 <= i < |r| :: r[i].name == n)
  {
    var r := KnownInfos(channels, names);
    KnownInfosAll(channels, names);
    forall n | n in channels ensures exists i | 0 <= i < |r| :: r[i].name == n {
      var k :| 0 <= k < |names| && names[k] == n;
      assert r[k].name == n;
    }
  }

  /**
   * In a table keyed by channel name, a channel's info is in the result
   * exactly when its name was requested, and every info in the result is the
   * current info of a requested, existing channel.
   */
  lemma {:induction false} KnownInfosExactly(channels: map<ChannelName, ChannelInfo>, names: seq<ChannelName>)
    requires NamedByKey(channels)
    ensures forall n | n in channels :: channels[n] in KnownInfos(channels, names) <==> n in names
    ensures forall info | info in KnownInfos(channels, names) ::
      info.name in names && info.name in channels && info == channels[info.name]
  {
    if names != [] {
      var init, last := names[..|names| - 1], names[|names| - 1];
      KnownInfosExactly(channels, init);
      assert names == init + [last];
      assert forall n :: n in names <==> n in init || n == last;
    }
  }

  /** Only names that exist contribute: with none known the list is empty. */
  lemma {:induction false} KnownInfosNone(channels: map<ChannelName, ChannelInfo>, names: seq<ChannelName>)
    requires forall i | 0 <= i < |names| :: names[i] !in channels
    ensures KnownInfos(channels, names) == []
  {
    if names != [] {
      KnownInfosNone(channels, names[..|names| - 1]);
    }
  }

  // ---------------------------------------------------------------------
  // The registry object

  class ServerContext {
    const origin: string
    var nickToSession: map<Nick, SessionId>
    var nameToChannel: map<ChannelName, Channel>
    /** The channel table as values: each channel's current info, under its name. */
    ghost var channels: map<ChannelName, ChannelInfo>
    ghost var Repr: set<object>

    /** Every channel is owned here, filed under its own name, well formed, and described by `channels`. */
    ghost predicate Valid()
      reads this, Repr
    {
      && this in Repr
      && channels.Keys == nameToChannel.Keys
      && forall n | n in nameToChannel :: nameToChannel[n] in Repr && Files(nameToChannel[n], n, channels[n])
    }

    /** `c` is the valid channel object named `n` whose fields are `info`. */
    static ghost predicate Files(c: Channel, n: ChannelName, info: ChannelInfo)
      reads c
    {
      c.name == n && c.Valid() && c.GetInfo() == info
    }

    /** In a valid registry every channel is filed under its name and lists each subscriber once. */
    lemma ChannelsWellFormed()
      requires Valid()
      ensures NamedByKey(channels) && DistinctSubscribers(channels)
    {
    }

    /** A server with no nicks and the nine default channels. */
    constructor (origin: string)
      ensures Valid() && fresh(Repr)
      ensures this.origin == origin && nickToSession == map[]
      ensures channels == DefaultChannels(DEFAULT_CHANNEL_NAMES)
    {
      this.origin := origin;
      nickToSession := map[];
      nameToChannel := map[];
      channels := map[];
      Repr := {this};
      new;
      RegisterDefaultChannels();
      assert channels == DefaultChannels(DEFAULT_CHANNEL_NAMES);
    }

    /** A new registry reports no users, one server, one operator and the nine default channels. */
    lemma InitialServerInfo()
      requires Valid() && nickToSession == map[] && channels == DefaultChannels(DEFAULT_CHANNEL_NAMES)
      ensures GetServerInfo() == ServerInfo(0, 0, 1, 1, 9)
    {
      DefaultChannelCount();
      assert nameToChannel.Keys == channels.Keys;
    }

    /** Files a fresh channel under each default name, replacing any channel of that name. */
    method RegisterDefaultChannels()
      requires Valid()
      modifies this`nameToChannel, this`channels, this`Repr
      ensures Valid() && fresh(Repr - old(Repr))
      ensures channels == old(channels) + DefaultChannels(DEFAULT_CHANNEL_NAMES)
    {
      var names := DEFAULT_CHANNEL_NAMES;
      var i := 0;
      while i < |names|
        invariant 0 <= i <= |names|
        invariant Valid() && fresh(Repr - old(Repr))
        invariant channels == old(channels) + DefaultChannels(names[..i])
      {
        FileFreshChannel(names[i]);
        OverlayStep(old(channels), names, i);
        i := i + 1;
      }
      assert names[..i] == names;
    }

    /** Files a fresh channel with the default welcome under `name`. */
    method FileFreshChannel(name: ChannelName)
      requires Valid()
      modifies this`nameToChannel, this`channels, this`Repr
      ensures Valid() && fresh(Repr - old(Repr))
      ensures channels == old(channels)[name := FreshInfo(name, None)]
    {
      var channel := new Channel(name, None);
      FileChannel(channel);
    }

    /** Files a channel object that is not yet part of the registry under its name. */
    method FileChannel(channel: Channel)
      requires Valid() && channel !in Repr && channel.Valid()
      modifies this`nameToChannel, this`channels, this`Repr
      ensures Valid() && Repr == old(Repr) + {channel}
      ensures nameToChannel == old(nameToChannel)[channel.name := channel]
      ensures channels == old(channels)[channel.name := channel.GetInfo()]
    {
      nameToChannel := nameToChannel[channel.name := channel];
      channels := channels[channel.name := channel.GetInfo()];
      Repr := Repr + {channel};
    }

    /** `getServerInfo`: one server, one operator, no invisible users, and the sizes of the two tables. */
    function GetServerInfo(): (info: ServerInfo)
      reads this
      ensures info.userCount == |nickToSession| && info.channelCount == |nameToChannel|
      ensures info.invisibleCount == 0 && info.serverCount == 1 && info.operatorCount == 1
    {
      ServerInfo(|nickToSession|, 0, 1, 1, |nameToChannel|)
    }

    /** `getSessions`: every session that holds a nick, one entry per nick, in no particular order. */
    method GetSessions() returns (sessions: seq<SessionId>)
      ensures |sessions| == |nickToSession|
      ensures forall s :: s in sessions <==> s in nickToSession.Values
    {
      var table := nickToSession;
      var nicks := SetToSeq(table.Keys);
      sessions := seq(|nicks|, i requires 0 <= i < |nicks| => table[nicks[i]]);
      forall s | s in table.Values ensures s in sessions {
        var n :| n in table && table[n] == s;
        var i :| 0 <= i < |nicks| && nicks[i] == n;
        assert sessions[i] == s;
      }
    }

    /** `getSessions(in:)`: the subscribers of the named channel, or nothing when there is no such channel. */
    function GetSessionsIn(name: ChannelName): (r: Option<seq<SessionId>>)
      requires Valid()
      reads this, Repr
      ensures r.None? <==> name !in channels
      ensures r.Some? ==> r.value == channels[name].subscribers && NoDuplicates(r.value)
    {
      if name in nameToChannel then Some(nameToChannel[name].subscribers) else None
    }

    /** `getSession(of:)`: the session holding `nick`, if any. */
    function GetSession(nick: Nick): (r: Option<SessionId>)
      reads this
      ensures r.None? <==> nick !in nickToSession
      ensures r.Some? ==> nick in nickToSession && nickToSession[nick] == r.value
    {
      if nick in nickToSession then Some(nickToSession[nick]) else None
    }

    /** `getNicksOnline`: every registered nick once, in no particular order. */
    method GetNicksOnline() returns (nicks: seq<Nick>)
      ensures NoDuplicates(nicks)
      ensures forall n :: n in nicks <==> n in nickToSession
    {
      nicks := SetToSeq(nickToSession.Keys);
    }

    /** `getChannelMode`: the named channel's mode, or nothing when there is no such channel. */
    function GetChannelMode(name: ChannelName): (r: Option<ChannelMode>)
      requires Valid()
      reads this, Repr
      ensures r.None? <==> name !in channels
      ensures r.Some? ==> r.value == channels[name].mode
    {
      if name in nameToChannel then Some(nameToChannel[name].mode) else None
    }

    /**
     * `getChannelInfos`: for a list of names, the infos of those that exist,
     * in the order listed; without a list, every channel's info once, in no
     * particular order.
     */
    method GetChannelInfos(names: Option<seq<ChannelName>>) returns (infos: seq<ChannelInfo>)
      requires Valid()
      ensures names.Some? ==> infos == KnownInfos(channels, names.value)
      ensures names.None? ==> |infos| == |channels|
      ensures names.None? ==> forall i | 0 <= i < |infos| :: infos[i].name in channels && infos[i] == channels[infos[i].name]
      ensures names.None? ==> forall n | n in channels :: exists i | 0 <= i < |infos| :: infos[i].name == n
    {
      var list: seq<ChannelName>;
      if names.Some? {
        list := names.value;
      } else {
        list := SetToSeq(nameToChannel.Keys);
      }
      infos := InfosOf(list);
      if names.None? {
        ChannelsWellFormed();
        KnownInfosEvery(channels, list);
      }
    }

    /** The infos of the listed names that exist, in the order listed (the `compactMap` of `getChannelInfos`). */
    method InfosOf(list: seq<ChannelName>) returns (infos: seq<ChannelInfo>)
      requires Valid()
      ensures infos == KnownInfos(channels, list)
    {
      infos := [];
      var i := 0;
      while i < |list|
        invariant 0 <= i <= |list|
        invariant infos == KnownInfos(channels, list[..i])
      {
        assert list[..i + 1][..i] == list[..i];
        if list[i] in nameToChannel {
          infos := infos + [nameToChannel[list[i]].GetInfo()];
        }
        i := i + 1;
      }
      assert list[..i] == list;
    }

    /**
     * `joinChannel`: subscribe the session to the named channel, creating the
     * channel first (with the joiner's nick as its operator) if it does not
     * exist; answers the channel's info after the join.
     */
    method JoinChannel(name: ChannelName, s: SessionId, nick: Option<Nick>) returns (info: ChannelInfo)
      requires Valid()
      modifies this`nameToChannel, this`channels, this`Repr, Repr
      ensures Valid() && fresh(Repr - old(Repr))
      ensures nickToSession == old(nickToSession)
      ensures channels == Joined(old(channels), name, s, nick)
      ensures info == channels[name]
    {
      var channel := ChannelFor(name, nick);
      Subscribe(channel, s);
      info := channel.GetInfo();
    }

    /** The channel filed under `name`, created (with `nick` as its operator) when there is none. */
    method ChannelFor(name: ChannelName, nick: Option<Nick>) returns (channel: Channel)
      requires Valid()
      modifies this`nameToChannel, this`channels, this`Repr
      ensures Valid() && fresh(Repr - old(Repr))
      ensures nickToSession == old(nickToSession)
      ensures name in nameToChannel && channel == nameToChannel[name]
      ensures channels == WithChannel(old(channels), name, nick)
    {
      if name in nameToChannel {
        channel := nameToChannel[name];
        assert channels == channels[name := channels[name]];
        return;
      }
      channel := new Channel(name, None);
      if nick.Some? {
        channel.operators := channel.operators + {nick.value};
      }
      assert channel.GetInfo() == JoinTarget(channels, name, nick);
      FileChannel(channel);
    }

    /** Subscribes the session to `channel` unless it already is (the `join` inside `joinChannel`). */
    method Subscribe(channel: Channel, s: SessionId)
      requires Valid() && channel.name in nameToChannel && channel == nameToChannel[channel.name]
      modifies this`channels, channel`subscribers
      ensures Valid()
      ensures nickToSession == old(nickToSession) && nameToChannel == old(nameToChannel)
      ensures channels == Subscribed(old(channels), channel.name, s)
    {
      var name := channel.name;
      var before := channels[name];
      assert Files(channel, name, before);
      var _ := channel.Join(s);
      var after := channel.GetInfo();
      assert after == before.(subscribers := if s in before.subscribers then before.subscribers else before.subscribers + [s]);
      channels := channels[name := after];
    }

    /** `partChannel`: unsubscribe the session from the named channel, if there is one. */
    method PartChannel(name: ChannelName, s: SessionId)
      requires Valid()
      modifies this`channels, Repr
      ensures Valid() && Repr == old(Repr)
      ensures nickToSession == old(nickToSession) && nameToChannel == old(nameToChannel)
      ensures channels == Parted(old(channels), name, s)
    {
      if name !in nameToChannel {
        return;
      }
      var channel := nameToChannel[name];
      var before := channels[name];
      assert Files(channel, name, before);
      var _ := channel.Part(s);
      var after := channel.GetInfo();
      assert after == before.(subscribers := Without(before.subscribers, s));
      channels := channels[name := after];
    }

    /** `renameNick`, as Rename says. */
    method RenameNick(from: Nick, to: Nick) returns (error: Option<ServerError>)
      modifies this`nickToSession
      ensures NickResult(nickToSession, error) == Rename(old(nickToSession), from, to)
    {
      if from == to {
        return None;
      }
      if to in nickToSession {
        return Some(NicknameInUse(to));
      }
      if from !in nickToSession {
        return Some(NoSuchNick(from));
      }
      var s := nickToSession[from];
      nickToSession := nickToSession - {from};
      nickToSession := nickToSession[to := s];
      return None;
    }

    /** `registerSession`, as Register says. */
    method RegisterSession(s: SessionId, nick: Nick) returns (error: Option<ServerError>)
      modifies this`nickToSession
      ensures NickResult(nickToSession, error) == Register(old(nickToSession), nick, s)
    {
      if nick in nickToSession {
        return Some(NicknameInUse(nick));
      }
      nickToSession := nickToSession[nick := s];
      return None;
    }

    /** `unregisterSession`, as Unregister says. */
    method UnregisterSession(s: SessionId, nick: Nick) returns (error: Option<ServerError>)
      modifies this`nickToSession
      ensures NickResult(nickToSession, error) == Unregister(old(nickToSession), nick, s)
    {
      if nick !in nickToSession {
        return Some(NoSuchNick(nick));
      }
      if nickToSession[nick] != s {
        return None;
      }
      nickToSession := nickToSession - {nick};
      return None;
    }
  }
}
