/**
 * One chat room: its welcome text, operators, ordered subscriber list and
 * mode. The registry owns every channel and mutates it under its lock.
 */
module Channels {
  import opened Types
  import opened Seqs

  /** The immutable snapshot `getInfo` hands out. */
  datatype ChannelInfo = ChannelInfo(
    name: ChannelName,
    welcome: string,
    operators: set<Nick>,
    subscribers: seq<SessionId>,
    mode: ChannelMode)

  const DEFAULT_MODE: ChannelMode := {NoOutsideClients, TopicOnlyByOperator}

  function DefaultWelcome(name: ChannelName): string {
    "Welcome to " + name + "!"
  }

  /** The snapshot of a channel just created with the given welcome text (if any). */
  function FreshInfo(name: ChannelName, welcome: Option<string>): ChannelInfo {
    ChannelInfo(name, welcome.GetOr(DefaultWelcome(name)), {}, [], DEFAULT_MODE)
  }

  /**
   * `index(where: { $0 === session })`: the position of the first
   * occurrence of `session`, if any.
   */
  method IndexOf(subscribers: seq<SessionId>, session: SessionId) returns (idx: Option<nat>)
    ensures idx.None? <==> session !in subscribers
    ensures idx.Some? ==> idx.value < |subscribers| && subscribers[idx.value] == session
                          && session !in subscribers[..idx.value]
  {
    var i := 0;
    while i < |subscribers|
      invariant 0 <= i <= |subscribers|
      invariant session !in subscribers[..i]
    {
      if subscribers[i] == session {
        return Some(i);
      }
      assert subscribers[..i + 1] == subscribers[..i] + [subscribers[i]];
      i := i + 1;
    }
    assert subscribers[..i] == subscribers;
    return None;
  }

  class Channel {
    const name: ChannelName
    var welcome: string
    var operators: set<Nick>
    var subscribers: seq<SessionId>
    var mode: ChannelMode

    /** The subscriber list holds each session at most once. */
    ghost predicate Valid()
      reads this
    {
      NoDuplicates(subscribers)
    }

    /** No subscribers, no operators, the default mode, and the default welcome unless one is given. */
    constructor (name: ChannelName, welcome: Option<string>)
      ensures Valid()
      ensures GetInfo() == FreshInfo(name, welcome)
      ensures operators == {} && subscribers == [] && mode == {NoOutsideClients, TopicOnlyByOperator}
    {
      this.name := name;
      this.welcome := welcome.GetOr(DefaultWelcome(name));
      operators := {};
      subscribers := [];
      mode := DEFAULT_MODE;
    }

    /** A snapshot of the current fields. */
    function GetInfo(): (info: ChannelInfo)
      reads this
      ensures info.name == name && info.welcome == welcome && info.operators == operators
      ensures info.subscribers == subscribers && info.mode == mode
    {
      ChannelInfo(name, welcome, operators, subscribers, mode)
    }

    /** Appends `session` unless it is already subscribed; answers whether it did. */
    method Join(session: SessionId) returns (added: bool)
      modifies this`subscribers
      ensures added <==> session !in old(subscribers)
      ensures subscribers == if added then old(subscribers) + [session] else old(subscribers)
      ensures old(Valid()) ==> Valid()
      ensures session in subscribers
    {
      var idx := IndexOf(subscribers, session);
      if idx.Some? {
        return false;
      }
      subscribers := subscribers + [session];
      return true;
    }

    /** Removes `session` if it is subscribed, keeping the others in order; answers whether it did. */
    method Part(session: SessionId) returns (removed: bool)
      modifies this`subscribers
      ensures removed <==> session in old(subscribers)
      ensures subscribers == Without(old(subscribers), session)
      ensures !removed ==> subscribers == old(subscribers)
      ensures old(Valid()) ==> Valid() && session !in subscribers
      ensures old(Valid()) ==> subscribers == Filtered(old(subscribers), session)
    {
      var idx := IndexOf(subscribers, session);
      if idx.None? {
        WithoutAbsent(subscribers, session);
        if Valid() {
          WithoutNoDuplicates(subscribers, session);
        }
        return false;
      }
      WithoutAt(subscribers, session, idx.value);
      if Valid() {
        WithoutNoDuplicates(subscribers, session);
      }
      subscribers := subscribers[..idx.value] + subscribers[idx.value + 1..];
      return true;
    }
  }
}
