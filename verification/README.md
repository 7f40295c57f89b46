# swift-nio-irc-server core, modelled in Dafny

This project models the state-keeping and command-handling core of
swift-nio-irc-server, an IRC server built on SwiftNIO. It covers these parts:

- **The server context** (`IRCServerContext`). This is the registry of nicknames
  (nick → session) and channels (name → `IRCChannel`). It also creates the
  default channels and hands out snapshots.
- **The channel object** (`IRCChannel`). It holds a welcome text, operators,
  an ordered subscriber list and a mode. Sessions join and part it in place.
- **The session** (`IRCSessionHandler`). Its registration state machine moves
  from initial, through nick-assigned or user-set, to registered. Setting the
  state sends the welcome burst exactly when the session becomes registered.
  The session also owns the user id and reply target, turns server and parser
  errors into numeric replies, and runs the teardown when the connection
  closes.
- **The command dispatcher** (`IRCSessionDispatcher`). It handles PING, NICK,
  USER, MODE (user and channel), ban-mask queries, CAP, WHOIS, JOIN, PART,
  `JOIN 0`, PRIVMSG, ISON and LIST.
- **Reply helpers and error texts.** These are `IRCServerMessageTarget`
  (`sendError`, `sendReply`, `sendMotD`) and `IRCServerError` (the numeric
  code → text table).

## Modelling choices

- A session is identified by a `SessionId` (a natural number). It stands for
  the object identity that the Swift code compares with `===`.
- Everything a session sends goes to `sent`, an ordered log of deliveries.
  Each delivery is a recipient session id plus a message. This log includes
  what it sends to other sessions in a channel or to a PRIVMSG target. The
  commands' effects are stated as "`sent` grows by exactly this sequence".
- The registry's channel objects are mirrored in a ghost map `channels` of
  channel snapshots. `Valid()` keeps this map equal to the objects. The
  registry operations are specified by pure functions on the maps: `Register`,
  `Rename`, `Unregister`, `Joined` and `Parted`.
- JOIN, PART and PRIVMSG are loops over the requested names. They are proved
  against left or right folds (`JoinAll`, `PartAll`, `Route`). The lemmas say
  what these folds do: which channels the session ends up in, who hears the
  announcement, that nobody receives their own channel message, and that joining
  twice is the same as joining once.
- Numeric replies carry the code values of NIOIRC's `IRCCommandCode`, e.g.
  221 RPL_UMODEIS, 332 RPL_TOPIC, 433 ERR_NICKNAMEINUSE, 451
  ERR_NOTREGISTERED and 479 ERR_ILLEGALCHANNELNAME.
- Nicknames and channel names are strings. User and channel modes are sets
  of flags.

## Model

| member | source | states |
|---|---|---|
| Channels.IndexOf | Sources/IRCServer/IRCChannel.swift:75-76 | Finds the first position holding the session. It answers none exactly when the session is absent. |
| Channels.Channel.constructor | Sources/IRCServer/IRCChannel.swift:37-51 | A new channel has no operators and no subscribers, the mode {noOutsideClients, topicOnlyByOperator}, and the welcome "Welcome to <name>!" unless one is given. |
| Channels.Channel.GetInfo | Sources/IRCServer/IRCChannel.swift:57-63 | The snapshot carries exactly the channel's current name, welcome, operators, subscribers and mode. |
| Channels.Channel.Join | Sources/IRCServer/IRCChannel.swift:65-72 | Appends the session iff it was not subscribed, answers whether it did, and keeps the list duplicate-free. |
| Channels.Channel.Part | Sources/IRCServer/IRCChannel.swift:74-81 | Removes the session iff it was subscribed, keeps the others in order, and leaves the session absent. |
| Registry.Register | Sources/IRCServer/IRCServerContext.swift:177-184 | Fails with nicknameInUse iff the nick is taken, changing nothing. Otherwise it adds exactly nick → session and keeps every other entry. |
| Registry.Rename | Sources/IRCServer/IRCServerContext.swift:162-175 | A same-name rename succeeds with no change. A taken target gives nicknameInUse and an unknown source gives noSuchNick, both changing nothing. A rename from a held nick to a free one always succeeds, and the entry moves from the old nick to the new one. |
| Registry.Unregister | Sources/IRCServer/IRCServerContext.swift:186-199 | Fails with noSuchNick iff the nick is unknown. The entry is removed only when it belongs to this session, and no other entry changes. |
| Registry.RegisterKeepsOneNick | Sources/IRCServer/IRCServerContext.swift:177-184 | Registering a session that holds no nick keeps at most one nick per session. |
| Registry.RenameKeepsOneNick | Sources/IRCServer/IRCServerContext.swift:162-175 | A rename keeps at most one nick per session and keeps the number of users. |
| Registry.UnregisterReleases | Sources/IRCServer/IRCServerContext.swift:186-199 | After a session unregisters its own nick, that nick is free and the session holds no nick. |
| Registry.UnregisterTwice | Sources/IRCServer/IRCServerContext.swift:186-199 | Unregistering twice is the same as unregistering once. |
| Registry.UserCountMoves | Sources/IRCServer/IRCServerContext.swift:177-199 | A successful register adds one user and a successful unregister removes one. This is the userCount of getServerInfo. |
| Registry.Joined | Sources/IRCServer/IRCServerContext.swift:126-151 | Creates the channel with defaults if missing and subscribes the session once. No other channel changes, and a session already present changes nothing. |
| Registry.JoinTarget | Sources/IRCServer/IRCServerContext.swift:133-146 | Defines the channel a JOIN lands in: the existing one, or a fresh one whose single operator is the joiner's nick (used by Joined and ChannelFor). |
| Registry.Parted | Sources/IRCServer/IRCServerContext.swift:153-157 | Removes the session from the named channel only. An unknown channel changes nothing, and the channels stay the same set of names. |
| Registry.JoinKeepsDistinct | Sources/IRCServer/IRCServerContext.swift:126-151 | Joining keeps every subscriber list duplicate-free. |
| Registry.PartKeepsDistinct | Sources/IRCServer/IRCServerContext.swift:153-157 | Parting keeps subscriber lists duplicate-free and leaves the session out of the channel. |
| Registry.JoinThenPart | Sources/IRCServer/IRCServerContext.swift:126-157 | Joining an existing channel the session was not in, then parting it, restores the channel map. |
| Registry.PartTwice | Sources/IRCServer/IRCServerContext.swift:153-157 | Parting twice is the same as parting once. |
| Registry.PartChannelsStep | Sources/IRCServer/IRCSessionHandler.swift:138-140 | Parting one more channel extends the teardown's set of parted channels by that name. |
| Registry.PartChannelsLeaves | Sources/IRCServer/IRCSessionHandler.swift:138-140 | After parting a set of channels, the session is in none of them and subscriber lists stay duplicate-free. |
| Registry.PartChannels | Sources/IRCServer/IRCSessionHandler.swift:138-140 | Defines what the teardown loop leaves: the session removed from each parted channel, all other channels as they were (properties in PartChannelsStep, PartChannelsLeaves, PartChannelsTwice). |
| Registry.PartChannelsTwice | Sources/IRCServer/IRCSessionHandler.swift:138-140 | Running the teardown's parting twice leaves the registry as running it once. |
| Registry.DefaultChannelsShape | Sources/IRCServer/IRCServerContext.swift:56-70 | The default channels are exactly the listed names, each with a fresh default snapshot. |
| Registry.DefaultChannels | Sources/IRCServer/IRCServerContext.swift:56-70 | Defines the registered defaults as the listed names filed one after the other, a later name replacing an earlier one (properties in DefaultChannelsShape and DefaultChannelsSize). |
| Registry.DefaultChannelsSize | Sources/IRCServer/IRCServerContext.swift:56-70 | Distinct default names give one channel each. |
| Registry.DefaultChannelCount | Sources/IRCServer/IRCServerContext.swift:56-70 | The nine built-in channels are created, keyed by their own names, each empty. |
| Registry.OverlayStep | Sources/IRCServer/IRCServerContext.swift:64-69 | Filing one more default channel extends the overlay of defaults by that name. |
| Registry.KnownInfos | Sources/IRCServer/IRCServerContext.swift:112-119 | Looking up a list of names keeps only existing channels, each one's snapshot, and never more than requested. |
| Registry.KnownInfosAppend | Sources/IRCServer/IRCServerContext.swift:112-119 | The lookup of a concatenation is the concatenation of the lookups. |
| Registry.KnownInfosAll | Sources/IRCServer/IRCServerContext.swift:112-119 | When every name exists, the result lists their snapshots in request order. |
| Registry.KnownInfosEvery | Sources/IRCServer/IRCServerContext.swift:112-119 | When the list names every channel once (the no-argument case), every channel's snapshot appears exactly once and nothing else does. |
| Registry.KnownInfosExactly | Sources/IRCServer/IRCServerContext.swift:112-119 | For any list of names, a channel's snapshot is in the result iff its name was requested, and every snapshot in the result is the current one of a requested, existing channel. |
| Registry.KnownInfosNone | Sources/IRCServer/IRCServerContext.swift:112-119 | When no requested name exists, the result is empty. |
| Registry.ServerContext.ChannelsWellFormed | Sources/IRCServer/IRCServerContext.swift:35-36 | Every channel is filed under its own name, and its subscriber list is duplicate-free. |
| Registry.ServerContext.constructor | Sources/IRCServer/IRCServerContext.swift:49-54 | A new context has no nicks and exactly the nine default channels. |
| Registry.ServerContext.InitialServerInfo | Sources/IRCServer/IRCServerContext.swift:72-80 | With no nicks and the nine default channels, the server info reports 0 users, 0 invisible, 1 server, 1 operator and 9 channels. |
| Registry.ServerContext.RegisterDefaultChannels | Sources/IRCServer/IRCServerContext.swift:56-70 | Overlays the default channels on the existing ones, each with a fresh snapshot. |
| Registry.ServerContext.FileFreshChannel | Sources/IRCServer/IRCServerContext.swift:68 | Files a new default channel under its name. |
| Registry.ServerContext.GetServerInfo | Sources/IRCServer/IRCServerContext.swift:72-80 | The user count is the number of nicks and the channel count the number of channels. The invisible, server and operator counts are fixed at 0, 1 and 1. |
| Registry.ServerContext.GetSessions | Sources/IRCServer/IRCServerContext.swift:82-85 | Lists exactly the registered sessions, one per nick. |
| Registry.ServerContext.GetSessionsIn | Sources/IRCServer/IRCServerContext.swift:87-91 | Gives none iff the channel is unknown. Otherwise it gives the channel's subscriber list, which is duplicate-free. |
| Registry.ServerContext.GetSession | Sources/IRCServer/IRCServerContext.swift:92-95 | Gives none iff the nick is unknown, otherwise the session it maps to. |
| Registry.ServerContext.GetNicksOnline | Sources/IRCServer/IRCServerContext.swift:97-100 | Lists exactly the registered nicks, without duplicates. |
| Registry.ServerContext.GetChannelMode | Sources/IRCServer/IRCServerContext.swift:104-107 | Gives none iff the channel is unknown, otherwise its mode. |
| Registry.ServerContext.GetChannelInfos | Sources/IRCServer/IRCServerContext.swift:109-124 | For a name list, gives the known channels' snapshots in request order. For no list, gives every channel's snapshot exactly once. |
| Registry.ServerContext.InfosOf | Sources/IRCServer/IRCServerContext.swift:112-119 | The lookup loop yields exactly the known channels' snapshots in order. |
| Registry.ServerContext.JoinChannel | Sources/IRCServer/IRCServerContext.swift:126-151 | The channel map becomes Joined(old, name, session), the nicks are untouched, and the returned snapshot is the channel's new state. |
| Registry.ServerContext.ChannelFor | Sources/IRCServer/IRCServerContext.swift:131-145 | Finds the channel or creates and files a default one, leaving the session subscriptions unchanged. |
| Registry.ServerContext.FileChannel | Sources/IRCServer/IRCServerContext.swift:137-138 | Filing a channel object not yet in the registry records it under its own name and keeps every other channel and the registry invariant. |
| Registry.ServerContext.Subscribe | Sources/IRCServer/IRCServerContext.swift:147 | Subscribes the session to the found channel once. |
| Registry.ServerContext.PartChannel | Sources/IRCServer/IRCServerContext.swift:153-157 | The channel map becomes Parted(old, name, session), and the nicks and channel objects are untouched. |
| Registry.ServerContext.RenameNick | Sources/IRCServer/IRCServerContext.swift:162-175 | The nick map and the thrown error are those of Rename. |
| Registry.ServerContext.RegisterSession | Sources/IRCServer/IRCServerContext.swift:177-184 | The nick map and the thrown error are those of Register. |
| Registry.ServerContext.UnregisterSession | Sources/IRCServer/IRCServerContext.swift:186-199 | The nick map and the thrown error are those of Unregister. |
| ServerErrors.Decimal | Sources/IRCServer/IRCServerError.swift:22 | Renders a number as a non-empty string of decimal digits. |
| ServerErrors.DecimalRoundTrip | Sources/IRCServer/IRCServerError.swift:22 | Reading the rendered digits back gives the number. |
| ServerErrors.ErrorMessage | Sources/IRCServer/IRCServerError.swift:21-23 | The text for a code is never empty. |
| ServerErrors.TableKeysDistinct | Sources/IRCServer/IRCServerError.swift:26-35 | The table maps exactly eight distinct codes. |
| ServerErrors.MappedTexts | Sources/IRCServer/IRCServerError.swift:26-35 | Each of the eight codes gets its fixed text, e.g. 433 → "Nickname is already in use." |
| ServerErrors.MappedCodeCount | Sources/IRCServer/IRCServerError.swift:26-35 | The table's eight codes are eight different numbers. |
| ServerErrors.UnmappedText | Sources/IRCServer/IRCServerError.swift:21-23 | Any other code gets "Unmapped error code " followed by the code, and the code can be read back from the text. |
| MessageTarget.ErrorArgs | Sources/IRCServer/IRCServerMessageTarget.swift:25-32 | The error's arguments are the given ones followed by the explicit message, or the table text for the code. |
| MessageTarget.SplitLines | Sources/IRCServer/IRCServerMessageTarget.swift:45 | Splitting a text always gives at least one piece. |
| MessageTarget.StripCR | Sources/IRCServer/IRCServerMessageTarget.swift:46 | The result contains no carriage return and is no longer than the input; StripCRIsFilter proves it is the input with exactly the carriage returns removed. |
| MessageTarget.SplitLinesShape | Sources/IRCServer/IRCServerMessageTarget.swift:45 | A text with k newlines splits into k+1 pieces, none containing a newline. |
| MessageTarget.SplitLinesJoin | Sources/IRCServer/IRCServerMessageTarget.swift:45 | Joining the pieces with newlines gives back the text. |
| MessageTarget.MotDShape | Sources/IRCServer/IRCServerMessageTarget.swift:40-54 | A message of the day is a 375 start line, one 372 line per text line with no newline in it, and a 376 end line. |
| MessageTarget.MotDFrame | Sources/IRCServer/IRCServerMessageTarget.swift:40-54 | For a non-empty text the MOTD has one 372 per text line, each "- " plus that line with carriage returns removed, between the 375 and the 376. |
| MessageTarget.StripCRKeeps | Sources/IRCServer/IRCServerMessageTarget.swift:46 | Any character other than '\r' is in the result iff it is in the input. |
| MessageTarget.StripCRIsFilter | Sources/IRCServer/IRCServerMessageTarget.swift:46 | Removing carriage returns is filtering them out: every other character stays, in order. |
| MessageTarget.StripCRNone | Sources/IRCServer/IRCServerMessageTarget.swift:46 | A line without carriage returns is sent unchanged. |
| MessageTarget.Reply | Sources/IRCServer/IRCServerMessageTarget.swift:34-38 | Defines sendReply's message: the server origin, the session's target, and the numeric with exactly the given arguments (used by SendReply). |
| MessageTarget.ErrorReply | Sources/IRCServer/IRCServerMessageTarget.swift:25-32 | Defines sendError's message: a reply whose arguments are ErrorArgs (properties in ErrorArgs and SendError). |
| MessageTarget.MotDLines | Sources/IRCServer/IRCServerMessageTarget.swift:45-47 | Defines the MOTD lines: each piece of the text, carriage returns removed, after "- " (properties in MotDShape, StripCRIsFilter). |
| MessageTarget.MotDMessages | Sources/IRCServer/IRCServerMessageTarget.swift:40-54 | Defines what sendMotD sends: nothing for an empty text, else the start reply, one 372 per line, the end reply (properties in MotDShape). |
| SessionState.NickOf | Sources/IRCServer/IRCSessionHandler.swift:41-47 | A nick is known iff the state is nick-assigned or registered. |
| SessionState.IsRegistered | Sources/IRCServer/IRCSessionHandler.swift:55-58 | Defines registration as the registered state (properties in RegisteredMeansBoth, RegisteredStays). |
| SessionState.UserInfoOf | Sources/IRCServer/IRCSessionHandler.swift:48-54 | User info is known iff the state is user-set or registered. |
| SessionState.RegisteredMeansBoth | Sources/IRCServer/IRCSessionHandler.swift:41-58 | A session is registered iff both its nick and its user info are known. |
| SessionState.ChangeNick | Sources/IRCServer/IRCSessionHandler.swift:60-67 | The new nick is set and the user info kept. The result is registered iff user info was present, and it never loses registration. |
| SessionState.StateEquals | Sources/IRCServer/IRCSessionHandler.swift:69-85 | Defines the hand-written `==` case by case (property in StateEqualsIsEquality). |
| SessionState.StateEqualsIsEquality | Sources/IRCServer/IRCSessionHandler.swift:69-85 | The hand-written state comparison is exactly structural equality. |
| SessionState.UserIdOf | Sources/IRCServer/IRCSessionHandler.swift:108-113 | A user id exists iff the session is registered. It carries the nick, the user name, and the host (the given server name, else the server origin). |
| SessionState.MaskOf | Sources/IRCServer/IRCSessionHandler.swift:108-113 | The message origin is the user mask iff registered, and no origin otherwise (the source's nil `userID?.stringValue`). |
| SessionState.TargetTracksNick | Sources/IRCServer/IRCSessionHandler.swift:246 | Replies are addressed to the nick of the last NICK step; a new session is addressed as "*" until its first NICK. |
| SessionState.CurrentMode | Sources/IRCServer/IRCSessionHandler.swift:288-292 | The current user mode is sent as one MODE message iff a nick is set. |
| SessionState.TransitionEffects | Sources/IRCServer/IRCSessionHandler.swift:88-95 | The welcome burst followed by the current mode is sent iff the registered flag flips on. Otherwise nothing is sent. |
| SessionState.ApplyStep | Sources/IRCServer/IRCSessionDispatcher.swift:52-64 | A NICK or USER step never loses registration, and USER on a registered session changes nothing. |
| SessionState.RegisteredStays | Sources/IRCServer/IRCSessionHandler.swift:55-67 | Once registered, any run of NICK and USER steps stays registered and sends no further welcome. |
| SessionState.WelcomeOnce | Sources/IRCServer/IRCSessionHandler.swift:88-95 | Over any run of NICK and USER steps, the welcome is sent once if the run takes the session from unregistered to registered, else never. |
| SessionState.WelcomeFires | Sources/IRCServer/IRCSessionHandler.swift:89-90 | Defines the observer's condition: the registered flag changed and is now set (properties in WelcomeOnce, TransitionEffects). |
| SessionState.Welcome | Sources/IRCServer/IRCSessionHandler.swift:294-320 | Defines the welcome burst as one message from the server to the session's target, carrying its nick. |
| SessionState.NickAndUserRegister | Sources/IRCServer/IRCSessionDispatcher.swift:33-64 | NICK then USER, or USER then NICK, registers the session with exactly one welcome. |
| SessionState.ServerErrorCall | Sources/IRCServer/IRCSessionHandler.swift:180-205 | Each server error maps to its own numeric (433, 401, 403, 462, 451, 502, 421), which is always a table code. Only the mode error carries an explicit message. |
| SessionState.ParserErrorCall | Sources/IRCServer/IRCSessionHandler.swift:207-227 | An invalid nick gives 432, an argument-count error 461 and an invalid channel name 479, each with the offending value and a fixed text. Every other parser error gives 421 ["?", "Protocol error"]. |
| SessionState.ServerErrorText | Sources/IRCServer/IRCSessionHandler.swift:180-205 | The rendered error ends with the table text for its code, or the explicit mode message. |
| SessionState.ParserErrorText | Sources/IRCServer/IRCSessionHandler.swift:207-227 | The rendered parser errors end with "Unmapped error code 432/461/479" or "No such command." as the code table gives them. |
| SessionState.ParserFallbackTexts | Sources/IRCServer/IRCServerError.swift:21-23 | Codes 432, 461 and 479 are not in the table and read "Unmapped error code 432/461/479"; 421 reads "No such command.". |
| SessionState.ParserCodesRendered | Sources/IRCServer/IRCServerError.swift:22 | The codes 432, 461 and 479 render as those three digits. |
| Dispatch.ApplyModeChange | Sources/IRCServer/IRCSessionDispatcher.swift:88-90 | A flag is in the new mode iff it is added, or was set and is not removed. |
| Dispatch.ModeChangeIdempotent | Sources/IRCServer/IRCSessionDispatcher.swift:88-92 | Applying the same change twice equals applying it once, and add wins over remove. |
| Dispatch.UserModeText | Sources/IRCServer/IRCSessionDispatcher.swift:74-75 | An empty mode renders as "", otherwise as "+" and at least one letter; a flag is set iff its letter appears in the text. |
| Dispatch.UserModeLettersNonEmpty | Sources/IRCServer/IRCSessionDispatcher.swift:75 | A non-empty user mode has at least one letter. |
| Dispatch.UserModeLettersExact | Sources/IRCServer/IRCSessionDispatcher.swift:75 | The letters of a user mode name exactly its flags. |
| Types.UserFlagLetterRoundTrip | Sources/IRCServer/IRCSessionDispatcher.swift:75 | Every user flag is written, and its letter reads back as that flag. |
| Dispatch.ChannelModeText | Sources/IRCServer/IRCSessionDispatcher.swift:106 | An empty channel mode renders as "", otherwise as "+" and at least one letter; a flag is set iff its letter appears in the text. |
| Dispatch.ChannelModeLettersExact | Sources/IRCServer/IRCSessionDispatcher.swift:106 | The letters of a channel mode name exactly its flags. |
| Types.ChannelFlagLetterRoundTrip | Sources/IRCServer/IRCSessionDispatcher.swift:106 | Every channel flag is written, and its letter reads back as that flag. |
| Dispatch.CheckCapabilities | Sources/IRCServer/IRCSessionDispatcher.swift:128-132 | Accepts iff every requested capability is one the server supports. |
| Dispatch.JoinStep | Sources/IRCServer/IRCSessionDispatcher.swift:230-240 | An already joined channel is skipped. Otherwise the registry joins it, the name is recorded, and the JOIN and topic are sent. |
| Dispatch.JoinAll | Sources/IRCServer/IRCSessionDispatcher.swift:230-240 | Defines the doJoin loop as JoinStep over the names in order (properties in JoinAllJoins, JoinAllJoined, JoinAllTwice). |
| Dispatch.JoinStepTracks | Sources/IRCServer/IRCSessionDispatcher.swift:230-234 | Joining keeps the session's joined set equal to the channels that list it, and it ends up subscribed. |
| Dispatch.JoinStepAnnounces | Sources/IRCServer/IRCSessionDispatcher.swift:236-240 | A new join sends the JOIN to every subscriber, the joiner included, then the 332 topic to the joiner. |
| Dispatch.BroadcastThen | Sources/IRCServer/IRCSessionDispatcher.swift:236-240 | Broadcasting a message and then sending one more reaches every listed session, ends with that last message and keeps what was sent before. |
| Dispatch.JoinAllJoins | Sources/IRCServer/IRCSessionDispatcher.swift:223-250 | After JOIN the session is subscribed to every requested channel, and its joined set is the old one plus the names. |
| Dispatch.TracksSubscribed | Sources/IRCServer/IRCSessionDispatcher.swift:233 | When the tracked joined set holds every requested name, each of those channels exists and has the session among its subscribers. |
| Dispatch.JoinAllJoined | Sources/IRCServer/IRCSessionDispatcher.swift:231 | Joining channels the session is already in changes nothing and sends nothing. |
| Dispatch.JoinAllTwice | Sources/IRCServer/IRCSessionDispatcher.swift:223-250 | Repeating a JOIN has no further effect. |
| Dispatch.PartStep | Sources/IRCServer/IRCSessionDispatcher.swift:286-295 | A channel not joined is skipped. Otherwise the PART goes to the channel, the registry parts the session, and the name is forgotten. |
| Dispatch.PartAll | Sources/IRCServer/IRCSessionDispatcher.swift:286-295 | Defines the doPart loop as PartStep over the names in order (properties in PartAllLeaves, PartAllForgets, PartAllIsPartChannels). |
| Dispatch.PartStepTracks | Sources/IRCServer/IRCSessionDispatcher.swift:286-295 | Parting keeps the joined set equal to the channels that list the session, and the session leaves the channel. |
| Dispatch.PartStepEchoes | Sources/IRCServer/IRCSessionDispatcher.swift:289-291 | The parting session itself receives the PART message. |
| Dispatch.PartAllLeaves | Sources/IRCServer/IRCSessionDispatcher.swift:281-296 | After PART the session is in none of the named channels, and other channels are unchanged. |
| Dispatch.PartAllIsPartChannels | Sources/IRCServer/IRCSessionDispatcher.swift:286-295 | Parting distinct joined channels in any order leaves the registry as PartChannels of that set. |
| Dispatch.PartAllForgets | Sources/IRCServer/IRCSessionDispatcher.swift:281-296 | PART removes the named channels from the joined set, keeps the set of channel names, and only appends to the output. |
| Dispatch.JoinThenPartRestores | Sources/IRCServer/IRCSessionDispatcher.swift:223-296 | Joining an existing channel and then parting it restores the channels and the joined set. |
| Dispatch.RouteOne | Sources/IRCServer/IRCSessionDispatcher.swift:305-334 | Defines one recipient's handling: 401 for "*" or an unknown nick, 403 for an unknown channel, else PRIVMSG to the nick's session or to every other subscriber (properties in RouteOneShape, RouteSkipsSender, RouteReachesChannel). |
| Dispatch.Route | Sources/IRCServer/IRCSessionDispatcher.swift:304-335 | Defines doMessage's output as RouteOne over the recipients in order (properties in RouteAppend, RouteSnoc). |
| Dispatch.RouteOneShape | Sources/IRCServer/IRCSessionDispatcher.swift:304-335 | Covers the three recipient kinds. `*` gets 401 back. An unknown nick gets 401 and an unknown channel 403. A nick gets one PRIVMSG, and a channel one PRIVMSG per other subscriber. |
| Dispatch.RouteAppend | Sources/IRCServer/IRCSessionDispatcher.swift:304-335 | Routing a concatenation of recipients delivers the concatenation of the two routings. |
| Dispatch.RouteSnoc | Sources/IRCServer/IRCSessionDispatcher.swift:304 | Routing one more recipient appends that recipient's deliveries. |
| Dispatch.RouteSkipsSender | Sources/IRCServer/IRCSessionDispatcher.swift:320-333 | The sender never receives its own channel message. What it does receive are error replies and messages to its own nick. |
| Dispatch.RouteReachesChannel | Sources/IRCServer/IRCSessionDispatcher.swift:320-333 | Every other subscriber of a target channel receives the PRIVMSG. |
| Dispatch.ListRows | Sources/IRCServer/IRCSessionDispatcher.swift:357-362 | There is one 322 row per channel, in order. |
| Dispatch.ListRowsCount | Sources/IRCServer/IRCSessionDispatcher.swift:357-362 | Each row gives the channel name, the subscriber count in decimal (which reads back as the count), and the welcome. |
| Dispatch.Listing | Sources/IRCServer/IRCSessionDispatcher.swift:356-363 | LIST is a 321 header, the rows, and a 323 end line. |
| Dispatch.ListRowsCover | Sources/IRCServer/IRCSessionDispatcher.swift:357 | A full listing has a row for every channel. |
| Dispatch.WhoIsUsers | Sources/IRCServer/IRCSessionDispatcher.swift:153-161 | One 311 line is sent per mask equal to the caller's nick. Some line is sent iff the nick was asked for. |
| Sessions.Session.Me | Sources/IRCServer/IRCSessionHandler.swift:245-246 | The session's addressing is its id, nick, origin, reply target and mask. |
| Sessions.Session.constructor | Sources/IRCServer/IRCSessionHandler.swift:88-118 | A new session is initial, with an empty mode, all server capabilities active, no channels and nothing sent. |
| Sessions.Session.SendReply | Sources/IRCServer/IRCServerMessageTarget.swift:34-38 | Sends one reply from the server to the session's target. |
| Sessions.Session.SendError | Sources/IRCServer/IRCServerMessageTarget.swift:25-32 | Sends one error reply whose last argument is the given message or the code's table text. |
| Sessions.Session.SendMotD | Sources/IRCServer/IRCServerMessageTarget.swift:40-54 | Sends the message-of-the-day lines to this session, and nothing for an empty text. |
| Sessions.Session.SetState | Sources/IRCServer/IRCSessionHandler.swift:88-95 | Setting the state sends the welcome and the current mode iff the session just became registered, and nothing otherwise. |
| Sessions.Session.HandleServerError | Sources/IRCServer/IRCSessionHandler.swift:180-205 | Sends exactly the numeric error that the server error maps to. |
| Sessions.Session.HandleParserError | Sources/IRCServer/IRCSessionHandler.swift:207-227 | Sends exactly the numeric error that the parser error maps to. |
| Sessions.Session.Report | Sources/IRCServer/IRCSessionHandler.swift:229-240 | A completed command sends nothing. A server or parser error sends its numeric reply, except transport and not-implemented errors, which send nothing. |
| Sessions.Session.DoPing | Sources/IRCServer/IRCSessionDispatcher.swift:20-31 | A foreign second server gives 402. Otherwise the session gets PONG(origin, server). |
| Sessions.Session.DoNick | Sources/IRCServer/IRCSessionDispatcher.swift:33-50 | The same nick is a no-op. A rename follows Rename and announces NICK from the pre-rename mask. A first nick follows Register. On error neither state nor registry changes. |
| Sessions.Session.RenameTo | Sources/IRCServer/IRCSessionDispatcher.swift:37-44 | A rename follows Rename in the registry; on success the state takes the new nick and NICK goes out from the pre-rename mask, on error nothing else changes. |
| Sessions.Session.RegisterAs | Sources/IRCServer/IRCSessionDispatcher.swift:46-48 | A first nick follows Register; on success the state takes the nick and the welcome burst goes out exactly if that completes registration, on error nothing else changes. |
| Sessions.Session.DoUserInfo | Sources/IRCServer/IRCSessionDispatcher.swift:52-64 | A registered session gets alreadyRegistered. Otherwise the state becomes user-set or registered, firing the welcome on registration. |
| Sessions.Session.DoModeGet | Sources/IRCServer/IRCSessionDispatcher.swift:66-76 | Unregistered gives notRegistered and another nick gives cantChangeModeForOtherUsers. Otherwise one 221 carries the mode text. |
| Sessions.Session.DoMode | Sources/IRCServer/IRCSessionDispatcher.swift:78-97 | Gives the same errors as DoModeGet. The mode becomes (mode − remove) ∪ add, and a MODE is sent only when that changed something. |
| Sessions.Session.DoModeGetChannel | Sources/IRCServer/IRCSessionDispatcher.swift:99-108 | Unregistered gives notRegistered and an unknown channel noSuchChannel. Otherwise one 324 carries the channel mode text. |
| Sessions.Session.DoGetBanMask | Sources/IRCServer/IRCSessionDispatcher.swift:110-116 | Unregistered gives notRegistered. Otherwise one 368 end-of-ban-list is sent. |
| Sessions.Session.DoCAP | Sources/IRCServer/IRCSessionDispatcher.swift:118-143 | LS lists the server capabilities. A REQ with an unsupported id fails with invalidCAPCommand("REQ"). An acceptable REQ activates exactly the requested ids and ACKs them. END is silent. Other sub-commands fail. |
| Sessions.Session.SendToAll | Sources/IRCServer/IRCSessionDispatcher.swift:238 | Delivers the message to each listed session in order. |
| Sessions.Session.SendToAllBut | Sources/IRCServer/IRCSessionDispatcher.swift:330-333 | Delivers the message to each listed session except this one. |
| Sessions.Session.SendUnlessSelf | Sources/IRCServer/IRCSessionDispatcher.swift:330-333 | Handling the next subscriber extends the deliveries from BroadcastExcept of the first i subscribers to the first i+1. |
| Sessions.Session.DoJoin | Sources/IRCServer/IRCSessionDispatcher.swift:223-250 | Unregistered gives notRegistered. Otherwise channels, joined set and output are those of JoinAll, and the joined set keeps tracking the registry. |
| Sessions.Session.JoinOne | Sources/IRCServer/IRCSessionDispatcher.swift:231-240 | One loop iteration of JOIN equals JoinStep. |
| Sessions.Session.EnterChannel | Sources/IRCServer/IRCSessionDispatcher.swift:233-234 | The registry's channels become Joined for this session and the name is added to the joined set; the answer is the channel's new info. |
| Sessions.Session.AnnounceJoin | Sources/IRCServer/IRCSessionDispatcher.swift:236-240 | Sends JOIN to each current subscriber in order, then the 332 topic carrying the welcome to the joiner. |
| Sessions.Session.DoPart | Sources/IRCServer/IRCSessionDispatcher.swift:281-296 | Channels, joined set and output are those of PartAll, and the joined set keeps tracking the registry. |
| Sessions.Session.PartOne | Sources/IRCServer/IRCSessionDispatcher.swift:287-294 | One loop iteration of PART equals PartStep. |
| Sessions.Session.LeaveChannel | Sources/IRCServer/IRCSessionDispatcher.swift:293-294 | The registry's channels become Parted for this session and the name leaves the joined set. |
| Sessions.Session.DoPartAll | Sources/IRCServer/IRCSessionDispatcher.swift:366-368 | Equals DoPart over some duplicate-free listing of the joined channels: the same PART messages, and the registry ends as PartChannels of the joined set, so other subscribers stay. Afterwards the session has joined nothing and, if it was in step with the registry, is subscribed nowhere. |
| Sessions.Session.DoMessage | Sources/IRCServer/IRCSessionDispatcher.swift:298-336 | The deliveries are exactly Route over the recipients, in order. |
| Sessions.Session.MessageStep | Sources/IRCServer/IRCSessionDispatcher.swift:304-335 | Handling the next recipient extends the deliveries from Route of the first i recipients to Route of the first i+1. |
| Dispatch.RoutedUpToRoute | Sources/IRCServer/IRCSessionDispatcher.swift:304-335 | Routing the recipients one at a time, in order, gives Route of the prefix handled so far. |
| Sessions.Session.MessageOne | Sources/IRCServer/IRCSessionDispatcher.swift:305-334 | One recipient's deliveries are RouteOne. |
| Sessions.Session.DoIsOnline | Sources/IRCServer/IRCSessionDispatcher.swift:338-345 | Unregistered gives notRegistered. Otherwise one 303 names a nick iff it was asked for and is online. |
| Sessions.Session.DoList | Sources/IRCServer/IRCSessionDispatcher.swift:347-364 | Unregistered gives notRegistered and a foreign server gives 402. Otherwise the listing covers the requested known channels in order, or every channel once. |
| Sessions.Session.SendListing | Sources/IRCServer/IRCSessionDispatcher.swift:356-363 | Sends exactly Listing of the snapshots. |
| Sessions.Session.SendListRows | Sources/IRCServer/IRCSessionDispatcher.swift:357-362 | Sends exactly one 322 row per snapshot. |
| Sessions.Session.DoWhoIs | Sources/IRCServer/IRCSessionDispatcher.swift:145-171 | Unregistered gives notRegistered and a foreign server gives 402. Otherwise it sends a 311 per mask equal to the nick, then 312 and 318. |
| Sessions.Session.SendWhoIsUsers | Sources/IRCServer/IRCSessionDispatcher.swift:153-161 | Sends exactly WhoIsUsers: a 311 for each mask equal to the caller's nick, in mask order. |
| Sessions.Session.WhoIsStep | Sources/IRCServer/IRCSessionDispatcher.swift:153-161 | Handling the next mask extends the deliveries from WhoIsUsers of the first i masks to the first i+1. |
| Dispatch.WhoIsUsersSnoc | Sources/IRCServer/IRCSessionDispatcher.swift:153-161 | The 311s for one more mask are those for the masks before it plus one 311 if that mask names the caller. |
| Sessions.Session.Teardown | Sources/IRCServer/IRCSessionHandler.swift:137-158 | The session is parted from every joined channel and its nick released, after which no channel lists it and its nick is free. |
| Sessions.Session.PartEvery | Sources/IRCServer/IRCSessionHandler.swift:138-140 | Parting every name of the set leaves the registry's channels at PartChannels of them. |
| Sessions.RenameOriginBeforeRename | Sources/IRCServer/IRCSessionDispatcher.swift:37-43 | A registered session's NICK is announced from its user mask under the old nick, which is not its mask after the change. |
| Sessions.Vacated | Sources/IRCServer/IRCSessionHandler.swift:138-140 | Parting every channel that lists the session leaves it in none. |
| Seqs.SetToSeq | Sources/IRCServer/IRCSessionDispatcher.swift:367 | Lists a set's elements once each. |

## Left out

- Locking: the registry's readers-writers lock is not modelled. Each registry method is one atomic step, and concurrent event loops are not modelled.
- Sessions.Session.DoJoin: the NAMES replies (353/366) are not modelled. They are sent from the asynchronous `getValues` callback, which collects nicks from other event loops.
- doWho and doQuit are not modelled. doQuit only closes the connection, and doWho's filtering runs on other sessions' event loops through the same asynchronous collection.
- Sessions.Session.Report: models only how an outcome is answered. The SwiftNIO pipeline callbacks are not modelled: `channelActive`, `channelRead` decoding, `errorCaught` forwarding, `sendMessages`, flushing and logging.
- SessionState.Welcome: the welcome burst (001–005, the LUSERS numerics 251, 252 and 254, and the message of the day) is one abstract message. Its texts are not modelled: 003 carries the server start date (a clock value), and the LUSERS counts come from the registry's server info, whose counts are stated by GetServerInfo and InitialServerInfo.
- Nickname and channel name validation, and IRC case folding, belong to the NIOIRC library. Names are compared as plain strings.
- Registry.ServerContext.GetSessions: promises only the set of sessions, not Swift's dictionary iteration order. The same holds for GetNicksOnline and for GetChannelInfos without a name list.
- Sessions.Session.DoIsOnline: the 303 reply carries the set of online nicks, not the space-joined string in Swift's set iteration order.
- Sessions.Session.DoCAP: the LS and ACK capability lists are sets, so their order is not modelled.
- Dispatch.UserModeText: the order of mode letters is fixed per flag rather than taken from NIOIRC's `stringValue`.
- Registry.ServerContext.UnregisterSession: the debug `assert` in the mismatched-session branch is not modelled. The release behaviour, which leaves the map unchanged, is modelled. The same holds for the debug assert in handleError(alreadyRegistered).
- Sessions.Session.Teardown: `fireChannelInactive`, the channel identity assert and `channel = nil` are not modelled. The error from `unregisterSession` is only logged by the source and is dropped here.
- Sessions.Session.constructor: requires that its session id is not yet subscribed anywhere. This stands for a new object identity.
- The channel's back reference to the context is not modelled, and neither are logger calls.
- IRCServer.swift (socket setup), IRCLogger.swift, Utilities.swift and the miniircd executable are not part of this model.
- `handleError` for parser errors is modelled as written. The 432, 461 and 479 replies pass no explicit message, so their last argument is the code table's fallback "Unmapped error code …" after the fixed text.
