// The per-message context of the bot: finding the command in a chat message, the
// voice states of the guild, and routing a parsed command to its use case.

module Context {
  import opened Wrappers
  import opened Numeric
  import opened Kaisanee
  import opened Command
  import opened CommandText
  import opened Errors
  import opened Say

  // ---------------------------------------------------------------------------
  // White space and trimming, as Rust's `char::is_whitespace` and `str::trim`
  // ---------------------------------------------------------------------------

  /** The characters with the Unicode White_Space property. */
  predicate IsWhitespace(c: char)
  {
    ('\U{0009}' <= c <= '\U{000D}') || c == ' ' || c == '\U{0085}' || c == '\U{00A0}'
    || c == '\U{1680}' || ('\U{2000}' <= c <= '\U{200A}') || c == '\U{2028}' || c == '\U{2029}'
    || c == '\U{202F}' || c == '\U{205F}' || c == '\U{3000}'
  }

  predicate AllWhitespace(w: string)
  {
    forall i :: 0 <= i < |w| ==> IsWhitespace(w[i])
  }

  /** Neither end of `t` is white space. */
  predicate Trimmed(t: string)
  {
    t == [] || (!IsWhitespace(t[0]) && !IsWhitespace(t[|t| - 1]))
  }

  /** Drops the leading white space. */
  function TrimStart(s: string): (r: string)
    ensures |r| <= |s| && r == s[|s| - |r|..]
    ensures AllWhitespace(s[..|s| - |r|])
    ensures r == [] || !IsWhitespace(r[0])
  {
    if s != [] && IsWhitespace(s[0]) then
      var r := TrimStart(s[1..]);
      assert s[..|s| - |r|] == [s[0]] + s[1..][..|s| - 1 - |r|];
      r
    else s
  }

  /** Drops the trailing white space. */
  function TrimEnd(s: string): (r: string)
    ensures |r| <= |s| && r == s[..|r|]
    ensures AllWhitespace(s[|r|..])
    ensures r == [] || !IsWhitespace(r[|r| - 1])
  {
    if s != [] && IsWhitespace(s[|s| - 1]) then
      var r := TrimEnd(s[..|s| - 1]);
      assert s[|r|..] == s[..|s| - 1][|r|..] + [s[|s| - 1]];
      r
    else s
  }

  /** `str::trim`: the text without white space at either end. */
  function Trim(s: string): (r: string)
    ensures Trimmed(r)
  {
    var u := TrimStart(s);
    var r := TrimEnd(u);
    assert r != [] ==> r[0] == u[0];
    r
  }

  /** The white space `Trim` drops at the start, and at the end. */
  function Leading(s: string): string
  {
    s[..|s| - |TrimStart(s)|]
  }

  function Trailing(s: string): string
  {
    TrimStart(s)[|Trim(s)|..]
  }

  /** Trimming removes nothing but white space, and only at the ends. */
  lemma TrimRemovesOnlyWhitespace(s: string)
    ensures AllWhitespace(Leading(s)) && AllWhitespace(Trailing(s))
    ensures s == Leading(s) + Trim(s) + Trailing(s)
  {
    var u := TrimStart(s);
    var r := Trim(s);
    assert r == TrimEnd(u);
    var w1 := Leading(s);
    var w2 := Trailing(s);
    SplitAt(s, |s| - |u|);
    SplitAt(u, |r|);
    Regroup(w1, r, w2);
  }

  lemma SplitAt(s: string, k: nat)
    requires k <= |s|
    ensures s == s[..k] + s[k..]
  {
  }

  lemma {:induction false} TrimStartPadded(w: string, t: string)
    requires AllWhitespace(w) && (t == [] || !IsWhitespace(t[0]))
    ensures TrimStart(w + t) == t
  {
    if w == [] {
      assert w + t == t;
    } else {
      assert (w + t)[0] == w[0];
      assert (w + t)[1..] == w[1..] + t;
      TrimStartPadded(w[1..], t);
    }
  }

  lemma {:induction false} TrimEndPadded(t: string, w: string)
    requires AllWhitespace(w) && (t == [] || !IsWhitespace(t[|t| - 1]))
    ensures TrimEnd(t + w) == t
  {
    if w == [] {
      assert t + w == t;
    } else {
      var tw := t + w;
      assert tw[|tw| - 1] == w[|w| - 1];
      assert tw[..|tw| - 1] == t + w[..|w| - 1];
      TrimEndPadded(t, w[..|w| - 1]);
    }
  }

  /** Trimming undoes white-space padding on both sides. */
  lemma TrimPadded(w1: string, t: string, w2: string)
    requires AllWhitespace(w1) && AllWhitespace(w2) && Trimmed(t)
    ensures Trim(w1 + t + w2) == t
  {
    if t == [] {
      var w := w1 + w2;
      assert w1 + t + w2 == w + [];
      assert forall i :: 0 <= i < |w| ==> w[i] == if i < |w1| then w1[i] else w2[i - |w1|];
      TrimStartPadded(w, []);
    } else {
      assert w1 + t + w2 == w1 + (t + w2);
      assert (t + w2)[0] == t[0];
      TrimStartPadded(w1, t + w2);
      TrimEndPadded(t, w2);
    }
  }

  /** Trimming twice is trimming once. */
  lemma TrimIsIdempotent(s: string)
    ensures Trim(Trim(s)) == Trim(s)
  {
    var t := Trim(s);
    assert [] + t + [] == t;
    TrimPadded([], t, []);
  }

  // ---------------------------------------------------------------------------
  // Finding the command in a message
  // ---------------------------------------------------------------------------

  predicate StartsWith(s: string, p: string)
  {
    |p| <= |s| && s[..|p|] == p
  }

  predicate EndsWith(s: string, p: string)
  {
    |p| <= |s| && s[|s| - |p|..] == p
  }

  /** How a message mentions the bot. */
  function BotMention(botId: UserId): (m: string)
    ensures |m| >= 4 && m[0] == '<' && m[|m| - 1] == '>'
  {
    "<@!" + NatToString(botId) + ">"
  }

  /** The command a message holds: the text after a mention of the bot, else the text
    * before one, else the text after `!kaisan`, trimmed; a message with none of these
    * holds no command. */
  function ExtractCommand(content: string, botId: UserId): (r: Option<string>)
    ensures r.Some? <==> (StartsWith(content, BotMention(botId)) || EndsWith(content, BotMention(botId))
                          || StartsWith(content, "!kaisan"))
    ensures r.Some? ==> Trimmed(r.value)
  {
    var m := BotMention(botId);
    if StartsWith(content, m) then Some(Trim(content[|m|..]))
    else if EndsWith(content, m) then Some(Trim(content[..|content| - |m|]))
    else if StartsWith(content, "!kaisan") then Some(Trim(content[7..]))
    else None
  }

  /** A command written after a mention of the bot is found. */
  lemma ExtractAfterMention(botId: UserId, w: string, cmd: string)
    requires AllWhitespace(w) && Trimmed(cmd)
    ensures ExtractCommand(BotMention(botId) + w + cmd, botId) == Some(cmd)
  {
    var m := BotMention(botId);
    var s := m + w + cmd;
    assert s[..|m|] == m;
    assert s[|m|..] == w + cmd + [];
    TrimPadded(w, cmd, []);
  }

  /** A command written before a mention of the bot is found, when the message does
    * not also start with the mention. */
  lemma ExtractBeforeMention(botId: UserId, cmd: string, w: string)
    requires AllWhitespace(w) && Trimmed(cmd)
    requires !StartsWith(cmd + w + BotMention(botId), BotMention(botId))
    ensures ExtractCommand(cmd + w + BotMention(botId), botId) == Some(cmd)
  {
    var m := BotMention(botId);
    var s := cmd + w + m;
    assert s[|s| - |m|..] == m;
    assert s[..|s| - |m|] == [] + cmd + w;
    TrimPadded([], cmd, w);
  }

  /** A command written after `!kaisan` is found, when the message does not end
    * with a mention of the bot; no space is needed after `!kaisan`. */
  lemma ExtractAfterBang(botId: UserId, w: string, cmd: string)
    requires AllWhitespace(w) && Trimmed(cmd)
    requires !EndsWith("!kaisan" + w + cmd, BotMention(botId))
    ensures ExtractCommand("!kaisan" + w + cmd, botId) == Some(cmd)
  {
    var s := "!kaisan" + w + cmd;
    assert s[0] == '!';
    assert s[..7] == "!kaisan";
    assert s[7..] == w + cmd + [];
    TrimPadded(w, cmd, []);
  }

  /** A mention at the start takes precedence: only it is stripped, and a mention at
    * the end stays part of the command. */
  lemma LeadingMentionWins(botId: UserId, x: string)
    ensures ExtractCommand(BotMention(botId) + x + BotMention(botId), botId)
         == Some(Trim(x + BotMention(botId)))
  {
    var m := BotMention(botId);
    var s := m + x + m;
    assert s[..|m|] == m;
    assert s[|m|..] == x + m;
  }

  // ---------------------------------------------------------------------------
  // Voice states of the guild
  // ---------------------------------------------------------------------------

  type ChannelId = nat

  /** A user's voice state: the voice channel they are connected to, if any. */
  datatype VoiceState = VoiceState(userId: UserId, channelId: Option<ChannelId>)

  /** The guild's voice states are a map keyed by user; here they are listed in the
    * map's iteration order, each user once. */
  predicate UniqueUsers(states: seq<VoiceState>)
  {
    forall i, j :: 0 <= i < j < |states| ==> states[i].userId != states[j].userId
  }

  /** The users connected to channel `ch`, in the order of the voice states. */
  function UsersIn(states: seq<VoiceState>, ch: ChannelId): seq<UserId>
  {
    if states == [] then []
    else
      var last := states[|states| - 1];
      UsersIn(states[..|states| - 1], ch) + (if last.channelId == Some(ch) then [last.userId] else [])
  }

  /** `voice_channel_users`: the users in a voice channel; an inaccessible guild (no
    * voice states) is an error. */
  method VoiceChannelUsers(voiceStates: Option<seq<VoiceState>>, ch: ChannelId)
    returns (r: Result<seq<UserId>, Error>)
    ensures voiceStates.None? ==> r == Err(InaccessibleGuild)
    ensures voiceStates.Some? ==> r == Ok(UsersIn(voiceStates.value, ch))
  {
    if voiceStates.None? {
      return Err(InaccessibleGuild);
    }
    var states := voiceStates.value;
    var users: seq<UserId> := [];
    var i := 0;
    while i < |states|
      invariant 0 <= i <= |states|
      invariant users == UsersIn(states[..i], ch)
    {
      assert states[..i + 1][..i] == states[..i];
      if states[i].channelId == Some(ch) {
        users := users + [states[i].userId];
      }
      i := i + 1;
    }
    assert states[..i] == states;
    return Ok(users);
  }

  /** A user is listed exactly when one of the voice states puts them in the channel. */
  lemma {:induction false} UsersInMembership(states: seq<VoiceState>, ch: ChannelId, u: UserId)
    ensures u in UsersIn(states, ch)
        <==> exists i :: 0 <= i < |states| && states[i].userId == u && states[i].channelId == Some(ch)
  {
    if states != [] {
      var init := states[..|states| - 1];
      UsersInMembership(init, ch, u);
      assert forall i :: 0 <= i < |init| ==> init[i] == states[i];
    }
  }

  /** With each user in the voice states once, no user is listed twice. */
  lemma {:induction false} UsersInAreDistinct(states: seq<VoiceState>, ch: ChannelId)
    requires UniqueUsers(states)
    ensures forall i, j :: 0 <= i < j < |UsersIn(states, ch)| ==> UsersIn(states, ch)[i] != UsersIn(states, ch)[j]
  {
    if states != [] {
      var n := |states| - 1;
      var init := states[..n];
      assert forall i :: 0 <= i < |init| ==> init[i] == states[i];
      UsersInAreDistinct(init, ch);
      if states[n].channelId == Some(ch) {
        UsersInMembership(init, ch, states[n].userId);
      }
    }
  }

  /** The voice state of user `u`, if the map has one. */
  function StateOf(states: seq<VoiceState>, u: UserId): (r: Option<VoiceState>)
    ensures r.Some? ==> r.value in states && r.value.userId == u
    ensures r.None? ==> forall i :: 0 <= i < |states| ==> states[i].userId != u
  {
    if states == [] then None
    else if states[0].userId == u then Some(states[0])
    else StateOf(states[1..], u)
  }

  /** `connected_voice_channel`: the voice channel a user is connected to, if any; an
    * inaccessible guild is an error. */
  function ConnectedVoiceChannel(voiceStates: Option<seq<VoiceState>>, u: UserId): (r: Result<Option<ChannelId>, Error>)
    ensures voiceStates.None? <==> r == Err(InaccessibleGuild)
  {
    match voiceStates
    case None => Err(InaccessibleGuild)
    case Some(states) =>
      match StateOf(states, u)
      case Some(VoiceState(_, Some(id))) => Ok(Some(id))
      case _ => Ok(None)
  }

  /** The two views of the voice states agree: a user is connected to a channel exactly
    * when they are among that channel's users. */
  lemma ConnectedAgreesWithUsers(states: seq<VoiceState>, u: UserId, ch: ChannelId)
    requires UniqueUsers(states)
    ensures ConnectedVoiceChannel(Some(states), u) == Ok(Some(ch)) <==> u in UsersIn(states, ch)
  {
    UsersInMembership(states, ch, u);
    var st := StateOf(states, u);
    if u in UsersIn(states, ch) {
      var i :| 0 <= i < |states| && states[i].userId == u && states[i].channelId == Some(ch);
      var j :| 0 <= j < |states| && states[j] == st.value;
      assert i == j;
    }
  }

  // ---------------------------------------------------------------------------
  // Handling a message
  // ---------------------------------------------------------------------------

  /** What a message leads to: nothing, a use case, or a command the handler does not
    * route. */
  datatype Action =
    | NoCommand
    | RunHelp
    | RunScheduleKaisan(kaisanee: KaisaneeSpecifier, timeRange: TimeRangeSpecifier)
    | NotRouted(command: Command)

  /** Help goes to the help use case and a kaisan to scheduling; the handler routes
    * no other command. */
  function Dispatch(c: Command): (a: Action)
    ensures a.RunHelp? <==> c == Help
    ensures a.RunScheduleKaisan? <==> c.Kaisan?
    ensures a.RunScheduleKaisan? ==> a.kaisanee == c.kaisanee && a.timeRange == c.timeRange
  {
    match c
    case Help => RunHelp
    case Kaisan(k, tr) => RunScheduleKaisan(k, tr)
    case _ => NotRouted(c)
  }

  /** `handle_message`: a message without a command is ignored, a command that does
    * not parse is an invalid-command error, and a parsed command is dispatched. */
  function HandleMessage(content: string, botId: UserId, env: ParseEnv): (r: Result<Action, Error>)
    ensures r == Ok(NoCommand) <==> ExtractCommand(content, botId).None?
    ensures r.Err? ==> r.error.InvalidCommand?
  {
    match ExtractCommand(content, botId)
    case None => Ok(NoCommand)
    case Some(s) =>
      match ParseCommand(s, env)
      case Err(e) => Err(InvalidCommand(e))
      case Ok(c) => Ok(Dispatch(c))
  }

  lemma EdgeCharIsNotWhitespace(c: char)
    requires IsEdgeChar(c)
    ensures !IsWhitespace(c) && c != '>'
  {
  }

  /** From chat message to use case: a command spelled after `!kaisan ` or after a
    * mention of the bot is parsed and dispatched. */
  lemma HandleCommandMessage(c: Command, botId: UserId, env: ParseEnv)
    requires CommandHasText(c)
    requires c.TimeZone? ==> env.parseTimezone(c.tz.name) == Some(c.tz)
    ensures HandleMessage("!kaisan " + CommandText.CommandText(c), botId, env) == Ok(Dispatch(c))
    ensures HandleMessage(BotMention(botId) + " " + CommandText.CommandText(c), botId, env) == Ok(Dispatch(c))
  {
    var t := CommandText.CommandText(c);
    CommandTextEdges(c);
    EdgeCharIsNotWhitespace(t[0]);
    EdgeCharIsNotWhitespace(t[|t| - 1]);
    CommandOfText(c, env);
    BangCommandExtracted(botId, t);
    HandleOfExtracted("!kaisan " + t, botId, env, c);
    MentionCommandExtracted(botId, t);
    HandleOfExtracted(BotMention(botId) + " " + t, botId, env, c);
  }

  lemma HandleOfExtracted(content: string, botId: UserId, env: ParseEnv, c: Command)
    requires CommandHasText(c) && ParseCommand(CommandText.CommandText(c), env) == Ok(c)
    requires ExtractCommand(content, botId) == Some(CommandText.CommandText(c))
    ensures HandleMessage(content, botId, env) == Ok(Dispatch(c))
  {
  }

  /** `!kaisan `, then a trimmed command that does not end with `>`. */
  lemma BangCommandExtracted(botId: UserId, t: string)
    requires Trimmed(t) && t != [] && t[|t| - 1] != '>'
    ensures ExtractCommand("!kaisan " + t, botId) == Some(t)
  {
    assert AllWhitespace(" ");
    assert "!kaisan" + " " == "!kaisan ";
    var s := "!kaisan" + " " + t;
    assert s[|s| - 1] == t[|t| - 1];
    NotEndsWithLast(s, BotMention(botId));
    ExtractAfterBang(botId, " ", t);
  }

  lemma NotEndsWithLast(s: string, p: string)
    requires s != [] && p != [] && s[|s| - 1] != p[|p| - 1]
    ensures !EndsWith(s, p)
  {
    if |p| <= |s| {
      assert s[|s| - |p|..][|p| - 1] == s[|s| - 1];
    }
  }

  /** The bot's mention, a space, then a trimmed command. */
  lemma MentionCommandExtracted(botId: UserId, t: string)
    requires Trimmed(t)
    ensures ExtractCommand(BotMention(botId) + " " + t, botId) == Some(t)
  {
    assert AllWhitespace(" ");
    ExtractAfterMention(botId, " ", t);
  }

  /** A word command followed by more text is an invalid command, and the error names
    * the text that was not understood. */
  lemma HandleTrailingText(botId: UserId, t: string, env: ParseEnv)
    requires t != "" && !IsWhitespace(t[|t| - 1])
    ensures HandleMessage(BotMention(botId) + " " + "help" + t, botId, env)
         == Err(InvalidCommand(ParseCommandError(Some(t))))
  {
    var content := BotMention(botId) + " " + "help" + t;
    MentionHelpExtracted(botId, t);
    HelpWithTrailing("help" + t, t, env);
    HandleOfRefused(content, botId, env, "help" + t, ParseCommandError(Some(t)));
  }

  lemma MentionHelpExtracted(botId: UserId, t: string)
    requires t != "" && !IsWhitespace(t[|t| - 1])
    ensures ExtractCommand(BotMention(botId) + " " + "help" + t, botId) == Some("help" + t)
  {
    var cmd := "help" + t;
    assert cmd[0] == 'h' && cmd[|cmd| - 1] == t[|t| - 1];
    assert AllWhitespace(" ");
    ExtractAfterMention(botId, " ", cmd);
    assert BotMention(botId) + " " + "help" + t == BotMention(botId) + " " + cmd;
  }

  /** An extracted command that does not parse is reported with the parser's error. */
  lemma HandleOfRefused(content: string, botId: UserId, env: ParseEnv, s: string, e: ParseCommandError)
    requires ExtractCommand(content, botId) == Some(s) && ParseCommand(s, env) == Err(e)
    ensures HandleMessage(content, botId, env) == Err(InvalidCommand(e))
  {
  }
}
