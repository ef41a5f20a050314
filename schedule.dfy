// Scheduling a kaisan (src/use_case/schedule_kaisan.rs): resolving the time range
// when the command arrives, announcing it, and, when the time comes, disconnecting
// the chosen users from the author's voice channel.

module Schedule {
  import opened Wrappers
  import opened Time
  import opened Kaisanee
  import Command
  import opened Errors
  import opened Messages
  import opened Context

  // ---------------------------------------------------------------------------
  // Resolving the time range
  // ---------------------------------------------------------------------------

  /** A kaisan waiting for its time: who asked, in which voice channel, when, and
    * whom to disconnect. */
  datatype Job = Job(author: UserId, channel: ChannelId, fire: Instant, kaisanee: KaisaneeSpecifier)

  /** The instant a kaisan fires and the announcement sent when it is scheduled.
    * `At` fires at the resolved time; `By` fires `draw` seconds after `now`, where
    * `draw` is what the random source returned for the span up to the bound, and it
    * announces the bound rather than the drawn instant. A resolved time before `now`
    * is unreachable; `now` itself is accepted. */
  function Resolve(k: KaisaneeSpecifier, tr: Command.TimeRangeSpecifier, now: Instant, tz: Offset, draw: int)
    : (r: Result<(Instant, Message), Error>)
    ensures r.Err? <==> CalculateTime(tr.spec, now, tz) < now
    ensures r.Err? ==> r.error == UnreachableTime(CalculateTime(tr.spec, now, tz), now)
    ensures r.Ok? && tr.RangeAt? ==> r.value.0 == CalculateTime(tr.spec, now, tz) && r.value.0 >= now
    ensures r.Ok? && tr.RangeBy? ==> r.value.0 == now + draw
    ensures r.Ok? ==> r.value.1 == Scheduled(CalculatedDateTime(CalculateTime(tr.spec, now, tz), now, tz, tr.spec, tr.RangeBy?), k)
  {
    var time := CalculateTime(tr.spec, now, tz);
    if time < now then Err(UnreachableTime(time, now))
    else
      var fire := if tr.RangeBy? then now + draw else time;
      Ok((fire, Scheduled(CalculatedDateTime(time, now, tz, tr.spec, tr.RangeBy?), k)))
  }

  /** The span of a `By` range that the random draw is taken from. */
  function Span(tr: Command.TimeRangeSpecifier, now: Instant, tz: Offset): int
  {
    CalculateTime(tr.spec, now, tz) - now
  }

  /** A draw within the span fires the kaisan no earlier than now and no later than
    * the bound. */
  lemma ByFiresWithinBound(k: KaisaneeSpecifier, spec: TimeSpecifier, now: Instant, tz: Offset, draw: int)
    requires 0 <= draw <= Span(Command.RangeBy(spec), now, tz)
    ensures Resolve(k, Command.RangeBy(spec), now, tz, draw).Ok?
    ensures now <= Resolve(k, Command.RangeBy(spec), now, tz, draw).value.0 <= CalculateTime(spec, now, tz)
  {
  }

  /** The announcement of a `By` range is the same whatever the draw. */
  lemma ByAnnouncesTheBound(k: KaisaneeSpecifier, spec: TimeSpecifier, now: Instant, tz: Offset, d1: int, d2: int)
    ensures Resolve(k, Command.RangeBy(spec), now, tz, d1).Ok? == Resolve(k, Command.RangeBy(spec), now, tz, d2).Ok?
    ensures Resolve(k, Command.RangeBy(spec), now, tz, d1).Ok? ==>
      Resolve(k, Command.RangeBy(spec), now, tz, d1).value.1 == Resolve(k, Command.RangeBy(spec), now, tz, d2).value.1
  {
  }

  /** A duration from now, and now itself, are always reachable. */
  lemma AfterAndNowAreReachable(k: KaisaneeSpecifier, tr: Command.TimeRangeSpecifier, now: Instant, tz: Offset, draw: int)
    requires tr.spec.After? || tr.spec.Now?
    ensures Resolve(k, tr, now, tz, draw).Ok?
  {
  }

  /** What `schedule_kaisan` decides before it sends anything: the author must be in
    * a voice channel, and the range must resolve. */
  function PlanKaisan(author: UserId, k: KaisaneeSpecifier, tr: Command.TimeRangeSpecifier,
                      voiceStates: Option<seq<VoiceState>>, now: Instant, tz: Offset, draw: int)
    : (r: Result<(Job, Message), Error>)
    ensures ConnectedVoiceChannel(voiceStates, author) == Ok(None) ==> r == Err(NotInVoiceChannel)
    ensures voiceStates.None? ==> r == Err(InaccessibleGuild)
    ensures r.Ok? ==> r.value.0.author == author && r.value.0.kaisanee == k
    ensures r.Ok? ==> ConnectedVoiceChannel(voiceStates, author) == Ok(Some(r.value.0.channel))
  {
    match ConnectedVoiceChannel(voiceStates, author)
    case Err(e) => Err(e)
    case Ok(None) => Err(NotInVoiceChannel)
    case Ok(Some(ch)) =>
      match Resolve(k, tr, now, tz, draw)
      case Err(e) => Err(e)
      case Ok((fire, m)) => Ok((Job(author, ch, fire, k), m))
  }

  // ---------------------------------------------------------------------------
  // Choosing whom to disconnect
  // ---------------------------------------------------------------------------

  /** The users of `us` that are in `present`, in the order of `us` and with its
    * repetitions. */
  function KeepPresent(us: seq<UserId>, present: seq<UserId>): seq<UserId>
  {
    if us == [] then []
    else (if us[0] in present then [us[0]] else []) + KeepPresent(us[1..], present)
  }

  /** The users a kaisan disconnects, chosen from those in the voice channel when it
    * fires: the author alone (if still there), everyone there, or the named users
    * who are there. */
  function TargetUsers(k: KaisaneeSpecifier, author: UserId, inUsers: seq<UserId>): (t: seq<UserId>)
    ensures forall u :: u in t ==> u in inUsers
  {
    match k
    case Me => if author in inUsers then [author] else []
    case All => inUsers
    case Users(us) => KeepPresentInside(us, inUsers); KeepPresent(us, inUsers)
  }

  lemma {:induction false} KeepPresentInside(us: seq<UserId>, present: seq<UserId>)
    ensures forall u :: u in KeepPresent(us, present) ==> u in present && u in us
  {
    if us != [] {
      KeepPresentInside(us[1..], present);
    }
  }

  /** `a` is `b` with some elements left out. */
  predicate IsSubsequence(a: seq<UserId>, b: seq<UserId>)
    decreases |b|
  {
    if a == [] then true
    else if b == [] then false
    else if a[0] == b[0] then IsSubsequence(a[1..], b[1..])
    else IsSubsequence(a, b[1..])
  }

  /** The named users are kept in their order, and each as often as named when in the
    * channel, not at all otherwise. */
  lemma {:induction false} KeepPresentCounts(us: seq<UserId>, present: seq<UserId>)
    ensures IsSubsequence(KeepPresent(us, present), us)
    ensures forall u :: multiset(KeepPresent(us, present))[u] == if u in present then multiset(us)[u] else 0
  {
    if us != [] {
      KeepPresentCounts(us[1..], present);
      assert us == [us[0]] + us[1..];
      assert multiset(us) == multiset([us[0]]) + multiset(us[1..]);
      var r := KeepPresent(us[1..], present);
      if us[0] in present {
        assert KeepPresent(us, present) == [us[0]] + r;
        assert ([us[0]] + r)[1..] == r;
        assert multiset([us[0]] + r) == multiset([us[0]]) + multiset(r);
      } else {
        assert KeepPresent(us, present) == r;
        SubsequenceOfTail(r, us);
      }
    }
  }

  lemma {:induction false} SubsequenceOfTail(a: seq<UserId>, b: seq<UserId>)
    requires b != [] && IsSubsequence(a, b[1..])
    ensures IsSubsequence(a, b)
    decreases |b|, 0
  {
    if a != [] && a[0] == b[0] {
      // Taking b[0] for a[0] leaves a[1..] to find in b[1..], which holds a.
      SubsequenceDropHead(a, b[1..]);
    }
  }

  lemma {:induction false} SubsequenceDropHead(a: seq<UserId>, b: seq<UserId>)
    requires a != [] && IsSubsequence(a, b)
    ensures IsSubsequence(a[1..], b)
    decreases |b|, 1
  {
    if a[0] == b[0] {
      if a[1..] != [] {
        SubsequenceOfTail(a[1..], b);
      }
    } else {
      SubsequenceDropHead(a, b[1..]);
      if a[1..] != [] {
        SubsequenceOfTail(a[1..], b);
      }
    }
  }

  /** `Me` names the author exactly when the author is still in the channel. */
  lemma MeTargetsTheAuthor(author: UserId, inUsers: seq<UserId>)
    ensures TargetUsers(Me, author, inUsers) == (if author in inUsers then [author] else [])
    ensures TargetUsers(Me, author, inUsers) != [] <==> author in inUsers
  {
  }

  /** A specifier that cannot include others disconnects only the author. */
  lemma OnlyTheAuthorUnlessOthers(k: KaisaneeSpecifier, author: UserId, inUsers: seq<UserId>)
    requires !MayIncludeOthers(k, author)
    ensures forall u :: u in TargetUsers(k, author, inUsers) ==> u == author
  {
    if k.Users? {
      KeepPresentInside(k.users, inUsers);
    }
  }

  /** With each user in the voice states once, `All` disconnects everyone in the
    * channel, each once. */
  lemma AllTargetsEveryone(author: UserId, states: seq<VoiceState>, ch: ChannelId, u: UserId)
    requires UniqueUsers(states)
    ensures u in TargetUsers(All, author, UsersIn(states, ch)) <==> ConnectedVoiceChannel(Some(states), u) == Ok(Some(ch))
    ensures forall i, j :: 0 <= i < j < |TargetUsers(All, author, UsersIn(states, ch))| ==>
      TargetUsers(All, author, UsersIn(states, ch))[i] != TargetUsers(All, author, UsersIn(states, ch))[j]
  {
    ConnectedAgreesWithUsers(states, u, ch);
    UsersInAreDistinct(states, ch);
  }

  // ---------------------------------------------------------------------------
  // The effects of a kaisan
  // ---------------------------------------------------------------------------

  /** Which requests to the chat platform fail, and with what error. */
  datatype Faults = Faults(
    disconnect: UserId -> Option<Error>,
    react: char -> Option<Error>,
    message: Message -> Option<Error>)

  /** How many targets are disconnected before the first failure. */
  function Disconnectable(targets: seq<UserId>, faults: Faults): (n: nat)
    ensures n <= |targets|
    ensures forall j :: 0 <= j < n ==> faults.disconnect(targets[j]).None?
    ensures n < |targets| ==> faults.disconnect(targets[n]).Some?
  {
    if targets == [] || faults.disconnect(targets[0]).Some? then 0
    else 1 + Disconnectable(targets[1..], faults)
  }

  /** What `kaisan` does: the users disconnected, reactions and messages added, and
    * its result. */
  datatype Outcome = Outcome(disconnected: seq<UserId>, reactions: seq<char>, messages: seq<Message>,
                             result: Result<(), Error>)

  const Done: char := '✅'
  const Failed: char := '❌'

  /** The targets are disconnected in order and the first failure stops everything;
    * then ✅ is reacted, and the users are told only when there were any. */
  function KaisanOutcome(author: UserId, ch: ChannelId, k: KaisaneeSpecifier,
                         voiceStates: Option<seq<VoiceState>>, faults: Faults): Outcome
  {
    match voiceStates
    case None => Outcome([], [], [], Err(InaccessibleGuild))
    case Some(states) => TargetsOutcome(TargetUsers(k, author, UsersIn(states, ch)), faults)
  }

  /** The same once the targets are chosen. */
  function TargetsOutcome(targets: seq<UserId>, faults: Faults): Outcome
  {
    var n := Disconnectable(targets, faults);
    if n < |targets| then Outcome(targets[..n], [], [], Err(faults.disconnect(targets[n]).value))
    else if faults.react(Done).Some? then Outcome(targets, [], [], Err(faults.react(Done).value))
    else if targets == [] then Outcome(targets, [Done], [], Ok(()))
    else if faults.message(Kaisan(targets)).Some? then Outcome(targets, [Done], [], Err(faults.message(Kaisan(targets)).value))
    else Outcome(targets, [Done], [Kaisan(targets)], Ok(()))
  }

  /** Only users in the channel are disconnected, in the order chosen, and ✅ comes
    * only once all of them are. */
  lemma KaisanDisconnectsTargetsInOrder(author: UserId, ch: ChannelId, k: KaisaneeSpecifier,
                                        states: seq<VoiceState>, faults: Faults)
    ensures var o := KaisanOutcome(author, ch, k, Some(states), faults);
            var targets := TargetUsers(k, author, UsersIn(states, ch));
            o.disconnected == targets[..|o.disconnected|]
            && (forall u :: u in o.disconnected ==> u in UsersIn(states, ch))
            && (Done in o.reactions ==> o.disconnected == targets)
  {
    var targets := TargetUsers(k, author, UsersIn(states, ch));
    var o := KaisanOutcome(author, ch, k, Some(states), faults);
    assert targets[..|targets|] == targets;
    assert forall u :: u in o.disconnected ==> u in targets;
  }

  /** A kaisan succeeds exactly when every request does; then all targets are
    * disconnected, ✅ is reacted, and the users are named when there are any. */
  lemma KaisanSucceedsWithoutFaults(author: UserId, ch: ChannelId, k: KaisaneeSpecifier,
                                    states: seq<VoiceState>, faults: Faults)
    ensures var o := KaisanOutcome(author, ch, k, Some(states), faults);
            var targets := TargetUsers(k, author, UsersIn(states, ch));
            o.result.Ok? <==>
              ((forall u :: u in targets ==> faults.disconnect(u).None?) && faults.react(Done).None?
               && (targets != [] ==> faults.message(Kaisan(targets)).None?))
    ensures var o := KaisanOutcome(author, ch, k, Some(states), faults);
            var targets := TargetUsers(k, author, UsersIn(states, ch));
            o.result.Ok? ==> o.disconnected == targets && o.reactions == [Done]
                             && o.messages == (if targets == [] then [] else [Kaisan(targets)])
  {
    var targets := TargetUsers(k, author, UsersIn(states, ch));
    var n := Disconnectable(targets, faults);
    if n < |targets| {
      assert targets[n] in targets;
    }
  }

  // ---------------------------------------------------------------------------
  // The chat as the use case sees it
  // ---------------------------------------------------------------------------

  /** What the bot has done in the channel and guild: messages sent, reactions to the
    * command message, users disconnected, and kaisans waiting for their time. */
  class Chat {
    var messages: seq<Message>
    var reactions: seq<char>
    var disconnected: seq<UserId>
    var scheduled: seq<Job>

    constructor ()
      ensures messages == [] && reactions == [] && disconnected == [] && scheduled == []
    {
      messages := [];
      reactions := [];
      disconnected := [];
      scheduled := [];
    }

    method Send(m: Message, faults: Faults) returns (r: Result<(), Error>)
      modifies this
      ensures faults.message(m).None? ==> r == Ok(()) && messages == old(messages) + [m]
      ensures faults.message(m).Some? ==> r == Err(faults.message(m).value) && messages == old(messages)
      ensures reactions == old(reactions) && disconnected == old(disconnected) && scheduled == old(scheduled)
    {
      var e := faults.message(m);
      if e.Some? {
        return Err(e.value);
      }
      messages := messages + [m];
      return Ok(());
    }

    method React(c: char, faults: Faults) returns (r: Result<(), Error>)
      modifies this
      ensures faults.react(c).None? ==> r == Ok(()) && reactions == old(reactions) + [c]
      ensures faults.react(c).Some? ==> r == Err(faults.react(c).value) && reactions == old(reactions)
      ensures messages == old(messages) && disconnected == old(disconnected) && scheduled == old(scheduled)
    {
      var e := faults.react(c);
      if e.Some? {
        return Err(e.value);
      }
      reactions := reactions + [c];
      return Ok(());
    }

    /** `schedule_kaisan`: the kaisan is planned, announced, and only once the
      * announcement is sent, scheduled. */
    method ScheduleKaisan(author: UserId, k: KaisaneeSpecifier, tr: Command.TimeRangeSpecifier,
                          voiceStates: Option<seq<VoiceState>>, now: Instant, tz: Offset, draw: int,
                          faults: Faults)
      returns (r: Result<(), Error>)
      modifies this
      ensures var p := PlanKaisan(author, k, tr, voiceStates, now, tz, draw);
              p.Err? ==> r == Err(p.error) && messages == old(messages) && scheduled == old(scheduled)
      ensures var p := PlanKaisan(author, k, tr, voiceStates, now, tz, draw);
              p.Ok? && faults.message(p.value.1).Some? ==>
                r == Err(faults.message(p.value.1).value) && messages == old(messages) && scheduled == old(scheduled)
      ensures var p := PlanKaisan(author, k, tr, voiceStates, now, tz, draw);
              p.Ok? && faults.message(p.value.1).None? ==>
                r == Ok(()) && messages == old(messages) + [p.value.1] && scheduled == old(scheduled) + [p.value.0]
      ensures reactions == old(reactions) && disconnected == old(disconnected)
    {
      var p := PlanKaisan(author, k, tr, voiceStates, now, tz, draw);
      if p.Err? {
        return Err(p.error);
      }
      var sent := Send(p.value.1, faults);
      if sent.Err? {
        return sent;
      }
      scheduled := scheduled + [p.value.0];
      return Ok(());
    }

    /** `kaisan`: disconnects the targets one by one, stopping at the first failure,
      * then reacts ✅ and names the users disconnected. */
    method Kaisan(author: UserId, ch: ChannelId, k: KaisaneeSpecifier,
                  voiceStates: Option<seq<VoiceState>>, faults: Faults)
      returns (r: Result<(), Error>)
      modifies this
      ensures var o := KaisanOutcome(author, ch, k, voiceStates, faults);
              r == o.result && disconnected == old(disconnected) + o.disconnected
              && reactions == old(reactions) + o.reactions && messages == old(messages) + o.messages
      ensures scheduled == old(scheduled)
    {
      var inUsers := VoiceChannelUsers(voiceStates, ch);
      if inUsers.Err? {
        return Err(inUsers.error);
      }
      var targets := TargetUsers(k, author, inUsers.value);
      r := KaisanTargets(targets, faults);
    }

    /** The part of `kaisan` after the targets are chosen. */
    method KaisanTargets(targets: seq<UserId>, faults: Faults) returns (r: Result<(), Error>)
      modifies this
      ensures var o := TargetsOutcome(targets, faults);
              r == o.result && disconnected == old(disconnected) + o.disconnected
              && reactions == old(reactions) + o.reactions && messages == old(messages) + o.messages
      ensures scheduled == old(scheduled)
    {
      var failed := DisconnectAll(targets, faults);
      if failed.Some? {
        return Err(failed.value);
      }
      var reacted := React(Done, faults);
      if reacted.Err? {
        return reacted;
      }
      if targets != [] {
        var sent := Send(Messages.Kaisan(targets), faults);
        if sent.Err? {
          return sent;
        }
      }
      return Ok(());
    }

    /** Disconnects the targets in order and stops at the first failure, which it
      * returns. */
    method DisconnectAll(targets: seq<UserId>, faults: Faults) returns (failed: Option<Error>)
      modifies this
      ensures var n := Disconnectable(targets, faults);
              disconnected == old(disconnected) + targets[..n]
              && failed == (if n < |targets| then Some(faults.disconnect(targets[n]).value) else None)
      ensures reactions == old(reactions) && messages == old(messages) && scheduled == old(scheduled)
    {
      ghost var n := Disconnectable(targets, faults);
      var i := 0;
      while i < |targets|
        invariant 0 <= i <= |targets| && i <= n
        invariant disconnected == old(disconnected) + targets[..i]
        invariant reactions == old(reactions) && messages == old(messages) && scheduled == old(scheduled)
      {
        var e := faults.disconnect(targets[i]);
        if e.Some? {
          assert i == n;
          return e;
        }
        disconnected := disconnected + [targets[i]];
        i := i + 1;
      }
      assert targets[..i] == targets;
      return None;
    }

    /** The scheduled task once its time comes: it waits what is left until the fire
      * instant (nothing if that has passed), runs the kaisan, and on failure reacts
      * ❌ and reports the error, ignoring whether those two requests succeed. */
    method Fire(job: Job, now: Instant, voiceStates: Option<seq<VoiceState>>, faults: Faults)
      returns (delay: nat)
      modifies this
      ensures delay == if job.fire >= now then job.fire - now else 0
      ensures var o := KaisanOutcome(job.author, job.channel, job.kaisanee, voiceStates, faults);
              disconnected == old(disconnected) + o.disconnected
              && reactions == old(reactions) + o.reactions
                 + (if o.result.Err? && faults.react(Failed).None? then [Failed] else [])
              && messages == old(messages) + o.messages
                 + (if o.result.Err? && faults.message(KaisanError(o.result.error)).None?
                    then [KaisanError(o.result.error)] else [])
      ensures scheduled == old(scheduled)
    {
      delay := if job.fire >= now then job.fire - now else 0;
      var r := Kaisan(job.author, job.channel, job.kaisanee, voiceStates, faults);
      if r.Err? {
        var _ := React(Failed, faults);
        var _ := Send(KaisanError(r.error), faults);
      }
    }
  }

  /** The path of a kaisan with no failures, first half: the command is accepted, the job
    * is scheduled five minutes ahead and announced. */
  method MeScheduleScenario(author: UserId, ch: ChannelId, now: Instant, tz: Offset)
  {
    var faults := Faults(_ => None, _ => None, _ => None);
    var states := [VoiceState(author, Some(ch)), VoiceState(author + 1, Some(ch))];
    var chat := new Chat();
    var tr := Command.RangeAt(After(AfterMinute(5)));
    var r := chat.ScheduleKaisan(author, Me, tr, Some(states), now, tz, 0, faults);
    assert states[0].userId == author;
    assert ConnectedVoiceChannel(Some(states), author) == Ok(Some(ch));
    assert r.Ok? && |chat.scheduled| == 1 && chat.scheduled[0] == Job(author, ch, now + 300, Me);
    assert chat.messages == [Scheduled(CalculatedDateTime(now + 300, now, tz, After(AfterMinute(5)), false), Me)];
    assert chat.reactions == [] && chat.disconnected == [];
  }

  /** Second half: when that job fires, the author alone is disconnected and named, as
    * `Me` asks, although another user shares the channel. */
  method MeFireScenario(author: UserId, ch: ChannelId, now: Instant)
  {
    var faults := Faults(_ => None, _ => None, _ => None);
    var states := [VoiceState(author, Some(ch)), VoiceState(author + 1, Some(ch))];
    var chat := new Chat();
    var delay := chat.Fire(Job(author, ch, now + 300, Me), now, Some(states), faults);
    assert delay == 300;
    assert UsersIn(states[..1], ch) == [author] by {
      assert states[..1][..0] == [];
    }
    assert UsersIn(states, ch) == [author, author + 1] by {
      assert states[..|states| - 1] == states[..1];
    }
    assert chat.disconnected == [author];
    assert chat.reactions == [Done];
    assert chat.messages == [Messages.Kaisan([author])];
  }
}
