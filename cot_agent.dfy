/**
 * The chain-of-thought agent (`CoTAgent` in `cot_agent.py`): the bookkeeping of incoming
 * messages, the behaviour classifier and the moderator tracker that feed the memory store, the
 * one-shot role assignment, and the routing of replies through the "monologue, then final
 * action" flows. Each oracle reply is an input: `Some(text)` when the request succeeds, `None`
 * when it fails.
 */
module CotAgent {
  import opened Wrappers
  import opened Python
  import opened Text
  import opened Collections
  import opened MemoryStore
  import opened AgentRules
  import Patterns
  import Injection

  datatype ChannelType = Direct | Group

  datatype Message = Message(sender: string, channel: string, channelType: ChannelType, text: string)

  /** `direct_messages` holds the notified message objects and, from `async_respond`, bare texts. */
  datatype DirectEntry = Notified(message: Message) | Replied(text: string)

  /** `group_channel_messages` holds the notified message objects and (sender, text) pairs. */
  datatype GroupEntry = Heard(message: Message) | Answered(sender: string, text: string)

  /** `d[k]` of a `defaultdict(list)`. */
  function ListAt<T>(d: map<string, seq<T>>, k: string): seq<T> {
    if k in d then d[k] else []
  }

  /** The action types the four flows hand to `_get_final_action`. */
  const InvestigationLabel := "investigation target"
  const ProtectionLabel := "protection target"
  const EliminationLabel := "elimination target"
  const DiscussionLabel := "discussion contribution or vote"
  /** The action the wolf flow records, which `record_role_action` has no case for. */
  const EliminationAction := "target_for_elimination"
  lemma EliminationActionIgnored()
    ensures EliminationAction != InvestigateAction && EliminationAction != ProtectAction
            && EliminationAction != RevealPackAction
  {
    assert |EliminationAction| == 22;
  }

  /** The thought `async_notify` logs after assigning the role. */
  function AssignedThought(role: string): string {
    "Assigned role: " + role
  }

  /** The thought `_get_final_action` logs. */
  function FinalThought(actionType: string, text: string): string {
    "Final " + actionType + ": " + text
  }

  /** What `_get_llm_response` returns: the reply, or the fixed fallback when the request fails. */
  function OracleText(reply: Option<string>): string {
    reply.GetOr(FallbackReply)
  }

  /** The table after `async_notify`'s first two steps for `msg`: the sender registered and the
      checked text (`analysis` is the analyser's reply) appended to its claims. */
  function SenderRegistered(d: Players, me: string, msg: Message, configPresent: bool, analysis: Option<string>): (r: Players)
    requires d.Valid()
    ensures r.Valid()
  {
    var (cleaned, flagged) := Injection.CheckForInjections(msg.text, configPresent, analysis);
    Registered(d, me, msg.sender, Claim(cleaned, msg.channel), flagged)
  }

  // ---------------------------------------------------------------------
  // What each flow does to the agent's own state
  // ---------------------------------------------------------------------

  /** What a flow leaves behind: its reply, or the exception it raises, and the own state after it. */
  datatype FlowOutcome = FlowOutcome(reply: Raises<string>, state: MyState)

  /** `get_my_state` fails once an investigation is on record, and every monologue begins with it. */
  predicate Locked(s: MyState) {
    s.investigatedPlayers != map[]
  }

  /** The monologue thought and the final-action thought every answering flow logs. */
  function FlowThoughts(s: MyState, actionType: string, monologueReply: Option<string>, actionReply: Option<string>): seq<string> {
    s.thoughtProcess + [OracleText(monologueReply), FinalThought(actionType, OracleText(actionReply))]
  }

  /** The seer flow: raises on a locked state; otherwise answers the stripped action text, logs
      two thoughts and, for a SEER memory, records the investigation of that text with no result. */
  function SeerTurn(s: MyState, myRole: PlayerRole, monologueReply: Option<string>, actionReply: Option<string>): (r: FlowOutcome)
    ensures r.reply.Raised? <==> Locked(s)
    ensures r.reply.Raised? ==> r == FlowOutcome(Raised(AttributeError), s)
    ensures r.reply.Ok? ==> |r.state.thoughtProcess| == |s.thoughtProcess| + 2
  {
    if Locked(s) then FlowOutcome(Raised(AttributeError), s)
    else
      var target := Strip(OracleText(actionReply));
      FlowOutcome(Ok(target), s.(thoughtProcess := FlowThoughts(s, InvestigationLabel, monologueReply, actionReply),
                                 investigatedPlayers := if myRole == Seer then map[target := None] else map[]))
  }

  /** The doctor flow: raises on a locked state; otherwise answers the stripped action text, logs
      two thoughts and, for a DOCTOR memory, appends that text to the protected players. */
  function DoctorTurn(s: MyState, myRole: PlayerRole, monologueReply: Option<string>, actionReply: Option<string>): (r: FlowOutcome)
    ensures r.reply.Raised? <==> Locked(s)
    ensures r.reply.Raised? ==> r == FlowOutcome(Raised(AttributeError), s)
    ensures r.reply.Ok? ==> |r.state.thoughtProcess| == |s.thoughtProcess| + 2
  {
    if Locked(s) then FlowOutcome(Raised(AttributeError), s)
    else
      var target := Strip(OracleText(actionReply));
      FlowOutcome(Ok(target), s.(thoughtProcess := FlowThoughts(s, ProtectionLabel, monologueReply, actionReply),
                                 protectedPlayers := s.protectedPlayers + (if myRole == Doctor then [target] else [])))
  }

  /** The wolf flow: an agent that is not a wolf refuses without looking at its state; a wolf
      raises on a locked state, and otherwise answers the stripped action text and logs two
      thoughts (the action it records is one `record_role_action` ignores). */
  function WolfTurn(s: MyState, role: Option<string>, monologueReply: Option<string>, actionReply: Option<string>): (r: FlowOutcome)
    ensures role != Some(WolfRole) ==> r == FlowOutcome(Ok(WolfRefusal), s)
    ensures role == Some(WolfRole) ==> (r.reply.Raised? <==> Locked(s))
    ensures r.reply.Raised? ==> r == FlowOutcome(Raised(AttributeError), s)
  {
    if role != Some(WolfRole) then FlowOutcome(Ok(WolfRefusal), s)
    else if Locked(s) then FlowOutcome(Raised(AttributeError), s)
    else FlowOutcome(Ok(Strip(OracleText(actionReply))), s.(thoughtProcess := FlowThoughts(s, EliminationLabel, monologueReply, actionReply)))
  }

  /** The discussion flow for the message `text`: raises without a role or on a locked state;
      otherwise answers the stripped action text and logs two thoughts, and when the lower-cased
      message holds "vote" also records the monologue as the justification for that answer,
      with a third thought. */
  function DiscussionTurn(s: MyState, role: Option<string>, text: string, monologueReply: Option<string>, actionReply: Option<string>): (r: FlowOutcome)
    ensures r.reply.Raised? <==> role.None? || Locked(s)
    ensures r.reply.Raised? ==> r == FlowOutcome(Raised(AttributeError), s)
    ensures r.reply.Ok? ==> |r.state.thoughtProcess| == |s.thoughtProcess| + if Contains(Lower(text), VoteKeyword) then 3 else 2
  {
    if role.None? || Locked(s) then FlowOutcome(Raised(AttributeError), s)
    else
      var response := Strip(OracleText(actionReply));
      var thoughts := FlowThoughts(s, DiscussionLabel, monologueReply, actionReply);
      if Contains(Lower(text), VoteKeyword) then
        FlowOutcome(Ok(response), s.(thoughtProcess := thoughts + [VoteThought(response, OracleText(monologueReply))],
                                     voteJustifications := s.voteJustifications[response := OracleText(monologueReply)]))
      else FlowOutcome(Ok(response), s.(thoughtProcess := thoughts))
  }

  /** `async_respond`'s routing on the own state: the moderator's direct message goes to the seer
      or doctor flow by the agent's role, a group message to the discussion or wolf flow by
      channel; every other case leaves `response_message` unbound and changes nothing. */
  function RespondTurn(s: MyState, myRole: PlayerRole, role: Option<string>, msg: Message,
                       monologueReply: Option<string>, actionReply: Option<string>): (r: FlowOutcome)
    ensures r.reply.Raised? ==> r.state == s
    ensures msg.channelType == Direct ==>
              (r.reply == Raised(UnboundLocalError) <==>
                 msg.sender != ModeratorName || (role != Some(SeerRole) && role != Some(DoctorRole)))
    ensures msg.channelType == Group ==>
              (r.reply == Raised(UnboundLocalError) <==> msg.channel != GameChannel && msg.channel != WolfsChannel)
  {
    ChannelsDiffer();
    if msg.channelType == Direct && msg.sender == ModeratorName then
      if role == Some(SeerRole) then SeerTurn(s, myRole, monologueReply, actionReply)
      else if role == Some(DoctorRole) then DoctorTurn(s, myRole, monologueReply, actionReply)
      else FlowOutcome(Raised(UnboundLocalError), s)
    else if msg.channelType == Group then
      if msg.channel == GameChannel then DiscussionTurn(s, role, msg.text, monologueReply, actionReply)
      else if msg.channel == WolfsChannel then WolfTurn(s, role, monologueReply, actionReply)
      else FlowOutcome(Raised(UnboundLocalError), s)
    else FlowOutcome(Raised(UnboundLocalError), s)
  }

  /** Once an investigation is on record, no flow answers again: each raises `AttributeError`
      and leaves the state as it was, except that an agent that is not a wolf still refuses on
      the wolves' channel. */
  lemma LockedFlowsRaise(s: MyState, myRole: PlayerRole, role: Option<string>, text: string,
                         monologueReply: Option<string>, actionReply: Option<string>)
    requires Locked(s)
    ensures SeerTurn(s, myRole, monologueReply, actionReply) == FlowOutcome(Raised(AttributeError), s)
    ensures DoctorTurn(s, myRole, monologueReply, actionReply) == FlowOutcome(Raised(AttributeError), s)
    ensures DiscussionTurn(s, role, text, monologueReply, actionReply) == FlowOutcome(Raised(AttributeError), s)
    ensures WolfTurn(s, role, monologueReply, actionReply)
            == if role == Some(WolfRole) then FlowOutcome(Raised(AttributeError), s) else FlowOutcome(Ok(WolfRefusal), s)
  {
  }

  /** A SEER memory that answers the seer flow locks its state: the investigation is stored with
      no result, and the next snapshot fails. Any other memory stays unlocked. */
  lemma SeerAnswerLocks(s: MyState, myRole: PlayerRole, monologueReply: Option<string>, actionReply: Option<string>)
    ensures var r := SeerTurn(s, myRole, monologueReply, actionReply);
            r.reply.Ok? ==> (Locked(r.state) <==> myRole == Seer)
  {
    var r := SeerTurn(s, myRole, monologueReply, actionReply);
    if r.reply.Ok? && myRole == Seer {
      assert r.reply.value in r.state.investigatedPlayers;
    }
  }

  /** No flow ever unlocks the state. */
  lemma RespondKeepsLock(s: MyState, myRole: PlayerRole, role: Option<string>, msg: Message,
                         monologueReply: Option<string>, actionReply: Option<string>)
    requires Locked(s)
    ensures var r := RespondTurn(s, myRole, role, msg, monologueReply, actionReply);
            && r.state == s
            && (r.reply.Ok? ==> r.reply.value == WolfRefusal && role != Some(WolfRole))
  {
    LockedFlowsRaise(s, myRole, role, msg.text, monologueReply, actionReply);
  }

  /** One request to `async_respond`: the message and the two oracle replies it will get. */
  datatype Request = Request(msg: Message, monologueReply: Option<string>, actionReply: Option<string>)

  /** The replies, and the final own state, of answering `requests` one after the other. */
  datatype Session = Session(replies: seq<Raises<string>>, state: MyState)

  function Replay(s: MyState, myRole: PlayerRole, role: Option<string>, requests: seq<Request>): (r: Session)
    ensures |r.replies| == |requests|
    decreases |requests|
  {
    if requests == [] then Session([], s)
    else
      var q := requests[0];
      var first := RespondTurn(s, myRole, role, q.msg, q.monologueReply, q.actionReply);
      var rest := Replay(first.state, myRole, role, requests[1..]);
      Session([first.reply] + rest.replies, rest.state)
  }

  /** From a locked state, every later request raises or is a refusal on the wolves' channel, and
      the own state never changes again. */
  lemma {:induction false} LockedForever(s: MyState, myRole: PlayerRole, role: Option<string>, requests: seq<Request>)
    requires Locked(s)
    ensures var r := Replay(s, myRole, role, requests);
            && r.state == s
            && forall i :: 0 <= i < |requests| && r.replies[i].Ok? ==>
                 r.replies[i].value == WolfRefusal && role != Some(WolfRole)
    decreases |requests|
  {
    if requests != [] {
      var q := requests[0];
      RespondKeepsLock(s, myRole, role, q.msg, q.monologueReply, q.actionReply);
      LockedForever(s, myRole, role, requests[1..]);
      var r := Replay(s, myRole, role, requests);
      var rest := Replay(s, myRole, role, requests[1..]);
      assert forall i :: 1 <= i < |requests| ==> r.replies[i] == rest.replies[i - 1];
    }
  }

  /** A seer answers the moderator once: after its first investigation every later request to
      `async_respond` raises, or is a refusal on the wolves' channel. */
  lemma SeerAnswersOnce(s: MyState, msg: Message, monologueReply: Option<string>, actionReply: Option<string>,
                        later: seq<Request>)
    requires msg.channelType == Direct && msg.sender == ModeratorName
    requires RespondTurn(s, Seer, Some(SeerRole), msg, monologueReply, actionReply).reply.Ok?
    ensures var after := RespondTurn(s, Seer, Some(SeerRole), msg, monologueReply, actionReply).state;
            forall i :: 0 <= i < |later| && Replay(after, Seer, Some(SeerRole), later).replies[i].Ok? ==>
              Replay(after, Seer, Some(SeerRole), later).replies[i].value == WolfRefusal
  {
    SeerAnswerLocks(s, Seer, monologueReply, actionReply);
    var after := RespondTurn(s, Seer, Some(SeerRole), msg, monologueReply, actionReply).state;
    LockedForever(after, Seer, Some(SeerRole), later);
  }

  class CoTAgent {
    const name: string
    const memory: MemoryStorer
    var role: Option<string>
    var directMessages: map<string, seq<DirectEntry>>
    var groupChannelMessages: map<string, seq<GroupEntry>>
    var gameHistory: seq<string>

    ghost predicate Valid()
      reads this, memory
    {
      memory.Valid() && memory.myName == name
    }

    /** `__initialize__`: no role yet, empty logs and a fresh memory store for this name. */
    constructor (name: string)
      ensures Valid() && this.name == name && fresh(memory)
      ensures role.None? && directMessages == map[] && groupChannelMessages == map[] && gameHistory == []
      ensures memory.players == EmptyDict() && memory.myState == DefaultMyState()
      ensures memory.myRole == Unknown && !memory.configPresent
    {
      this.name := name;
      memory := new MemoryStorer(name);
      role := None;
      directMessages := map[];
      groupChannelMessages := map[];
      gameHistory := [];
    }

    // -------------------------------------------------------------------
    // _analyze_message_for_behavior
    // -------------------------------------------------------------------

    /** The vote rule on the lower-cased `content`. */
    method VoteRule(sender: string, content: string)
      requires Valid()
      modifies memory`players, memory`myState
      ensures Valid()
      ensures memory.players.keys == old(memory.players.keys)
      ensures memory.players.entries == match VoteRuleTarget(content)
                case Some(t) => Voted(old(memory.players.entries), sender, t)
                case None => old(memory.players.entries)
      ensures memory.myState == old(memory.myState).(behavioralNotes :=
                AddNotes(old(memory.myState.behavioralNotes), sender, VoteNotes(content)))
    {
      if Contains(content, VoteKeyword) {
        var voteMatch := Patterns.VoteTarget(content);
        if voteMatch.Some? {
          var target := voteMatch.value;
          memory.RecordVote(sender, target);
          memory.AddBehavioralNote(sender, VoteNote(target));
        }
      }
    }

    /** The accusation rule on the lower-cased `content`: one pass over the alive players. */
    method AccusationRule(sender: string, content: string)
      requires Valid()
      modifies memory`players, memory`myState
      ensures Valid()
      ensures memory.players.keys == old(memory.players.keys)
      ensures var alive := AliveAmong(old(memory.players.keys), old(memory.players.entries));
              && memory.players.entries == (if Accuses(content) then AccuseAll(old(memory.players.entries), Accused(alive, content))
                                            else old(memory.players.entries))
              && memory.myState == old(memory.myState).(behavioralNotes :=
                   AddNotes(old(memory.myState.behavioralNotes), sender, AccuseNotes(content, alive)))
    {
      if Accuses(content) {
        var alive := memory.GetAlivePlayers();
        ghost var e0 := memory.players.entries;
        ghost var s0 := memory.myState;
        ghost var accused: seq<string> := [];
        var i := 0;
        while i < |alive|
          invariant 0 <= i <= |alive|
          invariant memory.Valid() && memory.myName == name
          invariant memory.players.keys == old(memory.players.keys)
          invariant accused == Accused(alive[..i], content)
          invariant memory.players.entries == AccuseAll(e0, accused)
          invariant memory.myState == s0.(behavioralNotes := AddNotes(s0.behavioralNotes, sender, AccusationNotes(accused)))
        {
          accused := AccuseStep(sender, content, alive, i, e0, s0, accused);
          i := i + 1;
        }
        assert alive[..|alive|] == alive;
      }
    }

    /** The body of the accusation loop for the alive player `alive[i]`: when the text names
        them, their score goes up by 0.2 and one note is filed under the sender; otherwise
        nothing changes. `accused` are the players named so far (ghost bookkeeping). */
    method AccuseStep(sender: string, content: string, alive: seq<string>, i: nat,
                      ghost e0: map<string, PlayerState>, ghost s0: MyState, ghost accused: seq<string>)
      returns (ghost accused': seq<string>)
      requires Valid() && i < |alive| && s0.behavioralNotes.Valid()
      requires accused == Accused(alive[..i], content)
      requires memory.players.entries == AccuseAll(e0, accused)
      requires memory.myState == s0.(behavioralNotes := AddNotes(s0.behavioralNotes, sender, AccusationNotes(accused)))
      modifies memory`players, memory`myState
      ensures Valid()
      ensures memory.players.keys == old(memory.players.keys)
      ensures accused' == Accused(alive[..i + 1], content)
      ensures memory.players.entries == AccuseAll(e0, accused')
      ensures memory.myState == s0.(behavioralNotes := AddNotes(s0.behavioralNotes, sender, AccusationNotes(accused')))
    {
      var player := alive[i];
      AccusedSnoc(alive, i, content);
      AccuseOneMore(e0, s0.behavioralNotes, sender, accused, player);
      if Contains(content, Lower(player)) {
        memory.UpdateSuspicionScore(player, 0.2);
        memory.AddBehavioralNote(sender, AccusationNote(player));
        accused' := accused + [player];
      } else {
        accused' := accused;
      }
    }

    /** The defensive rule on the lower-cased `content`. */
    method DefensiveRule(sender: string, content: string)
      requires Valid()
      modifies memory`players, memory`myState
      ensures Valid()
      ensures memory.players.keys == old(memory.players.keys)
      ensures memory.players.entries == (if Defends(sender, content) then AddScore(old(memory.players.entries), sender, 0.1)
                                         else old(memory.players.entries))
      ensures memory.myState == old(memory.myState).(behavioralNotes :=
                AddNotes(old(memory.myState.behavioralNotes), sender, DefenseNotes(sender, content)))
    {
      if Defends(sender, content) {
        memory.AddBehavioralNote(sender, DefensiveNote);
        memory.UpdateSuspicionScore(sender, 0.1);
      }
    }

    /** `_analyze_message_for_behavior`: the three rules, in order, on the lower-cased text. The
        sender's notes grow by exactly `BehaviorNotes`, and the player table becomes
        `BehaviorEffect` of the old one (see `ClassifierScores` for what that does to each score). */
    method AnalyzeMessageForBehavior(sender: string, text: string)
      requires Valid()
      modifies memory`players, memory`myState
      ensures Valid()
      ensures memory.players.keys == old(memory.players.keys)
      ensures var content, alive := Lower(text), AliveAmong(old(memory.players.keys), old(memory.players.entries));
              && memory.players.entries == BehaviorEffect(old(memory.players.entries), sender, content, alive)
              && memory.myState == old(memory.myState).(behavioralNotes :=
                   AddNotes(old(memory.myState.behavioralNotes), sender, BehaviorNotes(sender, content, alive)))
    {
      ghost var keys0, e0, notes0 := memory.players.keys, memory.players.entries, memory.myState.behavioralNotes;
      var content := Lower(text);
      VoteRule(sender, content);
      match VoteRuleTarget(content) {
        case Some(t) => VotedKeepsAlive(keys0, e0, sender, t);
        case None =>
      }
      AccusationRule(sender, content);
      DefensiveRule(sender, content);
      ghost var alive := AliveAmong(keys0, e0);
      AddNotesTwice(notes0, sender, VoteNotes(content), AccuseNotes(content, alive));
      AddNotesTwice(notes0, sender, VoteNotes(content) + AccuseNotes(content, alive), DefenseNotes(sender, content));
    }

    // -------------------------------------------------------------------
    // _process_moderator_message
    // -------------------------------------------------------------------

    /** The elimination half of `_process_moderator_message`, on the lower-cased `content`. */
    method TrackElimination(content: string)
      requires Valid()
      modifies memory`players, memory`myState
      ensures Valid()
      ensures memory.myState == old(memory.myState).(keyEvents := old(memory.myState.keyEvents) + EliminationEvents(content))
      ensures memory.players.keys == old(memory.players.keys)
      ensures memory.players.entries == Eliminated(old(memory.players.entries), content)
    {
      var deathMatch := Patterns.EliminatedPlayer(content);
      if deathMatch.Some? {
        var deadPlayer := deathMatch.value;
        memory.MarkPlayerDead(deadPlayer);
        memory.RecordKeyEvent(EliminationType, EliminationNote(deadPlayer), [deadPlayer]);
      }
    }

    /** The phase switch of `_process_moderator_message`, on the lower-cased `content`. */
    method TrackPhase(content: string)
      requires Valid()
      modifies memory`myState, memory`isNight, memory`dayCount, memory`nightCount
      ensures Valid()
      ensures memory.myState == old(memory.myState).(keyEvents := old(memory.myState.keyEvents) + PhaseEvents(content))
      ensures Clock(memory.isNight, memory.dayCount, memory.nightCount)
              == PhaseStep(Clock(old(memory.isNight), old(memory.dayCount), old(memory.nightCount)), content)
    {
      if Contains(content, NightCue) {
        memory.isNight := true;
        memory.nightCount := memory.nightCount + 1;
        memory.RecordKeyEvent(PhaseChangeType, NightBegan, []);
      } else if Contains(content, DayCue) {
        memory.isNight := false;
        memory.dayCount := memory.dayCount + 1;
        memory.RecordKeyEvent(PhaseChangeType, DayBegan, []);
      }
    }

    /** `_process_moderator_message`: on the lower-cased text, an elimination marks the named
        player dead and is logged; then "night phase" starts a night, or else "day phase" starts a
        day, each logged once; nothing else changes. */
    method ProcessModeratorMessage(text: string)
      requires Valid()
      modifies memory`players, memory`myState, memory`isNight, memory`dayCount, memory`nightCount
      ensures Valid()
      ensures memory.myState == old(memory.myState).(keyEvents := old(memory.myState.keyEvents) + ModeratorEvents(Lower(text)))
      ensures memory.players.keys == old(memory.players.keys)
      ensures memory.players.entries == Eliminated(old(memory.players.entries), Lower(text))
      ensures Clock(memory.isNight, memory.dayCount, memory.nightCount)
              == PhaseStep(Clock(old(memory.isNight), old(memory.dayCount), old(memory.nightCount)), Lower(text))
    {
      var content := Lower(text);
      ghost var c0 := Clock(memory.isNight, memory.dayCount, memory.nightCount);
      ghost var s0 := memory.myState;
      TrackElimination(content);
      assert Clock(memory.isNight, memory.dayCount, memory.nightCount) == c0;
      assert memory.myState == s0.(keyEvents := s0.keyEvents + EliminationEvents(content));
      TrackPhase(content);
      AppendAssoc(s0.keyEvents, EliminationEvents(content), PhaseEvents(content));
    }

    // -------------------------------------------------------------------
    // async_notify
    // -------------------------------------------------------------------

    /** `async_notify(message)`: the sender is registered and the (checked) text is added to its
        claims (`SenderRegistered`); a direct message is filed, and the first one the moderator
        sends assigns the role from the oracle's guess (`roleReply`); a group message is filed,
        classified, tracked when the moderator sent it, and logged. `analysis` is the injection
        analyser's reply. A guess of "wolf" sets the role and then raises `ValueError` before
        the memory learns it. */
    method AsyncNotify(msg: Message, analysis: Option<string>, roleReply: Option<string>) returns (outcome: Raises<()>)
      requires Valid()
      modifies this`role, this`directMessages, this`groupChannelMessages, this`gameHistory, memory`players, memory`myState, memory`myRole, memory`isNight, memory`dayCount, memory`nightCount
      ensures Valid()
      ensures msg.channelType == Direct ==>
                && (msg.sender != name ==> msg.sender in memory.players.entries)
                && (msg.sender != name ==>
                      memory.GetPlayerClaims(msg.sender) == old(memory.GetPlayerClaims(msg.sender))
                        + [Claim(Injection.CheckForInjections(msg.text, memory.configPresent, analysis).0, msg.channel)])
                && memory.players == SenderRegistered(old(memory.players), name, msg, memory.configPresent, analysis)
                && directMessages == old(directMessages)[msg.sender := ListAt(old(directMessages), msg.sender) + [Notified(msg)]]
                && groupChannelMessages == old(groupChannelMessages)
                && gameHistory == old(gameHistory)
                && Clock(memory.isNight, memory.dayCount, memory.nightCount)
                   == Clock(old(memory.isNight), old(memory.dayCount), old(memory.nightCount))
      ensures msg.channelType == Direct ==>
                var assigns := msg.sender == ModeratorName && ListAt(old(directMessages), msg.sender) == [];
                && (assigns ==> role == Some(DecideRole(roleReply)))
                && (!assigns ==> role == old(role) && memory.myRole == old(memory.myRole))
                && (outcome.Raised? <==> assigns && DecideRole(roleReply) == WolfRole)
                && (assigns && outcome.Ok? ==>
                      && RoleFromValue(DecideRole(roleReply)) == Some(memory.myRole)
                      && memory.myState == old(memory.myState).(thoughtProcess := old(memory.myState.thoughtProcess)
                           + [RoleSetThought(DecideRole(roleReply)), AssignedThought(DecideRole(roleReply))]))
                && (!assigns || outcome.Raised? ==> memory.myState == old(memory.myState))
                && (outcome.Raised? ==> outcome.error == ValueError && memory.myRole == old(memory.myRole))
      ensures msg.channelType == Group ==>
                var registered := SenderRegistered(old(memory.players), name, msg, memory.configPresent, analysis);
                && outcome == Ok(())
                && role == old(role) && memory.myRole == old(memory.myRole)
                && (msg.sender != name ==> msg.sender in memory.players.entries)
                && (msg.sender != name ==>
                      memory.GetPlayerClaims(msg.sender) == old(memory.GetPlayerClaims(msg.sender))
                        + [Claim(Injection.CheckForInjections(msg.text, memory.configPresent, analysis).0, msg.channel)])
                && memory.players.keys == registered.keys
                && memory.players.entries == GroupEffect(registered.keys, registered.entries, msg.sender, msg.text)
                && memory.myState == HeardState(old(memory.myState), registered, msg.sender, msg.text)
                && Clock(memory.isNight, memory.dayCount, memory.nightCount)
                   == HeardClock(Clock(old(memory.isNight), old(memory.dayCount), old(memory.nightCount)), msg.sender, msg.text)
                && groupChannelMessages == old(groupChannelMessages)[msg.channel := ListAt(old(groupChannelMessages), msg.channel) + [Heard(msg)]]
                && directMessages == old(directMessages)
                && gameHistory == old(gameHistory) + [HeardEntry(msg.sender, msg.text)]
    {
      if msg.channelType == Direct {
        outcome := NotifyDirect(msg, analysis, roleReply);
      } else {
        NotifyGroup(msg, analysis);
        outcome := Ok(());
      }
    }

    /** `async_notify` for a direct message: the registration, then `FileDirect`. */
    method NotifyDirect(msg: Message, analysis: Option<string>, roleReply: Option<string>) returns (outcome: Raises<()>)
      requires Valid() && msg.channelType == Direct
      modifies this`directMessages, this`role, memory`players, memory`myRole, memory`myState
      ensures Valid()
      ensures memory.players == SenderRegistered(old(memory.players), name, msg, memory.configPresent, analysis)
      ensures msg.sender != name ==> msg.sender in memory.players.entries
      ensures msg.sender != name ==>
                memory.GetPlayerClaims(msg.sender) == old(memory.GetPlayerClaims(msg.sender))
                  + [Claim(Injection.CheckForInjections(msg.text, memory.configPresent, analysis).0, msg.channel)]
      ensures directMessages == old(directMessages)[msg.sender := ListAt(old(directMessages), msg.sender) + [Notified(msg)]]
      ensures var assigns := msg.sender == ModeratorName && ListAt(old(directMessages), msg.sender) == [];
              && (assigns ==> role == Some(DecideRole(roleReply)))
              && (!assigns ==> role == old(role) && memory.myRole == old(memory.myRole))
              && (outcome.Raised? <==> assigns && DecideRole(roleReply) == WolfRole)
              && (assigns && outcome.Ok? ==>
                    && RoleFromValue(DecideRole(roleReply)) == Some(memory.myRole)
                    && memory.myState == old(memory.myState).(thoughtProcess := old(memory.myState.thoughtProcess)
                         + [RoleSetThought(DecideRole(roleReply)), AssignedThought(DecideRole(roleReply))]))
              && (!assigns || outcome.Raised? ==> memory.myState == old(memory.myState))
      ensures outcome.Raised? ==> outcome.error == ValueError && memory.myRole == old(memory.myRole)
    {
      RegisterSender(msg, analysis);
      outcome := FileDirect(msg, roleReply);
    }

    /** `async_notify` for a group message: the registration, then `FileGroup` on the table it
        leaves, so the classifier already counts a newcomer among the alive players. */
    method NotifyGroup(msg: Message, analysis: Option<string>)
      requires Valid() && msg.channelType == Group
      modifies this`groupChannelMessages, this`gameHistory, memory`players, memory`myState,
               memory`isNight, memory`dayCount, memory`nightCount
      ensures Valid()
      ensures var registered := SenderRegistered(old(memory.players), name, msg, memory.configPresent, analysis);
              && memory.players.keys == registered.keys
              && memory.players.entries == GroupEffect(registered.keys, registered.entries, msg.sender, msg.text)
              && memory.myState == HeardState(old(memory.myState), registered, msg.sender, msg.text)
      ensures Clock(memory.isNight, memory.dayCount, memory.nightCount)
              == HeardClock(Clock(old(memory.isNight), old(memory.dayCount), old(memory.nightCount)), msg.sender, msg.text)
      ensures msg.sender != name ==> msg.sender in memory.players.entries
      ensures msg.sender != name ==>
                memory.GetPlayerClaims(msg.sender) == old(memory.GetPlayerClaims(msg.sender))
                  + [Claim(Injection.CheckForInjections(msg.text, memory.configPresent, analysis).0, msg.channel)]
      ensures groupChannelMessages == old(groupChannelMessages)[msg.channel := ListAt(old(groupChannelMessages), msg.channel) + [Heard(msg)]]
      ensures gameHistory == old(gameHistory) + [HeardEntry(msg.sender, msg.text)]
    {
      RegisterSender(msg, analysis);
      ghost var registered := memory.players;
      FileGroup(msg);
      if msg.sender != name {
        GroupEffectKeepsClaims(registered, msg.sender, msg.text, msg.sender);
        assert memory.GetPlayerClaims(msg.sender) == registered.entries[msg.sender].claims;
      }
    }

    /** The first two steps of `async_notify`: the table becomes `SenderRegistered` of the old one,
        so the sender (unless it is the agent itself) is registered and has the checked text
        appended to its claims. */
    method RegisterSender(msg: Message, analysis: Option<string>)
      requires Valid()
      modifies memory`players
      ensures Valid()
      ensures memory.players == SenderRegistered(old(memory.players), name, msg, memory.configPresent, analysis)
      ensures msg.sender != name ==> msg.sender in memory.players.entries
      ensures msg.sender != name ==>
                memory.GetPlayerClaims(msg.sender) == old(memory.GetPlayerClaims(msg.sender))
                  + [Claim(Injection.CheckForInjections(msg.text, memory.configPresent, analysis).0, msg.channel)]
    {
      ghost var d0 := memory.players;
      memory.InitializePlayer(msg.sender);
      memory.AddClaim(msg.sender, msg.text, msg.channel, analysis);
      ghost var (cleaned, flagged) := Injection.CheckForInjections(msg.text, memory.configPresent, analysis);
      RegisteredEffect(d0, name, msg.sender, Claim(cleaned, msg.channel), flagged);
    }

    /** The direct-message half of `async_notify` after the registration: the message is filed
        under its sender, and the moderator's first one assigns the role. */
    method FileDirect(msg: Message, roleReply: Option<string>) returns (outcome: Raises<()>)
      requires Valid() && msg.channelType == Direct
      modifies this`directMessages, this`role, memory`myRole, memory`myState
      ensures Valid()
      ensures directMessages == old(directMessages)[msg.sender := ListAt(old(directMessages), msg.sender) + [Notified(msg)]]
      ensures var assigns := msg.sender == ModeratorName && ListAt(old(directMessages), msg.sender) == [];
              && (assigns ==> role == Some(DecideRole(roleReply)))
              && (!assigns ==> role == old(role) && memory.myState == old(memory.myState))
              && (outcome.Raised? <==> assigns && DecideRole(roleReply) == WolfRole)
              && (assigns && outcome.Ok? ==>
                    && RoleFromValue(DecideRole(roleReply)) == Some(memory.myRole)
                    && memory.myState == old(memory.myState).(thoughtProcess := old(memory.myState.thoughtProcess)
                         + [RoleSetThought(DecideRole(roleReply)), AssignedThought(DecideRole(roleReply))]))
              && (!assigns ==> memory.myRole == old(memory.myRole))
      ensures outcome.Raised? ==> outcome.error == ValueError && memory.myRole == old(memory.myRole)
                                  && memory.myState == old(memory.myState)
    {
      directMessages := directMessages[msg.sender := ListAt(directMessages, msg.sender) + [Notified(msg)]];
      var userMessages := directMessages[msg.sender];
      if !(|userMessages| > 1) && msg.sender == ModeratorName {
        outcome := AssignRole(roleReply);
      } else {
        outcome := Ok(());
      }
    }

    /** The role assignment on the moderator's first direct message: the oracle's guess becomes
        the agent's role; a guess of "wolf" then raises `ValueError` before the memory learns it. */
    method AssignRole(roleReply: Option<string>) returns (outcome: Raises<()>)
      requires Valid()
      modifies this`role, memory`myRole, memory`myState
      ensures Valid()
      ensures role == Some(DecideRole(roleReply))
      ensures outcome.Raised? <==> DecideRole(roleReply) == WolfRole
      ensures outcome.Raised? ==> outcome.error == ValueError && memory.myRole == old(memory.myRole)
                                  && memory.myState == old(memory.myState)
      ensures outcome.Ok? ==>
                && RoleFromValue(DecideRole(roleReply)) == Some(memory.myRole)
                && memory.myState == old(memory.myState).(thoughtProcess := old(memory.myState.thoughtProcess)
                     + [RoleSetThought(DecideRole(roleReply)), AssignedThought(DecideRole(roleReply))])
    {
      var guess := DecideRole(roleReply);
      role := Some(guess);
      DecidedRoleAsPlayerRole(roleReply);
      var parsed := RoleFromValue(Lower(guess));
      if parsed.None? {
        return Raised(ValueError);
      }
      memory.UpdateMyRole(parsed.value);
      memory.AddThoughtProcess(AssignedThought(guess));
      return Ok(());
    }

    /** The group-message half of `async_notify` after the registration: the message is filed
        under its channel, classified, tracked when the moderator sent it, and appended to the
        history. */
    method FileGroup(msg: Message)
      requires Valid()
      modifies this`groupChannelMessages, this`gameHistory, memory`players, memory`myState,
               memory`isNight, memory`dayCount, memory`nightCount
      ensures Valid()
      ensures groupChannelMessages == old(groupChannelMessages)[msg.channel := ListAt(old(groupChannelMessages), msg.channel) + [Heard(msg)]]
      ensures gameHistory == old(gameHistory) + [HeardEntry(msg.sender, msg.text)]
      ensures memory.myState == HeardState(old(memory.myState), old(memory.players), msg.sender, msg.text)
      ensures memory.players.keys == old(memory.players.keys)
      ensures memory.players.entries == GroupEffect(old(memory.players.keys), old(memory.players.entries), msg.sender, msg.text)
      ensures Clock(memory.isNight, memory.dayCount, memory.nightCount)
              == HeardClock(Clock(old(memory.isNight), old(memory.dayCount), old(memory.nightCount)), msg.sender, msg.text)
    {
      groupChannelMessages := groupChannelMessages[msg.channel := ListAt(groupChannelMessages, msg.channel) + [Heard(msg)]];
      AnalyzeMessageForBehavior(msg.sender, msg.text);
      if msg.sender == ModeratorName {
        ProcessModeratorMessage(msg.text);
      }
      gameHistory := gameHistory + [HeardEntry(msg.sender, msg.text)];
    }

    // -------------------------------------------------------------------
    // The "monologue, then final action" pipeline
    // -------------------------------------------------------------------

    /** `_get_inner_monologue`: the state snapshot comes first, and it raises once an
        investigation is recorded; otherwise the oracle's text is logged verbatim and returned. */
    method GetInnerMonologue(reply: Option<string>) returns (r: Raises<string>)
      requires Valid()
      modifies memory`myState
      ensures Valid()
      ensures r.Raised? <==> old(memory.myState.investigatedPlayers) != map[]
      ensures r.Raised? ==> r.error == AttributeError && memory.myState == old(memory.myState)
      ensures r.Ok? ==> r.value == OracleText(reply)
                        && memory.myState == old(memory.myState).(thoughtProcess := old(memory.myState.thoughtProcess) + [r.value])
    {
      var snapshot := memory.GetMyState();
      if snapshot.Raised? {
        return Raised(snapshot.error);
      }
      var response := OracleText(reply);
      memory.AddThoughtProcess(response);
      return Ok(response);
    }

    /** `_get_final_action`: logs "Final <type>: <text>" and returns the text stripped. */
    method GetFinalAction(actionType: string, reply: Option<string>) returns (action: string)
      requires Valid()
      modifies memory`myState
      ensures Valid()
      ensures action == Strip(OracleText(reply))
      ensures memory.myState == old(memory.myState).(thoughtProcess :=
                old(memory.myState.thoughtProcess) + [FinalThought(actionType, OracleText(reply))])
    {
      var response := OracleText(reply);
      memory.AddThoughtProcess(FinalThought(actionType, response));
      return Strip(response);
    }

    /** `_get_response_for_seer_guess`: the stored checks are always empty, so what remains is
        `SeerTurn`: two thoughts, and the investigation recorded (with no result) for a SEER memory. */
    method SeerFlow(monologueReply: Option<string>, actionReply: Option<string>) returns (r: Raises<string>)
      requires Valid()
      modifies memory`myState
      ensures Valid()
      ensures FlowOutcome(r, memory.myState) == SeerTurn(old(memory.myState), memory.myRole, monologueReply, actionReply)
      ensures r.Ok? && memory.myRole == Seer ==> memory.GetMyState().Raised?
    {
      ghost var s0 := memory.myState;
      var monologue := GetInnerMonologue(monologueReply);
      if monologue.Raised? {
        return Raised(monologue.error);
      }
      var action := GetFinalAction(InvestigationLabel, actionReply);
      assert memory.myState == s0.(thoughtProcess := FlowThoughts(s0, InvestigationLabel, monologueReply, actionReply));
      ActionTypesDiffer();
      memory.RecordRoleAction(action, InvestigateAction, None);
      r := Ok(action);
      assert memory.myState == SeerTurn(s0, memory.myRole, monologueReply, actionReply).state;
    }

    /** `_get_response_for_doctors_save`: `DoctorTurn`, two thoughts and the protection appended
        for a DOCTOR memory. */
    method DoctorFlow(monologueReply: Option<string>, actionReply: Option<string>) returns (r: Raises<string>)
      requires Valid()
      modifies memory`myState
      ensures Valid()
      ensures FlowOutcome(r, memory.myState) == DoctorTurn(old(memory.myState), memory.myRole, monologueReply, actionReply)
    {
      ghost var s0 := memory.myState;
      var monologue := GetInnerMonologue(monologueReply);
      if monologue.Raised? {
        return Raised(monologue.error);
      }
      var action := GetFinalAction(ProtectionLabel, actionReply);
      assert memory.myState == s0.(thoughtProcess := FlowThoughts(s0, ProtectionLabel, monologueReply, actionReply));
      ActionTypesDiffer();
      memory.RecordRoleAction(action, ProtectAction, None);
      r := Ok(action);
      assert memory.myState == DoctorTurn(s0, memory.myRole, monologueReply, actionReply).state;
    }

    /** `_get_response_for_wolf_channel_to_kill_villagers`: `WolfTurn`; an agent that is not a
        wolf refuses without consulting the oracle, and the action a wolf records
        ("target_for_elimination") is one `record_role_action` ignores. */
    method WolfFlow(monologueReply: Option<string>, actionReply: Option<string>) returns (r: Raises<string>)
      requires Valid()
      modifies memory`myState
      ensures Valid()
      ensures FlowOutcome(r, memory.myState) == WolfTurn(old(memory.myState), role, monologueReply, actionReply)
    {
      if role != Some(WolfRole) {
        return Ok(WolfRefusal);
      }
      ghost var s0 := memory.myState;
      var monologue := GetInnerMonologue(monologueReply);
      if monologue.Raised? {
        return Raised(monologue.error);
      }
      var target := GetFinalAction(EliminationLabel, actionReply);
      assert memory.myState == s0.(thoughtProcess := FlowThoughts(s0, EliminationLabel, monologueReply, actionReply));
      EliminationActionIgnored();
      memory.RecordRoleAction(target, EliminationAction, None);
      r := Ok(target);
      assert memory.myState == WolfTurn(s0, role, monologueReply, actionReply).state;
    }

    /** `_get_discussion_message_or_vote_response_for_common_room`: `DiscussionTurn`; it raises at
        once without a role, before the monologue is asked for. */
    method DiscussionFlow(text: string, monologueReply: Option<string>, actionReply: Option<string>) returns (r: Raises<string>)
      requires Valid()
      modifies memory`myState
      ensures Valid()
      ensures FlowOutcome(r, memory.myState) == DiscussionTurn(old(memory.myState), role, text, monologueReply, actionReply)
    {
      if role.None? {
        return Raised(AttributeError);
      }
      ghost var s0 := memory.myState;
      var monologue := GetInnerMonologue(monologueReply);
      if monologue.Raised? {
        return Raised(monologue.error);
      }
      var response := GetFinalAction(DiscussionLabel, actionReply);
      ghost var thoughts := FlowThoughts(s0, DiscussionLabel, monologueReply, actionReply);
      assert memory.myState == s0.(thoughtProcess := thoughts);
      if Contains(Lower(text), VoteKeyword) {
        memory.RecordVoteJustification(response, monologue.value);
        assert memory.myState == s0.(thoughtProcess := thoughts + [VoteThought(response, OracleText(monologueReply))],
                                     voteJustifications := s0.voteJustifications[response := OracleText(monologueReply)]);
      }
      r := Ok(response);
      assert memory.myState == DiscussionTurn(s0, role, text, monologueReply, actionReply).state;
    }

    // -------------------------------------------------------------------
    // async_respond
    // -------------------------------------------------------------------

    /** `async_respond(message)`: the reply and the new own state are `RespondTurn` of the old
        one; a moderator's direct message is filed as text, a group message as a (sender, text)
        pair, and both halves of an answered exchange are logged. `response_message` stays
        unbound, and the call raises `UnboundLocalError`, for a direct message from anyone else
        (nothing changes), for a moderator's direct message to an agent that is neither seer nor
        doctor (after filing it), and for a group message on an unknown channel (after filing it
        and logging the incoming half). */
    method AsyncRespond(msg: Message, monologueReply: Option<string>, actionReply: Option<string>) returns (outcome: Raises<string>)
      requires Valid()
      modifies this, memory`myState
      ensures Valid()
      ensures role == old(role)
      ensures FlowOutcome(outcome, memory.myState)
              == RespondTurn(old(memory.myState), memory.myRole, role, msg, monologueReply, actionReply)
      ensures msg.channelType == Direct && msg.sender != ModeratorName ==>
                && directMessages == old(directMessages) && groupChannelMessages == old(groupChannelMessages)
                && gameHistory == old(gameHistory)
      ensures msg.channelType == Direct && msg.sender == ModeratorName ==>
                && directMessages == old(directMessages)[msg.sender := ListAt(old(directMessages), msg.sender) + [Replied(msg.text)]]
                && groupChannelMessages == old(groupChannelMessages)
                && (outcome.Raised? ==> gameHistory == old(gameHistory))
                && (outcome.Ok? ==>
                      gameHistory == old(gameHistory)
                        + [DirectInEntry(msg.sender, name, msg.text), DirectOutEntry(name, msg.sender, outcome.value)])
      ensures msg.channelType == Group ==>
                && groupChannelMessages == old(groupChannelMessages)[msg.channel := ListAt(old(groupChannelMessages), msg.channel) + [Answered(msg.sender, msg.text)]]
                && directMessages == old(directMessages)
                && (outcome == Raised(UnboundLocalError) ==>
                      gameHistory == old(gameHistory) + [GroupInEntry(msg.sender, name, msg.channel, msg.text)])
                && (outcome == Raised(AttributeError) ==> gameHistory == old(gameHistory))
                && (outcome.Ok? ==>
                      gameHistory == old(gameHistory) + [GroupInEntry(msg.sender, name, msg.channel, msg.text),
                                                         GroupOutEntry(name, msg.sender, msg.channel, outcome.value)])
    {
      if msg.channelType == Direct && msg.sender == ModeratorName {
        outcome := RespondDirect(msg, monologueReply, actionReply);
      } else if msg.channelType == Group {
        outcome := RespondGroup(msg, monologueReply, actionReply);
      } else {
        outcome := Raised(UnboundLocalError);
      }
    }

    /** The moderator's direct message in `async_respond`: it is filed, the seer flow answers a
        seer and the doctor flow a doctor (as `RespondTurn` routes), and both halves of the
        exchange are logged; any other role leaves `response_message` unbound. */
    method RespondDirect(msg: Message, monologueReply: Option<string>, actionReply: Option<string>) returns (outcome: Raises<string>)
      requires Valid() && msg.channelType == Direct && msg.sender == ModeratorName
      modifies this`directMessages, this`gameHistory, memory`myState
      ensures Valid()
      ensures directMessages == old(directMessages)[msg.sender := ListAt(old(directMessages), msg.sender) + [Replied(msg.text)]]
      ensures role == Some(SeerRole) ==>
                FlowOutcome(outcome, memory.myState) == SeerTurn(old(memory.myState), memory.myRole, monologueReply, actionReply)
      ensures role == Some(DoctorRole) ==>
                FlowOutcome(outcome, memory.myState) == DoctorTurn(old(memory.myState), memory.myRole, monologueReply, actionReply)
      ensures role != Some(SeerRole) && role != Some(DoctorRole) ==>
                outcome == Raised(UnboundLocalError) && memory.myState == old(memory.myState)
      ensures outcome.Raised? ==> gameHistory == old(gameHistory)
      ensures outcome.Ok? ==>
                gameHistory == old(gameHistory)
                  + [DirectInEntry(msg.sender, name, msg.text), DirectOutEntry(name, msg.sender, outcome.value)]
    {
      directMessages := directMessages[msg.sender := ListAt(directMessages, msg.sender) + [Replied(msg.text)]];
      if role == Some(SeerRole) {
        outcome := AnswerAsSeer(msg, monologueReply, actionReply);
      } else if role == Some(DoctorRole) {
        outcome := AnswerAsDoctor(msg, monologueReply, actionReply);
      } else {
        return Raised(UnboundLocalError);
      }
    }

    /** A seer's answer to the moderator: the seer flow, with the exchange logged when it answers. */
    method AnswerAsSeer(msg: Message, monologueReply: Option<string>, actionReply: Option<string>) returns (outcome: Raises<string>)
      requires Valid()
      modifies this`gameHistory, memory`myState
      ensures Valid()
      ensures FlowOutcome(outcome, memory.myState) == SeerTurn(old(memory.myState), memory.myRole, monologueReply, actionReply)
      ensures outcome.Raised? ==> gameHistory == old(gameHistory)
      ensures outcome.Ok? ==>
                gameHistory == old(gameHistory)
                  + [DirectInEntry(msg.sender, name, msg.text), DirectOutEntry(name, msg.sender, outcome.value)]
    {
      outcome := SeerFlow(monologueReply, actionReply);
      if outcome.Ok? {
        gameHistory := gameHistory + [DirectInEntry(msg.sender, name, msg.text), DirectOutEntry(name, msg.sender, outcome.value)];
      }
    }

    /** A doctor's answer to the moderator: the doctor flow, with the exchange logged when it answers. */
    method AnswerAsDoctor(msg: Message, monologueReply: Option<string>, actionReply: Option<string>) returns (outcome: Raises<string>)
      requires Valid()
      modifies this`gameHistory, memory`myState
      ensures Valid()
      ensures FlowOutcome(outcome, memory.myState) == DoctorTurn(old(memory.myState), memory.myRole, monologueReply, actionReply)
      ensures outcome.Raised? ==> gameHistory == old(gameHistory)
      ensures outcome.Ok? ==>
                gameHistory == old(gameHistory)
                  + [DirectInEntry(msg.sender, name, msg.text), DirectOutEntry(name, msg.sender, outcome.value)]
    {
      outcome := DoctorFlow(monologueReply, actionReply);
      if outcome.Ok? {
        gameHistory := gameHistory + [DirectInEntry(msg.sender, name, msg.text), DirectOutEntry(name, msg.sender, outcome.value)];
      }
    }

    /** A group message in `async_respond`: it is filed, the discussion flow answers on the game
        channel and the wolf flow on the wolves' channel, and both halves are logged; on any other
        channel only the incoming half is logged and `response_message` stays unbound. */
    method RespondGroup(msg: Message, monologueReply: Option<string>, actionReply: Option<string>) returns (outcome: Raises<string>)
      requires Valid() && msg.channelType == Group
      modifies this`groupChannelMessages, this`gameHistory, memory`myState
      ensures Valid()
      ensures groupChannelMessages == old(groupChannelMessages)[msg.channel := ListAt(old(groupChannelMessages), msg.channel) + [Answered(msg.sender, msg.text)]]
      ensures msg.channel == GameChannel ==>
                FlowOutcome(outcome, memory.myState) == DiscussionTurn(old(memory.myState), role, msg.text, monologueReply, actionReply)
      ensures msg.channel == WolfsChannel ==>
                FlowOutcome(outcome, memory.myState) == WolfTurn(old(memory.myState), role, monologueReply, actionReply)
      ensures msg.channel != GameChannel && msg.channel != WolfsChannel ==>
                && outcome == Raised(UnboundLocalError) && memory.myState == old(memory.myState)
                && gameHistory == old(gameHistory) + [GroupInEntry(msg.sender, name, msg.channel, msg.text)]
      ensures outcome == Raised(AttributeError) ==> gameHistory == old(gameHistory)
      ensures outcome.Ok? ==>
                gameHistory == old(gameHistory) + [GroupInEntry(msg.sender, name, msg.channel, msg.text),
                                                   GroupOutEntry(name, msg.sender, msg.channel, outcome.value)]
    {
      ChannelsDiffer();
      groupChannelMessages := groupChannelMessages[msg.channel := ListAt(groupChannelMessages, msg.channel) + [Answered(msg.sender, msg.text)]];
      if msg.channel == GameChannel {
        outcome := AnswerInGame(msg, monologueReply, actionReply);
      } else if msg.channel == WolfsChannel {
        outcome := AnswerInDen(msg, monologueReply, actionReply);
      } else {
        gameHistory := gameHistory + [GroupInEntry(msg.sender, name, msg.channel, msg.text)];
        return Raised(UnboundLocalError);
      }
    }

    /** The game channel in `async_respond`: the discussion flow answers, and the exchange is
        logged when it does. */
    method AnswerInGame(msg: Message, monologueReply: Option<string>, actionReply: Option<string>) returns (outcome: Raises<string>)
      requires Valid() && msg.channel == GameChannel
      modifies this`gameHistory, memory`myState
      ensures Valid()
      ensures FlowOutcome(outcome, memory.myState) == DiscussionTurn(old(memory.myState), role, msg.text, monologueReply, actionReply)
      ensures outcome.Raised? ==> gameHistory == old(gameHistory)
      ensures outcome.Ok? ==>
                gameHistory == old(gameHistory) + [GroupInEntry(msg.sender, name, msg.channel, msg.text),
                                                   GroupOutEntry(name, msg.sender, msg.channel, outcome.value)]
    {
      outcome := DiscussionFlow(msg.text, monologueReply, actionReply);
      if outcome.Ok? {
        gameHistory := gameHistory + [GroupInEntry(msg.sender, name, msg.channel, msg.text),
                                      GroupOutEntry(name, msg.sender, msg.channel, outcome.value)];
      }
    }

    /** The wolves' channel in `async_respond`: the wolf flow answers, and the exchange is logged
        when it does. */
    method AnswerInDen(msg: Message, monologueReply: Option<string>, actionReply: Option<string>) returns (outcome: Raises<string>)
      requires Valid() && msg.channel == WolfsChannel
      modifies this`gameHistory, memory`myState
      ensures Valid()
      ensures FlowOutcome(outcome, memory.myState) == WolfTurn(old(memory.myState), role, monologueReply, actionReply)
      ensures outcome.Raised? ==> gameHistory == old(gameHistory)
      ensures outcome.Ok? ==>
                gameHistory == old(gameHistory) + [GroupInEntry(msg.sender, name, msg.channel, msg.text),
                                                   GroupOutEntry(name, msg.sender, msg.channel, outcome.value)]
    {
      outcome := WolfFlow(monologueReply, actionReply);
      if outcome.Ok? {
        gameHistory := gameHistory + [GroupInEntry(msg.sender, name, msg.channel, msg.text),
                                      GroupOutEntry(name, msg.sender, msg.channel, outcome.value)];
      }
    }
  }
}
