/**
 * The game-state store of the agent (`memory_storer.py`): what is known of every other player,
 * what the agent itself has said, thought and done, and the day/night clock.
 */
module MemoryStore {
  import opened Wrappers
  import opened Python
  import opened Text
  import opened Collections
  import Injection

  // ---------------------------------------------------------------------
  // Entities
  // ---------------------------------------------------------------------

  datatype PlayerRole = Unknown | Villager | Werewolf | Seer | Doctor {
    /** The enum member's `.value`. */
    function Value(): string {
      match this
      case Unknown => "unknown"
      case Villager => "villager"
      case Werewolf => "werewolf"
      case Seer => "seer"
      case Doctor => "doctor"
    }
  }

  /** `PlayerRole(s)`: the member whose value is `s`, or `None` where Python raises `ValueError`. */
  function RoleFromValue(s: string): (r: Option<PlayerRole>)
    ensures r.Some? ==> r.value.Value() == s
    ensures r.None? ==> forall role: PlayerRole :: role.Value() != s
  {
    if s == "unknown" then Some(Unknown)
    else if s == "villager" then Some(Villager)
    else if s == "werewolf" then Some(Werewolf)
    else if s == "seer" then Some(Seer)
    else if s == "doctor" then Some(Doctor)
    else None
  }

  /** Every role is found again from its value. */
  lemma RoleValueRoundTrip(role: PlayerRole)
    ensures RoleFromValue(role.Value()) == Some(role)
  {
  }

  datatype PlayerStatus = Alive | Dead

  /** A recorded utterance; the timestamp of the source is not modelled. */
  datatype Claim = Claim(content: string, channel: string)

  datatype PlayerState = PlayerState(
    name: string,
    suspectedRole: PlayerRole,
    status: PlayerStatus,
    claims: seq<Claim>,
    votingHistory: seq<string>,       // whom this player voted for
    timesVotedAgainst: seq<string>,   // who voted against this player
    suspicionScore: real,             // higher is more suspicious
    protectedByDoctor: bool,
    investigatedBySeer: bool)

  /** `PlayerState(name=name)` with every other field at its default. */
  function NewPlayerState(name: string): PlayerState {
    PlayerState(name, Unknown, Alive, [], [], [], 0.0, false, false)
  }

  /** An entry of the key-event log (its timestamp is not modelled). */
  datatype KeyEvent = KeyEvent(kind: string, details: string, players: seq<string>)

  /** The agent's own state. `investigatedPlayers` is declared to hold roles, but the only writer
      (`record_role_action`) stores the optional result text it is given. */
  datatype MyState = MyState(
    claims: seq<Claim>,
    alliances: map<string, real>,
    enemies: map<string, string>,
    currentStrategy: string,
    revealedRole: bool,
    protectedPlayers: seq<string>,
    investigatedPlayers: map<string, Option<string>>,
    packMembers: seq<string>,
    thoughtProcess: seq<string>,
    keyEvents: seq<KeyEvent>,
    voteJustifications: map<string, string>,
    behavioralNotes: Dict<seq<string>>)

  /** `MyState()` with every field at its default. */
  function DefaultMyState(): MyState {
    MyState([], map[], map[], "observe", false, [], map[], [], [], [], map[], EmptyDict())
  }

  /** The action types `record_role_action` acts on. */
  const InvestigateAction := "investigate"
  const ProtectAction := "protect"
  const RevealPackAction := "reveal_pack"

  lemma ActionTypesDiffer()
    ensures InvestigateAction != ProtectAction && InvestigateAction != RevealPackAction && ProtectAction != RevealPackAction
  {
    assert |ProtectAction| != |InvestigateAction|;
    assert InvestigateAction[0] != RevealPackAction[0];
  }

  /** The thoughts `update_my_role` and `record_vote_justification` log. */
  function RoleSetThought(value: string): string {
    "My role has been set to " + value
  }

  function VoteThought(target: string, reason: string): string {
    "Voted for " + target + ": " + reason
  }

  type Players = Dict<PlayerState>

  predicate Known(s: seq<string>, e: map<string, PlayerState>) {
    forall n :: n in s ==> n in e
  }

  // ---------------------------------------------------------------------
  // get_alive_players
  // ---------------------------------------------------------------------

  /** The players of `keys` whose status is ALIVE, in the order of `keys`. */
  function AliveAmong(keys: seq<string>, e: map<string, PlayerState>): (r: seq<string>)
    requires Known(keys, e)
    ensures Subsequence(r, keys)
    ensures forall n :: n in r <==> n in keys && e[n].status == Alive
    decreases |keys|
  {
    if keys == [] then []
    else
      var rest := AliveAmong(keys[1..], e);
      assert keys == [keys[0]] + keys[1..];
      if e[keys[0]].status == Alive then
        assert ([keys[0]] + rest)[1..] == rest;
        [keys[0]] + rest
      else
        SubsequenceSkip(rest, keys[1..], keys[0]);
        rest
  }

  /** Distinct keys give a list without repetitions. */
  lemma {:induction false} AliveAmongDistinct(keys: seq<string>, e: map<string, PlayerState>)
    requires Known(keys, e) && Distinct(keys)
    ensures Distinct(AliveAmong(keys, e))
    decreases |keys|
  {
    if keys != [] {
      AliveAmongDistinct(keys[1..], e);
      assert keys[0] !in keys[1..];
    }
  }

  // ---------------------------------------------------------------------
  // get_most_suspicious_players: sorted(..., key=score, reverse=True)[:count]
  // ---------------------------------------------------------------------

  function Score(e: map<string, PlayerState>, n: string): real
    requires n in e
  {
    e[n].suspicionScore
  }

  ghost predicate NonIncreasing(s: seq<string>, e: map<string, PlayerState>)
    requires Known(s, e)
  {
    forall i, j :: 0 <= i < j < |s| ==> Score(e, s[i]) >= Score(e, s[j])
  }

  /** The players of `s` whose score is exactly `v`, in the order of `s`. */
  function WithScore(s: seq<string>, e: map<string, PlayerState>, v: real): seq<string>
    requires Known(s, e)
  {
    if s == [] then [] else (if Score(e, s[0]) == v then [s[0]] else []) + WithScore(s[1..], e, v)
  }

  /** Insert `x` in front of the first player who does not score higher: ties stay behind `x`,
      which is how a stable descending sort treats an element that came first. */
  function InsertByScore(x: string, ys: seq<string>, e: map<string, PlayerState>): (r: seq<string>)
    requires x in e && Known(ys, e)
    ensures Known(r, e)
    ensures |r| == |ys| + 1
    ensures forall z :: z in r ==> z == x || z in ys
    decreases |ys|
  {
    if ys == [] || Score(e, ys[0]) <= Score(e, x) then
      [x] + ys
    else
      assert ys == [ys[0]] + ys[1..];
      [ys[0]] + InsertByScore(x, ys[1..], e)
  }

  /** In a list sorted by descending score nobody behind the head scores higher. */
  lemma HeadDominates(ys: seq<string>, e: map<string, PlayerState>)
    requires Known(ys, e) && NonIncreasing(ys, e) && ys != []
    ensures NonIncreasing(ys[1..], e)
    ensures forall z :: z in ys[1..] ==> Score(e, z) <= Score(e, ys[0])
  {
    forall z | z in ys[1..] ensures Score(e, z) <= Score(e, ys[0]) {
      var j :| 0 <= j < |ys[1..]| && ys[1..][j] == z;
      assert ys[j + 1] == z;
    }
  }

  /** A head that nobody in a sorted tail outscores makes a sorted list. */
  lemma ConsSorted(h: string, tail: seq<string>, e: map<string, PlayerState>)
    requires h in e && Known(tail, e) && NonIncreasing(tail, e)
    requires forall z :: z in tail ==> Score(e, z) <= Score(e, h)
    ensures NonIncreasing([h] + tail, e)
  {
    var r := [h] + tail;
    forall i, j | 0 <= i < j < |r| ensures Score(e, r[i]) >= Score(e, r[j]) {
      assert r[j] == tail[j - 1];
      if i > 0 {
        assert r[i] == tail[i - 1];
      }
    }
  }

  /** Inserting into a list sorted by descending score keeps it sorted. */
  lemma {:induction false} InsertSorted(x: string, ys: seq<string>, e: map<string, PlayerState>)
    requires x in e && Known(ys, e) && NonIncreasing(ys, e)
    ensures NonIncreasing(InsertByScore(x, ys, e), e)
    decreases |ys|
  {
    if ys == [] || Score(e, ys[0]) <= Score(e, x) {
      ConsSorted(x, ys, e);
    } else {
      HeadDominates(ys, e);
      InsertSorted(x, ys[1..], e);
      ConsSorted(ys[0], InsertByScore(x, ys[1..], e), e);
    }
  }

  lemma TiesSwap(head: seq<string>, mine: seq<string>, w: seq<string>)
    requires head == [] || mine == []
    ensures head + (mine + w) == mine + (head + w)
  {
    if head == [] {
      assert head + (mine + w) == mine + w;
      assert head + w == w;
    } else {
      assert mine + w == w;
      assert mine + (head + w) == head + w;
    }
  }

  /** The ties of `[a] + s` are `a`'s own, then those of `s`. */
  lemma WithScoreCons(a: string, s: seq<string>, e: map<string, PlayerState>, v: real)
    requires a in e && Known(s, e)
    ensures WithScore([a] + s, e, v) == (if Score(e, a) == v then [a] else []) + WithScore(s, e, v)
  {
    assert ([a] + s)[1..] == s;
  }

  lemma {:induction false} InsertKeepsTies(x: string, ys: seq<string>, e: map<string, PlayerState>, v: real)
    requires x in e && Known(ys, e)
    ensures WithScore(InsertByScore(x, ys, e), e, v) == (if Score(e, x) == v then [x] else []) + WithScore(ys, e, v)
    decreases |ys|
  {
    if ys == [] || Score(e, ys[0]) <= Score(e, x) {
      WithScoreCons(x, ys, e, v);
    } else {
      var mine: seq<string> := if Score(e, x) == v then [x] else [];
      var head: seq<string> := if Score(e, ys[0]) == v then [ys[0]] else [];
      var rest := InsertByScore(x, ys[1..], e);
      InsertKeepsTies(x, ys[1..], e, v);
      WithScoreCons(ys[0], rest, e, v);
      TiesSwap(head, mine, WithScore(ys[1..], e, v));
    }
  }

  /** Insertion is a permutation: the result holds the list and the inserted player. */
  lemma {:induction false} InsertPermutes(x: string, ys: seq<string>, e: map<string, PlayerState>)
    requires x in e && Known(ys, e)
    ensures multiset(InsertByScore(x, ys, e)) == multiset(ys) + multiset{x}
    decreases |ys|
  {
    if ys != [] && Score(e, ys[0]) > Score(e, x) {
      InsertPermutes(x, ys[1..], e);
      assert ys == [ys[0]] + ys[1..];
    }
  }

  /** A stable sort by descending score (Python's `sorted(..., reverse=True)` keeps equal keys in
      their original order). */
  function SortByScore(xs: seq<string>, e: map<string, PlayerState>): (r: seq<string>)
    requires Known(xs, e)
    ensures Known(r, e)
    ensures |r| == |xs|
    ensures multiset(r) == multiset(xs)
    ensures NonIncreasing(r, e)
    decreases |xs|
  {
    if xs == [] then []
    else
      assert xs == [xs[0]] + xs[1..];
      InsertSorted(xs[0], SortByScore(xs[1..], e), e);
      InsertPermutes(xs[0], SortByScore(xs[1..], e), e);
      InsertByScore(xs[0], SortByScore(xs[1..], e), e)
  }

  /** Stability: for every score, the players with that score come out in the order they went in. */
  lemma {:induction false} SortKeepsTies(xs: seq<string>, e: map<string, PlayerState>, v: real)
    requires Known(xs, e)
    ensures WithScore(SortByScore(xs, e), e, v) == WithScore(xs, e, v)
    decreases |xs|
  {
    if xs != [] {
      SortKeepsTies(xs[1..], e, v);
      InsertKeepsTies(xs[0], SortByScore(xs[1..], e), e, v);
    }
  }

  predicate PrefixOf<T(==)>(a: seq<T>, b: seq<T>) {
    |a| <= |b| && a == b[..|a|]
  }

  lemma {:induction false} TiesOfPrefix(s: seq<string>, k: nat, e: map<string, PlayerState>, v: real)
    requires Known(s, e) && k <= |s|
    ensures PrefixOf(WithScore(s[..k], e, v), WithScore(s, e, v))
    decreases |s|
  {
    if k > 0 {
      assert s[..k][1..] == s[1..][..k - 1];
      TiesOfPrefix(s[1..], k - 1, e, v);
    } else {
      assert s[..k] == [];
    }
  }

  /** In a list sorted by descending score, no player left out of a prefix scores higher than a
      player in it. */
  lemma TopOfSorted(s: seq<string>, k: nat, e: map<string, PlayerState>)
    requires Known(s, e) && NonIncreasing(s, e) && k <= |s|
    ensures forall n, m :: n in s[..k] && m in s && m !in s[..k] ==> Score(e, m) <= Score(e, n)
  {
    forall n, m | n in s[..k] && m in s && m !in s[..k] ensures Score(e, m) <= Score(e, n) {
      var i :| 0 <= i < k && s[..k][i] == n;
      var j :| 0 <= j < |s| && s[j] == m;
    }
  }

  /** Python's `s[:count]`: a negative `count` drops that many elements from the end. */
  function SliceTo<T>(s: seq<T>, count: int): (r: seq<T>)
    ensures PrefixOf(r, s)
    ensures count >= 0 ==> |r| == if count < |s| then count else |s|
    ensures count < 0 ==> |r| == if |s| + count > 0 then |s| + count else 0
  {
    if count >= 0 then (if count < |s| then s[..count] else s)
    else if |s| + count > 0 then s[..|s| + count] else []
  }

  /** The sort keeps exactly the players it was given. */
  lemma SortedMembers(xs: seq<string>, e: map<string, PlayerState>)
    requires Known(xs, e)
    ensures forall n :: n in SortByScore(xs, e) <==> n in xs
  {
    var sorted := SortByScore(xs, e);
    forall n ensures n in sorted <==> n in xs {
      assert n in sorted <==> n in multiset(sorted);
      assert n in xs <==> n in multiset(xs);
    }
  }

  /** A prefix of the sorted players keeps, for every score, the registration order of the ties. */
  lemma SortedPrefixTies(xs: seq<string>, e: map<string, PlayerState>, k: nat)
    requires Known(xs, e) && k <= |xs|
    ensures var sorted := SortByScore(xs, e);
            forall v :: PrefixOf(WithScore(sorted[..k], e, v), WithScore(xs, e, v))
  {
    var sorted := SortByScore(xs, e);
    forall v ensures PrefixOf(WithScore(sorted[..k], e, v), WithScore(xs, e, v)) {
      TiesOfPrefix(sorted, k, e, v);
      SortKeepsTies(xs, e, v);
    }
  }

  /** `get_most_suspicious_players(count)`: the first `count` alive players of the stable sort by
      descending score. They are alive and come in non-increasing score order; no alive player
      left out scores higher than one chosen; players with equal scores are chosen in the order
      in which they were registered. */
  function MostSuspicious(d: Players, count: int): (r: seq<string>)
    requires d.Valid()
    ensures var alive := AliveAmong(d.keys, d.entries);
            && (count >= 0 ==> |r| == if count < |alive| then count else |alive|)
            && (count < 0 ==> |r| == if |alive| + count > 0 then |alive| + count else 0)
    ensures forall n :: n in r ==> n in d.entries && d.entries[n].status == Alive
    ensures NonIncreasing(r, d.entries)
    ensures forall n, m :: n in r && m in d.entries && d.entries[m].status == Alive && m !in r
              ==> Score(d.entries, m) <= Score(d.entries, n)
    ensures forall v :: PrefixOf(WithScore(r, d.entries, v), WithScore(AliveAmong(d.keys, d.entries), d.entries, v))
  {
    var alive := AliveAmong(d.keys, d.entries);
    var sorted := SortByScore(alive, d.entries);
    var r := SliceTo(sorted, count);
    assert r == sorted[..|r|];
    SortedMembers(alive, d.entries);
    TopOfSorted(sorted, |r|, d.entries);
    SortedPrefixTies(alive, d.entries, |r|);
    r
  }

  // ---------------------------------------------------------------------
  // The effect of a vote on the player table
  // ---------------------------------------------------------------------

  /** One vote from `voter` for `target`, applied the way `record_vote` applies it. */
  function Voted(e: map<string, PlayerState>, voter: string, target: string): map<string, PlayerState> {
    var e1 := if voter in e then e[voter := e[voter].(votingHistory := e[voter].votingHistory + [target])] else e;
    if target in e1 then e1[target := e1[target].(timesVotedAgainst := e1[target].timesVotedAgainst + [voter])] else e1
  }

  /** A vote grows the voter's history and the target's tally by one entry each, when that player
      is known, even when voter and target are the same player; every other field and player stays. */
  lemma VotedEffect(e: map<string, PlayerState>, voter: string, target: string)
    ensures Voted(e, voter, target).Keys == e.Keys
    ensures forall n :: n in e ==>
              var p, q := e[n], Voted(e, voter, target)[n];
              && q.votingHistory == (if n == voter then p.votingHistory + [target] else p.votingHistory)
              && q.timesVotedAgainst == (if n == target then p.timesVotedAgainst + [voter] else p.timesVotedAgainst)
              && q == p.(votingHistory := q.votingHistory, timesVotedAgainst := q.timesVotedAgainst)
  {
  }

  /** A vote changes no status, so the alive list stays what it was. */
  lemma {:induction false} VotedKeepsAlive(keys: seq<string>, e: map<string, PlayerState>, voter: string, target: string)
    requires Known(keys, e)
    ensures Known(keys, Voted(e, voter, target))
    ensures AliveAmong(keys, Voted(e, voter, target)) == AliveAmong(keys, e)
    decreases |keys|
  {
    VotedEffect(e, voter, target);
    if keys != [] {
      VotedKeepsAlive(keys[1..], e, voter, target);
    }
  }

  // ---------------------------------------------------------------------
  // The effect of a score update on the player table
  // ---------------------------------------------------------------------

  /** `update_suspicion_score(n, delta)` on the player table. */
  function AddScore(e: map<string, PlayerState>, n: string, delta: real): map<string, PlayerState> {
    if n in e then e[n := e[n].(suspicionScore := e[n].suspicionScore + delta)] else e
  }

  /** `update_suspicion_score` changes one registered player's score and nothing else. */
  lemma AddScoreEffect(e: map<string, PlayerState>, p: string, delta: real)
    ensures AddScore(e, p, delta).Keys == e.Keys
    ensures forall n :: n in e ==>
              AddScore(e, p, delta)[n] == e[n].(suspicionScore := e[n].suspicionScore + if n == p then delta else 0.0)
  {
  }

  // ---------------------------------------------------------------------
  // The effect of a message's registration on the player table
  // ---------------------------------------------------------------------

  /** `initialize_player(n)` on the table: anybody but the agent itself, when new, is appended
      with the default state. */
  function Initialized(d: Players, myName: string, n: string): (r: Players)
    requires d.Valid()
    ensures r.Valid()
  {
    if n == myName || n in d.entries then d else d.Put(n, NewPlayerState(n))
  }

  /** `add_claim(n, …)` on the table, for a claim whose text has already been checked (`flagged`
      is the check's verdict): a known player gets `claim` appended, and a flagged claim doubles
      its score; anybody else is ignored. */
  function Claimed(d: Players, n: string, claim: Claim, flagged: bool): (r: Players)
    requires d.Valid()
    ensures r.Valid()
  {
    if n in d.entries then
      var p := d.entries[n];
      d.Put(n, p.(claims := p.claims + [claim], suspicionScore := if flagged then p.suspicionScore * 2.0 else p.suspicionScore))
    else d
  }

  /** `add_claim` leaves an unknown player's table alone; for a known player exactly one claim
      is appended, the score is doubled iff the claim was flagged, and nothing else changes. */
  lemma ClaimedEffect(d: Players, n: string, claim: Claim, flagged: bool)
    requires d.Valid()
    ensures var r := Claimed(d, n, claim, flagged);
            && r.keys == d.keys
            && (n !in d.entries ==> r == d)
            && (n in d.entries ==>
                  var p := d.entries[n];
                  r.entries == d.entries[n := p.(claims := p.claims + [claim],
                                                 suspicionScore := if flagged then 2.0 * p.suspicionScore else p.suspicionScore)])
  {
  }

  /** `initialize_player(sender)` followed by `add_claim(sender, …)`. */
  function Registered(d: Players, myName: string, sender: string, claim: Claim, flagged: bool): (r: Players)
    requires d.Valid()
    ensures r.Valid()
  {
    Claimed(Initialized(d, myName, sender), sender, claim, flagged)
  }

  /** Registration touches only the sender: one known player gets one more claim (and a doubled
      score when flagged); a newcomer goes last with the default state and that one claim, its
      score staying 0 even when flagged; every other player is left exactly as it was. */
  lemma RegisteredEffect(d: Players, myName: string, sender: string, claim: Claim, flagged: bool)
    requires d.Valid() && myName !in d.entries
    ensures var r := Registered(d, myName, sender, claim, flagged);
            && (sender == myName ==> r == d)
            && (forall n :: n in d.entries && n != sender ==> n in r.entries && r.entries[n] == d.entries[n])
            && (sender != myName && sender in d.entries ==>
                  && r.keys == d.keys
                  && r.entries.Keys == d.entries.Keys
                  && var p := d.entries[sender];
                     r.entries[sender] == p.(claims := p.claims + [claim],
                                             suspicionScore := if flagged then 2.0 * p.suspicionScore else p.suspicionScore))
            && (sender != myName && sender !in d.entries ==>
                  && r.keys == d.keys + [sender]
                  && r.entries.Keys == d.entries.Keys + {sender}
                  && r.entries[sender] == NewPlayerState(sender).(claims := [claim]))
  {
    var i := Initialized(d, myName, sender);
    ClaimedEffect(i, sender, claim, flagged);
    if sender != myName && sender !in d.entries {
      assert i.entries == d.entries[sender := NewPlayerState(sender)];
    }
  }

  // ---------------------------------------------------------------------
  // MemoryStorer
  // ---------------------------------------------------------------------

  class MemoryStorer {
    const myName: string
    var players: Players
    var myState: MyState
    var dayCount: nat
    var nightCount: nat
    var isNight: bool
    var myRole: PlayerRole
    var claimedRole: PlayerRole
    /** Whether `self.sentient_llm_config` exists. The class never assigns that attribute, so it
        starts out missing; only an assignment from outside could supply it. */
    var configPresent: bool

    ghost predicate Valid()
      reads this
    {
      && players.Valid()
      && myName !in players.entries
      && (forall n :: n in players.entries ==> players.entries[n].name == n)
      && myState.behavioralNotes.Valid()
    }

    constructor (myName: string)
      ensures Valid() && this.myName == myName
      ensures players == EmptyDict() && myState == DefaultMyState()
      ensures dayCount == 0 && nightCount == 0 && !isNight
      ensures myRole == Unknown && claimedRole == Unknown
      ensures !configPresent
    {
      this.myName := myName;
      players := EmptyDict();
      myState := DefaultMyState();
      dayCount, nightCount, isNight := 0, 0, false;
      myRole, claimedRole := Unknown, Unknown;
      configPresent := false;
    }

    /** `initialize_player`: start tracking a new player, ALIVE with score 0, an unknown role and
        empty histories, placed after every player already known. The agent itself and players
        already known are left alone. */
    method InitializePlayer(playerName: string)
      requires Valid()
      modifies this`players
      ensures Valid()
      ensures players == Initialized(old(players), myName, playerName)
      ensures playerName == myName || playerName in old(players.entries) ==> players == old(players)
      ensures playerName != myName && playerName !in old(players.entries) ==>
                && players.keys == old(players.keys) + [playerName]
                && players.entries == old(players.entries)[playerName := NewPlayerState(playerName)]
      ensures playerName in players.entries ==>
                var p := players.entries[playerName];
                playerName !in old(players.entries) ==>
                  && p.status == Alive && p.suspicionScore == 0.0 && p.suspectedRole == Unknown
                  && p.claims == [] && p.votingHistory == [] && p.timesVotedAgainst == []
    {
      if playerName != myName && playerName !in players.entries {
        players := players.Put(playerName, NewPlayerState(playerName));
      }
    }

    /** `add_claim`: run the injection check on `content` (`analysis` is the analyser's reply,
        `None` when that request fails) and append the resulting text, and only it, to the
        claims of a known player; a flagged claim doubles that player's score. Unknown players
        are ignored. */
    method AddClaim(playerName: string, content: string, channel: string, analysis: Option<string>)
      requires Valid()
      modifies this`players
      ensures Valid()
      ensures players.keys == old(players.keys)
      ensures var (cleaned, flagged) := Injection.CheckForInjections(content, configPresent, analysis);
              players == Claimed(old(players), playerName, Claim(cleaned, channel), flagged)
      ensures !configPresent ==> forall n :: n in players.entries ==>
                players.entries[n].suspicionScore == old(players.entries[n].suspicionScore)
      ensures forall n :: n in players.entries && old(players.entries[n].suspicionScore) == 0.0 ==>
                players.entries[n].suspicionScore == 0.0
    {
      var (cleaned, flagged) := Injection.CheckForInjections(content, configPresent, analysis);
      ClaimedEffect(players, playerName, Claim(cleaned, channel), flagged);
      if playerName in players.entries {
        var p := players.entries[playerName];
        var score := if flagged then p.suspicionScore * 2.0 else p.suspicionScore;
        players := players.Put(playerName, p.(claims := p.claims + [Claim(cleaned, channel)], suspicionScore := score));
      }
    }

    /** `record_vote`: the voter's history and the target's tally each grow by one entry when that
        player is known, independently of the other; nothing else changes. */
    method RecordVote(voter: string, target: string)
      requires Valid()
      modifies this`players
      ensures Valid()
      ensures players.keys == old(players.keys)
      ensures players.entries == Voted(old(players.entries), voter, target)
      ensures players.entries.Keys == old(players.entries.Keys)
      ensures forall n :: n in players.entries ==>
                var p, q := old(players.entries[n]), players.entries[n];
                && q.votingHistory == (if n == voter then p.votingHistory + [target] else p.votingHistory)
                && q.timesVotedAgainst == (if n == target then p.timesVotedAgainst + [voter] else p.timesVotedAgainst)
                && q == p.(votingHistory := q.votingHistory, timesVotedAgainst := q.timesVotedAgainst)
    {
      VotedEffect(players.entries, voter, target);
      if voter in players.entries {
        var p := players.entries[voter];
        players := players.Put(voter, p.(votingHistory := p.votingHistory + [target]));
      }
      if target in players.entries {
        var p := players.entries[target];
        players := players.Put(target, p.(timesVotedAgainst := p.timesVotedAgainst + [voter]));
      }
    }

    /** `mark_player_dead`: only that player's status changes, to DEAD. */
    method MarkPlayerDead(playerName: string)
      requires Valid()
      modifies this`players
      ensures Valid()
      ensures players.keys == old(players.keys)
      ensures playerName !in old(players.entries) ==> players == old(players)
      ensures playerName in old(players.entries) ==>
                players.entries == old(players.entries)[playerName := old(players.entries[playerName]).(status := Dead)]
    {
      if playerName in players.entries {
        players := players.Put(playerName, players.entries[playerName].(status := Dead));
      }
    }

    /** `update_suspicion_score`: adds `delta` to that player's score and changes nothing else. */
    method UpdateSuspicionScore(playerName: string, delta: real)
      requires Valid()
      modifies this`players
      ensures Valid()
      ensures players.keys == old(players.keys)
      ensures playerName !in old(players.entries) ==> players == old(players)
      ensures players.entries == AddScore(old(players.entries), playerName, delta)
    {
      if playerName in players.entries {
        var p := players.entries[playerName];
        players := players.Put(playerName, p.(suspicionScore := p.suspicionScore + delta));
      }
    }

    /** `set_suspected_role`: only that player's suspected role changes. */
    method SetSuspectedRole(playerName: string, role: PlayerRole)
      requires Valid()
      modifies this`players
      ensures Valid()
      ensures players.keys == old(players.keys)
      ensures playerName !in old(players.entries) ==> players == old(players)
      ensures playerName in old(players.entries) ==>
                players.entries == old(players.entries)[playerName := old(players.entries[playerName]).(suspectedRole := role)]
    {
      if playerName in players.entries {
        players := players.Put(playerName, players.entries[playerName].(suspectedRole := role));
      }
    }

    /** `get_alive_players`: exactly the ALIVE players, in the order they were first seen. */
    function GetAlivePlayers(): (r: seq<string>)
      requires Valid()
      reads this
      ensures forall n :: n in r <==> n in players.entries && players.entries[n].status == Alive
      ensures Subsequence(r, players.keys) && Distinct(r)
    {
      AliveAmongDistinct(players.keys, players.entries);
      AliveAmong(players.keys, players.entries)
    }

    /** `get_most_suspicious_players(count)`; see `MostSuspicious`. */
    function GetMostSuspiciousPlayers(count: int): (r: seq<string>)
      requires Valid()
      reads this
      ensures count >= 0 ==> |r| <= count
      ensures forall n :: n in r ==> n in players.entries && players.entries[n].status == Alive
    {
      MostSuspicious(players, count)
    }

    /** `get_player_claims`: the claims of a known player, and none for anybody else. */
    function GetPlayerClaims(playerName: string): (r: seq<Claim>)
      reads this`players
      ensures playerName in players.entries ==> r == players.entries[playerName].claims
      ensures playerName !in players.entries ==> r == []
    {
      if playerName in players.entries then players.entries[playerName].claims else []
    }

    // -------------------------------------------------------------------
    // The agent's own state
    // -------------------------------------------------------------------

    /** `add_thought_process`: one more entry at the end of the thought log. */
    method AddThoughtProcess(reasoning: string)
      requires Valid()
      modifies this`myState
      ensures Valid()
      ensures myState == old(myState).(thoughtProcess := old(myState.thoughtProcess) + [reasoning])
    {
      myState := myState.(thoughtProcess := myState.thoughtProcess + [reasoning]);
    }

    /** `update_my_role`: sets the role and logs one thought naming it. */
    method UpdateMyRole(role: PlayerRole)
      requires Valid()
      modifies this`myRole, this`myState
      ensures Valid()
      ensures myRole == role
      ensures myState == old(myState).(thoughtProcess := old(myState.thoughtProcess) + [RoleSetThought(role.Value())])
    {
      myRole := role;
      AddThoughtProcess(RoleSetThought(role.Value()));
    }

    /** `update_my_claimed_role`: sets the publicly claimed role, independently of the real one,
        and logs one thought. */
    method UpdateMyClaimedRole(role: PlayerRole)
      requires Valid()
      modifies this`claimedRole, this`myState
      ensures Valid()
      ensures claimedRole == role
      ensures myState == old(myState).(thoughtProcess := old(myState.thoughtProcess) + ["I have claimed to be a " + role.Value()])
    {
      claimedRole := role;
      AddThoughtProcess("I have claimed to be a " + role.Value());
    }

    /** `add_my_claim`: one more claim of the agent's own. */
    method AddMyClaim(content: string, channel: string)
      requires Valid()
      modifies this`myState
      ensures Valid()
      ensures myState == old(myState).(claims := old(myState.claims) + [Claim(content, channel)])
    {
      myState := myState.(claims := myState.claims + [Claim(content, channel)]);
    }

    /** `update_alliance`: records the trust level, unchecked, and logs a thought only when a
        non-empty reason is given. `trustText` is Python's rendering of the float, which is not
        modelled. */
    method UpdateAlliance(playerName: string, trustLevel: real, trustText: string, reason: Option<string>)
      requires Valid()
      modifies this`myState
      ensures Valid()
      ensures var logged := reason.Some? && reason.value != [];
              myState == old(myState).(
                alliances := old(myState.alliances)[playerName := trustLevel],
                thoughtProcess := old(myState.thoughtProcess)
                  + (if logged then ["Updated trust in " + playerName + " to " + trustText + ": " + reason.value] else []))
    {
      myState := myState.(alliances := myState.alliances[playerName := trustLevel]);
      if reason.Some? && reason.value != [] {
        AddThoughtProcess("Updated trust in " + playerName + " to " + trustText + ": " + reason.value);
      }
    }

    /** `mark_enemy`: records the reason and logs one thought. */
    method MarkEnemy(playerName: string, reason: string)
      requires Valid()
      modifies this`myState
      ensures Valid()
      ensures myState == old(myState).(
                enemies := old(myState.enemies)[playerName := reason],
                thoughtProcess := old(myState.thoughtProcess) + ["Marked " + playerName + " as enemy: " + reason])
    {
      myState := myState.(enemies := myState.enemies[playerName := reason]);
      AddThoughtProcess("Marked " + playerName + " as enemy: " + reason);
    }

    /** `record_key_event`: one more event at the end of the log. */
    method RecordKeyEvent(kind: string, details: string, involved: seq<string>)
      requires Valid()
      modifies this`myState
      ensures Valid()
      ensures myState == old(myState).(keyEvents := old(myState.keyEvents) + [KeyEvent(kind, details, involved)])
    {
      myState := myState.(keyEvents := myState.keyEvents + [KeyEvent(kind, details, involved)]);
    }

    /** `add_behavioral_note`: one more observation for that player, whether or not the player is
        known; a player noted for the first time goes last. */
    method AddBehavioralNote(playerName: string, observation: string)
      requires Valid()
      modifies this`myState
      ensures Valid()
      ensures myState == old(myState).(behavioralNotes :=
                old(myState.behavioralNotes).Put(playerName, old(myState.behavioralNotes).Get(playerName, []) + [observation]))
    {
      var notes := myState.behavioralNotes;
      myState := myState.(behavioralNotes := notes.Put(playerName, notes.Get(playerName, []) + [observation]));
    }

    /** `record_vote_justification`: records (or replaces) the reason for a vote and logs one thought. */
    method RecordVoteJustification(target: string, reason: string)
      requires Valid()
      modifies this`myState
      ensures Valid()
      ensures myState == old(myState).(
                voteJustifications := old(myState.voteJustifications)[target := reason],
                thoughtProcess := old(myState.thoughtProcess) + [VoteThought(target, reason)])
    {
      myState := myState.(voteJustifications := myState.voteJustifications[target := reason]);
      AddThoughtProcess(VoteThought(target, reason));
    }

    /** `update_strategy`: replaces the strategy label and logs one thought. */
    method UpdateStrategy(newStrategy: string, reason: string)
      requires Valid()
      modifies this`myState
      ensures Valid()
      ensures myState == old(myState).(
                currentStrategy := newStrategy,
                thoughtProcess := old(myState.thoughtProcess) + ["Changed strategy to " + newStrategy + ": " + reason])
    {
      myState := myState.(currentStrategy := newStrategy);
      AddThoughtProcess("Changed strategy to " + newStrategy + ": " + reason);
    }

    /** `record_role_action`: a seer's investigation, a doctor's protection or a werewolf's
        pack revelation changes exactly its one structure; any other combination of the agent's
        role and the action changes nothing. */
    method RecordRoleAction(target: string, actionType: string, result: Option<string>)
      requires Valid()
      modifies this`myState
      ensures Valid()
      ensures myRole == Seer && actionType == InvestigateAction ==> GetMyState().Raised?
      ensures old(GetMyState()).Raised? ==> GetMyState().Raised?
      ensures myState == old(myState).(
                investigatedPlayers := if myRole == Seer && actionType == InvestigateAction
                                       then old(myState.investigatedPlayers)[target := result]
                                       else old(myState.investigatedPlayers),
                protectedPlayers := if myRole == Doctor && actionType == ProtectAction
                                    then old(myState.protectedPlayers) + [target]
                                    else old(myState.protectedPlayers),
                packMembers := if myRole == Werewolf && actionType == RevealPackAction
                               then old(myState.packMembers) + [target]
                               else old(myState.packMembers))
    {
      if myRole == Seer && actionType == InvestigateAction {
        myState := myState.(investigatedPlayers := myState.investigatedPlayers[target := result]);
        assert target in myState.investigatedPlayers;
      } else if myRole == Doctor && actionType == ProtectAction {
        myState := myState.(protectedPlayers := myState.protectedPlayers + [target]);
      } else if myRole == Werewolf && actionType == RevealPackAction {
        myState := myState.(packMembers := myState.packMembers + [target]);
      }
    }

    /** `get_my_state`: a snapshot of the agent's state. It reads `.value` of every investigated
        entry, and those entries hold text or `None`, never a role, so it raises as soon as one
        investigation has been recorded. */
    function GetMyState(): (r: Raises<MyState>)
      reads this
      ensures r.Ok? <==> myState.investigatedPlayers == map[]
      ensures r.Ok? ==> r.value == myState
      ensures r.Raised? ==> r.error == AttributeError
    {
      if myState.investigatedPlayers == map[] then Ok(myState) else Raised(AttributeError)
    }
  }
}
