/**
 * The pure logic of the chain-of-thought agent (`cot_agent.py`): the channel names, the mapping
 * from the oracle's role guess to a role, the history entries and their filter, the two prompt
 * formatters, and what the three rules of the behaviour classifier and the moderator tracker
 * decide for one message.
 */
module AgentRules {
  import opened Wrappers
  import opened Text
  import opened Collections
  import Patterns
  import opened MemoryStore

  const GameChannel := "play-arena"
  const WolfsChannel := "wolf's-den"
  const ModeratorName := "moderator"
  lemma ChannelsDiffer()
    ensures GameChannel != WolfsChannel
  {
    assert GameChannel[0] != WolfsChannel[0];
  }

  /** What the oracle wrapper returns when its request fails. */
  const FallbackReply := "I need more time to think about this."
  /** The wolf channel's answer from an agent that is not a wolf. */
  const WolfRefusal := "I am not a werewolf"

  /** The role names `find_my_role` can settle on; "wolf" is not a value of `PlayerRole`. */
  const VillagerRole := "villager"
  const SeerRole := "seer"
  const DoctorRole := "doctor"
  const WolfRole := "wolf"

  // ---------------------------------------------------------------------
  // find_my_role
  // ---------------------------------------------------------------------

  /** The role read off the oracle's guess (`None` when the request fails): "villager" wins over
      "seer", which wins over "doctor", and a guess naming none of them, the empty one included,
      means "wolf". A failed request means "villager". */
  function DecideRole(reply: Option<string>): (role: string)
    ensures role == VillagerRole || role == SeerRole || role == DoctorRole || role == WolfRole
    ensures reply.None? ==> role == VillagerRole
    ensures reply.Some? ==>
              var g := Lower(reply.value);
              && (role == VillagerRole <==> Contains(g, VillagerRole))
              && (role == SeerRole <==> !Contains(g, VillagerRole) && Contains(g, SeerRole))
              && (role == DoctorRole <==> !Contains(g, VillagerRole) && !Contains(g, SeerRole) && Contains(g, DoctorRole))
  {
    match reply
    case None => VillagerRole
    case Some(guess) =>
      var g := Lower(guess);
      if Contains(g, VillagerRole) then VillagerRole
      else if Contains(g, SeerRole) then SeerRole
      else if Contains(g, DoctorRole) then DoctorRole
      else WolfRole
  }

  lemma AbsentRoleWords()
    ensures !Contains(SeerRole, VillagerRole) && !Contains(DoctorRole, VillagerRole) && !Contains(WolfRole, VillagerRole)
    ensures !Contains(DoctorRole, SeerRole) && !Contains(WolfRole, SeerRole) && !Contains(WolfRole, DoctorRole)
  {
    ContainsShorter(SeerRole, VillagerRole);
    ContainsShorter(DoctorRole, VillagerRole);
    ContainsShorter(WolfRole, VillagerRole);
    ContainsShorter(WolfRole, DoctorRole);
    MissingCharNoMatch(DoctorRole, SeerRole, 0);
    MissingCharNoMatch(WolfRole, SeerRole, 0);
  }

  lemma PresentRoleWords()
    ensures Contains(VillagerRole, VillagerRole) && Contains(SeerRole, SeerRole) && Contains(DoctorRole, DoctorRole)
  {
    assert OccursAt(VillagerRole, VillagerRole, 0);
    assert OccursAt(SeerRole, SeerRole, 0);
    assert OccursAt(DoctorRole, DoctorRole, 0);
  }

  /** A decided role, read back as a guess, decides the same role. */
  lemma DecideRoleFixpoint(reply: Option<string>)
    ensures DecideRole(Some(DecideRole(reply))) == DecideRole(reply)
  {
    var role := DecideRole(reply);
    assert Lower(role) == role;
    AbsentRoleWords();
    PresentRoleWords();
  }

  /** `PlayerRole(role.lower())` of a decided role: "wolf" is not a value of the enumeration (its
      member is "werewolf"), so it raises `ValueError`, and no decided role ever becomes WEREWOLF. */
  lemma DecidedRoleAsPlayerRole(reply: Option<string>)
    ensures Lower(DecideRole(reply)) == DecideRole(reply)
    ensures var parsed := RoleFromValue(Lower(DecideRole(reply)));
            && (parsed.None? <==> DecideRole(reply) == WolfRole)
            && parsed != Some(Werewolf)
  {
    var role := DecideRole(reply);
    assert Lower(role) == role;
  }

  // ---------------------------------------------------------------------
  // Game-history entries and get_interwoven_history
  // ---------------------------------------------------------------------

  /** `[From - <a>|<b>]:<x>`: the shape of every history entry `async_respond` writes. */
  function Entry(a: string, b: string, x: string): string {
    Patterns.HeaderOpen + a + "|" + b + Patterns.HeaderClose + x
  }

  function DirectInEntry(sender: string, me: string, text: string): string {
    Entry(sender, " To - " + me + " (me)| Direct Message", " " + text)
  }

  function DirectOutEntry(me: string, sender: string, reply: string): string {
    Entry(me + " (me)", " To - " + sender + "| Direct Message", " " + reply)
  }

  function GroupInEntry(sender: string, me: string, channel: string, text: string): string {
    Entry(sender, " To - " + me + " (me)| Group Message in " + channel, " " + text)
  }

  function GroupOutEntry(me: string, sender: string, channel: string, reply: string): string {
    Entry(me + " (me)", " To - " + sender + "| Group Message in " + channel, " " + reply)
  }

  /** The entry `async_notify` writes for a group message. */
  function HeardEntry(sender: string, text: string): string {
    sender + ": " + text
  }

  const WolfTag := "[" + WolfsChannel + "]"

  /** The entries `get_interwoven_history` keeps: all of them with `includeWolf`, otherwise those
      that do not start with `[wolf's-den]`, in their order. */
  function Shown(history: seq<string>, includeWolf: bool): (r: seq<string>)
    ensures Subsequence(r, history)
    ensures forall e :: e in r <==> e in history && (includeWolf || !StartsWith(e, WolfTag))
    decreases |history|
  {
    if history == [] then []
    else
      var rest := Shown(history[1..], includeWolf);
      assert history == [history[0]] + history[1..];
      if includeWolf || !StartsWith(history[0], WolfTag) then
        assert ([history[0]] + rest)[1..] == rest;
        [history[0]] + rest
      else
        SubsequenceSkip(rest, history[1..], history[0]);
        rest
  }

  /** `get_interwoven_history(include_wolf_channel)`. */
  function InterwovenHistory(history: seq<string>, includeWolf: bool): string {
    Join(Shown(history, includeWolf), "\n")
  }

  /** With the wolf channel included nothing is dropped. */
  lemma {:induction false} ShownAll(history: seq<string>)
    ensures Shown(history, true) == history
    decreases |history|
  {
    if history != [] {
      ShownAll(history[1..]);
      assert history == [history[0]] + history[1..];
    }
  }

  /** Every entry `async_respond` writes is a transcript header (the very pattern the injection
      check looks for) and starts with `[From - `, never with `[wolf's-den]`. */
  lemma EntryIsHeader(a: string, b: string, x: string)
    requires Patterns.NoNewline(a) && Patterns.NoNewline(b)
    ensures Patterns.HeaderAt(Entry(a, b, x))
    ensures !StartsWith(Entry(a, b, x), WolfTag)
  {
    Patterns.HeaderRecognized(a, b, x);
    var e := Entry(a, b, x);
    assert e[1] == 'F';
    assert WolfTag[1] == 'w';
  }

  /** So the filter never drops what the agent said or heard on the wolf channel through
      `async_respond`: such an entry is shown even without `include_wolf_channel`. */
  lemma WolfGroupEntriesShown(history: seq<string>, sender: string, me: string, text: string, reply: string)
    requires Patterns.NoNewline(sender) && Patterns.NoNewline(me)
    ensures GroupInEntry(sender, me, WolfsChannel, text) in history ==>
              GroupInEntry(sender, me, WolfsChannel, text) in Shown(history, false)
    ensures GroupOutEntry(me, sender, WolfsChannel, reply) in history ==>
              GroupOutEntry(me, sender, WolfsChannel, reply) in Shown(history, false)
  {
    assert Patterns.NoNewline(" To - " + me + " (me)| Group Message in " + WolfsChannel);
    assert Patterns.NoNewline(me + " (me)");
    assert Patterns.NoNewline(" To - " + sender + "| Group Message in " + WolfsChannel);
    EntryIsHeader(sender, " To - " + me + " (me)| Group Message in " + WolfsChannel, " " + text);
    EntryIsHeader(me + " (me)", " To - " + sender + "| Group Message in " + WolfsChannel, " " + reply);
  }

  // ---------------------------------------------------------------------
  // _format_key_events
  // ---------------------------------------------------------------------

  const NoKeyEvents := "No key events recorded"

  function KeyEventLine(ev: KeyEvent): string {
    "- " + Title(ev.kind) + ": " + ev.details + " (Players: " + Join(ev.players, ", ") + ")"
  }

  function KeyEventLines(events: seq<KeyEvent>): (r: seq<string>)
    ensures |r| == |events|
    ensures forall i :: 0 <= i < |events| ==> r[i] == KeyEventLine(events[i])
    decreases |events|
  {
    if events == [] then [] else [KeyEventLine(events[0])] + KeyEventLines(events[1..])
  }

  /** `_format_key_events`: the placeholder exactly when there are no events, otherwise the
      events' lines, the first event's line first. */
  function FormatKeyEvents(events: seq<KeyEvent>): (r: string)
    ensures r == NoKeyEvents <==> events == []
    ensures events != [] ==> StartsWith(r, KeyEventLine(events[0]))
  {
    if events == [] then NoKeyEvents
    else
      var r := Join(KeyEventLines(events), "\n");
      assert r[0] == '-' && NoKeyEvents[0] == 'N';
      r
  }

  lemma {:induction false} JoinNoNewline(parts: seq<string>, sep: string)
    requires Patterns.NoNewline(sep)
    requires forall i :: 0 <= i < |parts| ==> Patterns.NoNewline(parts[i])
    ensures Patterns.NoNewline(Join(parts, sep))
    decreases |parts|
  {
    if |parts| > 1 {
      JoinNoNewline(parts[1..], sep);
    }
  }

  /** Joining lines that hold no newline with newlines gives back exactly those lines. */
  lemma {:induction false} JoinLines(ls: seq<string>)
    requires ls != []
    requires forall i :: 0 <= i < |ls| ==> Patterns.NoNewline(ls[i])
    ensures Patterns.Lines(Join(ls, "\n")) == ls
    decreases |ls|
  {
    if |ls| == 1 {
      Patterns.SingleLine(ls[0]);
    } else {
      JoinLines(ls[1..]);
      Patterns.LinesAfterFirst(ls[0], Join(ls[1..], "\n"));
      assert ls == [ls[0]] + ls[1..];
    }
  }

  predicate EventOnOneLine(ev: KeyEvent) {
    && Patterns.NoNewline(ev.kind) && Patterns.NoNewline(ev.details)
    && forall i :: 0 <= i < |ev.players| ==> Patterns.NoNewline(ev.players[i])
  }

  /** One line per event: when no event's text holds a newline, the formatted events split into
      exactly the events' lines. */
  lemma KeyEventsOneLineEach(events: seq<KeyEvent>)
    requires events != []
    requires forall i :: 0 <= i < |events| ==> EventOnOneLine(events[i])
    ensures Patterns.Lines(FormatKeyEvents(events)) == KeyEventLines(events)
    ensures |Patterns.Lines(FormatKeyEvents(events))| == |events|
  {
    var ls := KeyEventLines(events);
    forall i | 0 <= i < |ls| ensures Patterns.NoNewline(ls[i]) {
      KeyEventLineOnOneLine(events[i]);
    }
    JoinLines(ls);
  }

  lemma KeyEventLineOnOneLine(ev: KeyEvent)
    requires EventOnOneLine(ev)
    ensures Patterns.NoNewline(KeyEventLine(ev))
  {
    JoinNoNewline(ev.players, ", ");
    assert Patterns.NoNewline(Title(ev.kind));
  }

  // ---------------------------------------------------------------------
  // _format_behavioral_notes
  // ---------------------------------------------------------------------

  const NoNotes := "No behavioral observations recorded"

  /** Python's `s[-n:]` for `n > 0`: the last `n` elements, or all of a shorter list. */
  function LastN<T>(s: seq<T>, n: nat): (r: seq<T>)
    requires n > 0
    ensures |r| == if |s| < n then |s| else n
    ensures r == s[|s| - |r|..]
  {
    if |s| <= n then s else s[|s| - n..]
  }

  function ObservationLines(obs: seq<string>): (r: seq<string>)
    ensures |r| == |obs|
    ensures forall i :: 0 <= i < |obs| ==> r[i] == "  - " + obs[i]
    decreases |obs|
  {
    if obs == [] then [] else ["  - " + obs[0]] + ObservationLines(obs[1..])
  }

  /** The block of one player: its `name:` line followed by its last three observations at most,
      each as a `  - ` item, or nothing at all when it has no observations. */
  function NoteBlock(k: string, obs: seq<string>): (r: seq<string>)
    ensures r == [] <==> obs == []
    ensures r != [] ==> r[0] == k + ":" && |r| == 1 + (if |obs| < 3 then |obs| else 3)
    ensures forall i :: 1 <= i < |r| ==> r[i] == "  - " + obs[|obs| - |r| + i]
  {
    if obs == [] then [] else [k + ":"] + ObservationLines(LastN(obs, 3))
  }

  /** The lines of the players in `keys`, in that order: each player contributes its `NoteBlock`. */
  function NoteLines(keys: seq<string>, e: map<string, seq<string>>): (r: seq<string>)
    requires forall k :: k in keys ==> k in e
    ensures |r| <= 4 * |keys|
    decreases |keys|
  {
    if keys == [] then []
    else
      assert forall k :: k in keys ==> k == keys[0] || k in keys[1..];
      NoteBlock(keys[0], e[keys[0]]) + NoteLines(keys[1..], e)
  }

  /** The notes of a non-empty run are its first player's block followed by the notes of the rest. */
  lemma NoteLinesCons(c: seq<string>, e: map<string, seq<string>>)
    requires c != [] && forall x :: x in c ==> x in e
    ensures NoteLines(c, e) == NoteBlock(c[0], e[c[0]]) + NoteLines(c[1..], e)
  {
  }

  /** The notes are empty exactly when none of the players has an observation. */
  lemma {:induction false} NoteLinesEmpty(keys: seq<string>, e: map<string, seq<string>>)
    requires forall k :: k in keys ==> k in e
    ensures NoteLines(keys, e) == [] <==> forall k :: k in keys ==> e[k] == []
    decreases |keys|
  {
    if keys != [] {
      assert forall x :: x in keys[1..] ==> x in keys;
      assert forall x :: x in keys ==> x == keys[0] || x in keys[1..];
      NoteLinesCons(keys, e);
      NoteLinesEmpty(keys[1..], e);
    }
  }

  /** The notes open with the name line of one of the players. */
  lemma {:induction false} NoteLinesOpenWithName(keys: seq<string>, e: map<string, seq<string>>)
    requires forall k :: k in keys ==> k in e
    ensures NoteLines(keys, e) != [] ==> exists k :: k in keys && NoteLines(keys, e)[0] == k + ":"
    decreases |keys|
  {
    if keys != [] {
      var k := keys[0];
      assert forall x :: x in keys[1..] ==> x in keys;
      NoteLinesCons(keys, e);
      if e[k] == [] {
        NoteLinesOpenWithName(keys[1..], e);
        if NoteLines(keys, e) != [] {
          var j :| j in keys[1..] && NoteLines(keys[1..], e)[0] == j + ":";
          assert j in keys;
        }
      } else {
        assert k in keys && NoteLines(keys, e)[0] == k + ":";
      }
    }
  }

  /** The notes of two runs of players are the notes of the first run followed by those of the second. */
  lemma {:induction false} NoteLinesAppend(a: seq<string>, b: seq<string>, e: map<string, seq<string>>)
    requires forall k :: k in a + b ==> k in e
    ensures NoteLines(a + b, e) == NoteLines(a, e) + NoteLines(b, e)
    decreases |a|
  {
    if a == [] {
      assert a + b == b;
    } else {
      var c := a + b;
      assert c[0] == a[0] && c[1..] == a[1..] + b;
      assert forall k :: k in a[1..] + b ==> k in c;
      assert forall k :: k in a ==> k in c;
      NoteLinesAppend(a[1..], b, e);
      NoteLinesCons(c, e);
      NoteLinesCons(a, e);
      var x, y, z := NoteBlock(a[0], e[a[0]]), NoteLines(a[1..], e), NoteLines(b, e);
      assert NoteLines(c, e) == x + (y + z);
      assert NoteLines(a, e) == x + y;
      AppendAssoc(x, y, z);
    }
  }

  /** The notes of a single player are that player's block. */
  lemma NoteLinesOne(k: string, e: map<string, seq<string>>)
    requires k in e
    ensures NoteLines([k], e) == NoteBlock(k, e[k])
  {
    NoteLinesCons([k], e);
    assert [k][1..] == [];
  }

  /** Each player's lines are its own block, wherever it stands in the order: the notes of `a`,
      then `k`'s block, then the notes of `b`. */
  lemma NoteLinesSplit(a: seq<string>, k: string, b: seq<string>, e: map<string, seq<string>>)
    requires forall x :: x in a + [k] + b ==> x in e
    ensures NoteLines(a + [k] + b, e) == NoteLines(a, e) + NoteBlock(k, e[k]) + NoteLines(b, e)
  {
    assert forall x :: x in a + [k] ==> x in a + [k] + b;
    NoteLinesAppend(a + [k], b, e);
    NoteLinesAppend(a, [k], e);
    NoteLinesOne(k, e);
  }

  /** Formatted notes never read as the placeholder: their first line ends in a colon,
      and the placeholder has none. */
  lemma NotesNotPlaceholder(keys: seq<string>, e: map<string, seq<string>>)
    requires forall k :: k in keys ==> k in e
    ensures Join(NoteLines(keys, e), "\n") != NoNotes
  {
    var lines := NoteLines(keys, e);
    var r := Join(lines, "\n");
    NoteLinesOpenWithName(keys, e);
    if lines != [] && r == NoNotes {
      var k :| k in keys && lines[0] == k + ":";
      assert StartsWith(r, k + ":");
      assert r[|k|] == ':';
      PlaceholderHasNoColon(|k|);
    }
  }

  lemma PlaceholderHasNoColon(i: nat)
    requires i < |NoNotes|
    ensures NoNotes[i] != ':'
  {
    assert ':' !in NoNotes;
  }

  /** `_format_behavioral_notes`: the placeholder exactly when no player has notes at all; an
      empty text when every noted player's list is empty. */
  function FormatBehavioralNotes(notes: Dict<seq<string>>): (r: string)
    requires notes.Valid()
    ensures r == NoNotes <==> notes.keys == []
    ensures notes.keys != [] && (forall k :: k in notes.entries ==> notes.entries[k] == []) ==> r == []
  {
    if notes.keys == [] then NoNotes
    else
      NotesNotPlaceholder(notes.keys, notes.entries);
      NoteLinesEmpty(notes.keys, notes.entries);
      Join(NoteLines(notes.keys, notes.entries), "\n")
  }

  /** No player name and no observation of the players in `keys` holds a newline. */
  predicate NotesOnOneLine(keys: seq<string>, e: map<string, seq<string>>) {
    forall k :: k in keys ==> k in e && Patterns.NoNewline(k) && AllOnOneLine(e[k])
  }

  predicate AllOnOneLine(ls: seq<string>) {
    forall i :: 0 <= i < |ls| ==> Patterns.NoNewline(ls[i])
  }

  lemma AppendOnOneLine(a: seq<string>, b: seq<string>)
    requires AllOnOneLine(a) && AllOnOneLine(b)
    ensures AllOnOneLine(a + b)
  {
    assert forall i :: 0 <= i < |a + b| ==> (a + b)[i] == if i < |a| then a[i] else b[i - |a|];
  }

  lemma NoteBlockOnOneLine(k: string, obs: seq<string>)
    requires Patterns.NoNewline(k) && AllOnOneLine(obs)
    ensures AllOnOneLine(NoteBlock(k, obs))
  {
    if obs != [] {
      var tail := LastN(obs, 3);
      assert AllOnOneLine(tail) by {
        forall i | 0 <= i < |tail| ensures Patterns.NoNewline(tail[i]) {
          assert tail[i] == obs[|obs| - |tail| + i];
        }
      }
      var items := ObservationLines(tail);
      forall i | 0 <= i < |items| ensures Patterns.NoNewline(items[i]) {
        var x := tail[i];
        assert items[i] == "  - " + x;
        assert forall j :: 0 <= j < |"  - " + x| ==> ("  - " + x)[j] == if j < 4 then "  - "[j] else x[j - 4];
      }
      var head := k + ":";
      assert forall j :: 0 <= j < |head| ==> head[j] == if j < |k| then k[j] else ':';
      AppendOnOneLine([head], items);
    }
  }

  lemma {:induction false} NoteLinesOnOneLine(keys: seq<string>, e: map<string, seq<string>>)
    requires NotesOnOneLine(keys, e)
    ensures AllOnOneLine(NoteLines(keys, e))
    decreases |keys|
  {
    if keys != [] {
      var k := keys[0];
      assert k in keys;
      assert forall x :: x in keys[1..] ==> x in keys;
      NoteLinesOnOneLine(keys[1..], e);
      NoteLinesCons(keys, e);
      NoteBlockOnOneLine(k, e[k]);
      AppendOnOneLine(NoteBlock(k, e[k]), NoteLines(keys[1..], e));
    }
  }

  /** One line per entry: when no name and no observation holds a newline, the formatted notes
      split into exactly the players' blocks, in order. */
  lemma NotesOneLineEach(notes: Dict<seq<string>>)
    requires notes.Valid()
    requires exists k :: k in notes.entries && notes.entries[k] != []
    requires NotesOnOneLine(notes.keys, notes.entries)
    ensures Patterns.Lines(FormatBehavioralNotes(notes)) == NoteLines(notes.keys, notes.entries)
  {
    var k :| k in notes.entries && notes.entries[k] != [];
    assert k in notes.keys;
    NoteLinesOnOneLine(notes.keys, notes.entries);
    NoteLinesEmpty(notes.keys, notes.entries);
    JoinLines(NoteLines(notes.keys, notes.entries));
  }

  // ---------------------------------------------------------------------
  // The behaviour classifier, for one lower-cased message `content`
  // ---------------------------------------------------------------------

  /** A message holding this word, lower-cased, is a vote (and, in the discussion flow, asks for one). */
  const VoteKeyword := "vote"
  /** The words that make a message an accusation. */
  const SuspiciousCue := "suspicious"
  const WolfCue := "wolf"
  /** The words that, with the sender's name, make a message defensive. */
  const NotCue := "not"
  const InnocentCue := "innocent"

  /** The note filed under a voter. */
  function VoteNote(target: string): string {
    "Voted for " + target
  }

  /** The vote rule: a vote target when the text holds "vote" and the vote pattern matches. */
  function VoteRuleTarget(content: string): Option<string> {
    if Contains(content, VoteKeyword) then Patterns.VoteTarget(content) else None
  }

  /** The guard on "vote" adds nothing: the pattern only matches text that holds "vote". */
  lemma VoteGuardRedundant(content: string)
    ensures VoteRuleTarget(content) == Patterns.VoteTarget(content)
  {
    var m := Patterns.VoteTarget(content);
    if m.Some? {
      var k :| 0 <= k <= |content| && Patterns.VoteAt(content[k..]) == m;
      assert StartsWith(content[k..], Patterns.VoteWord);
      assert content[k..][..4] == Patterns.VoteWord[..4] == VoteKeyword;
      assert OccursAt(content, VoteKeyword, k);
    }
  }

  /** The accusation rule fires on "suspicious" or "wolf". */
  predicate Accuses(content: string) {
    Contains(content, SuspiciousCue) || Contains(content, WolfCue)
  }

  /** The alive players whose lower-cased name occurs in the text, in the order of `alive`. */
  function Accused(alive: seq<string>, content: string): (r: seq<string>)
    ensures |r| <= |alive|
    ensures forall p :: p in r <==> p in alive && Contains(content, Lower(p))
    ensures Distinct(alive) ==> Distinct(r)
    decreases |alive|
  {
    if alive == [] then []
    else
      var init := alive[..|alive| - 1];
      var last := alive[|alive| - 1];
      assert alive == init + [last];
      var r := Accused(init, content) + (if Contains(content, Lower(last)) then [last] else []);
      assert Distinct(alive) ==> last !in init;
      assert Distinct(alive) ==> Distinct(init);
      r
  }

  /** The note filed under the sender for each player they accuse. */
  function AccusationNote(p: string): string {
    "Accused " + p + " of suspicious behavior"
  }

  function AccusationNotes(ps: seq<string>): (r: seq<string>)
    ensures |r| == |ps|
    ensures forall i :: 0 <= i < |ps| ==> r[i] == AccusationNote(ps[i])
    decreases |ps|
  {
    if ps == [] then []
    else AccusationNotes(ps[..|ps| - 1]) + [AccusationNote(ps[|ps| - 1])]
  }

  /** One more alive player considered: it joins the accused exactly when the text names it. */
  lemma AccusedSnoc(alive: seq<string>, i: nat, content: string)
    requires i < |alive|
    ensures Accused(alive[..i + 1], content)
            == Accused(alive[..i], content) + (if Contains(content, Lower(alive[i])) then [alive[i]] else [])
  {
    assert alive[..i + 1][..i] == alive[..i];
  }

  lemma AccusationNotesSnoc(ps: seq<string>, p: string)
    ensures AccusationNotes(ps + [p]) == AccusationNotes(ps) + [AccusationNote(p)]
  {
    assert (ps + [p])[..|ps|] == ps;
  }

  /** The defensive rule: the sender's name AS GIVEN occurs in the lower-cased text, and the text
      says "not" or "innocent". */
  predicate Defends(sender: string, content: string) {
    Contains(Lower(content), sender) && (Contains(content, NotCue) || Contains(content, InnocentCue))
  }

  /** A sender whose name has an upper-case letter never triggers the defensive rule. */
  lemma CapitalisedSenderNeverDefends(sender: string, text: string, k: nat)
    requires k < |sender| && IsUpper(sender[k])
    ensures !Defends(sender, Lower(text))
  {
    LowerHasNoUpper(Lower(text));
    NoUpperNoMatch(Lower(Lower(text)), sender, k);
  }

  const DefensiveNote := "Defensive behavior in response to accusations"

  /** The notes the classifier adds to the sender's list for one message, in the order the rules
      run: the vote, then one accusation per accused alive player, then the defensive note. */
  function BehaviorNotes(sender: string, content: string, alive: seq<string>): seq<string> {
    VoteNotes(content) + AccuseNotes(content, alive) + DefenseNotes(sender, content)
  }

  function VoteNotes(content: string): seq<string> {
    match VoteRuleTarget(content) case Some(t) => [VoteNote(t)] case None => []
  }

  function AccuseNotes(content: string, alive: seq<string>): seq<string> {
    if Accuses(content) then AccusationNotes(Accused(alive, content)) else []
  }

  function DefenseNotes(sender: string, content: string): seq<string> {
    if Defends(sender, content) then [DefensiveNote] else []
  }

  /** +0.2 for each player of `ps`, one after the other. */
  function AccuseAll(e: map<string, PlayerState>, ps: seq<string>): map<string, PlayerState>
    decreases |ps|
  {
    if ps == [] then e else AddScore(AccuseAll(e, ps[..|ps| - 1]), ps[|ps| - 1], 0.2)
  }

  lemma AccuseAllSnoc(e: map<string, PlayerState>, ps: seq<string>, p: string)
    ensures AccuseAll(e, ps + [p]) == AddScore(AccuseAll(e, ps), p, 0.2)
  {
    assert (ps + [p])[..|ps|] == ps;
  }

  /** One more accused player `p` adds 0.2 to its score and files one more note under the sender. */
  lemma AccuseOneMore(e0: map<string, PlayerState>, notes0: Dict<seq<string>>, sender: string,
                      before: seq<string>, p: string)
    requires notes0.Valid()
    ensures AccuseAll(e0, before + [p]) == AddScore(AccuseAll(e0, before), p, 0.2)
    ensures var notes := AddNotes(notes0, sender, AccusationNotes(before));
            AddNotes(notes0, sender, AccusationNotes(before + [p]))
            == notes.Put(sender, notes.Get(sender, []) + [AccusationNote(p)])
  {
    AccuseAllSnoc(e0, before, p);
    AccusationNotesSnoc(before, p);
    AddNotesTwice(notes0, sender, AccusationNotes(before), [AccusationNote(p)]);
  }

  /** Accusing distinct players adds exactly 0.2 to the score of each of them and changes nothing else. */
  lemma {:induction false} AccuseAllEffect(e: map<string, PlayerState>, ps: seq<string>)
    requires Distinct(ps)
    ensures AccuseAll(e, ps).Keys == e.Keys
    ensures forall n :: n in e ==>
              AccuseAll(e, ps)[n] == e[n].(suspicionScore := e[n].suspicionScore + if n in ps then 0.2 else 0.0)
    decreases |ps|
  {
    if ps != [] {
      var init := ps[..|ps| - 1];
      var last := ps[|ps| - 1];
      assert ps == init + [last];
      assert last !in init;
      assert Distinct(init);
      AccuseAllEffect(e, init);
    }
  }

  /** The classifier's effect on the player table for one message, in the order the rules run. */
  function BehaviorEffect(e: map<string, PlayerState>, sender: string, content: string, alive: seq<string>): map<string, PlayerState> {
    RuleEffects(e, sender, VoteRuleTarget(content), Accuses(content), Accused(alive, content), Defends(sender, content))
  }

  /** The three rules' updates, given what each rule decided: the vote target, whether the
      accusation rule fires and whom it accuses, whether the defensive rule fires. */
  function RuleEffects(e: map<string, PlayerState>, sender: string, t: Option<string>, accuses: bool,
                       accused: seq<string>, defends: bool): map<string, PlayerState> {
    var e1 := match t case Some(v) => Voted(e, sender, v) case None => e;
    var e2 := if accuses then AccuseAll(e1, accused) else e1;
    if defends then AddScore(e2, sender, 0.1) else e2
  }

  lemma RuleEffectsScores(e: map<string, PlayerState>, sender: string, t: Option<string>, accuses: bool,
                          accused: seq<string>, defends: bool)
    requires Distinct(accused)
    ensures RuleEffects(e, sender, t, accuses, accused, defends).Keys == e.Keys
    ensures forall n :: n in e ==>
              var p, q := e[n], RuleEffects(e, sender, t, accuses, accused, defends)[n];
              && q.suspicionScore == p.suspicionScore
                   + (if accuses && n in accused then 0.2 else 0.0)
                   + (if defends && n == sender then 0.1 else 0.0)
              && SameStanding(p, q)
              && (t.None? ==> q.votingHistory == p.votingHistory)
  {
    var e1 := match t case Some(v) => Voted(e, sender, v) case None => e;
    VoteStage(e, sender, t);
    var e2 := if accuses then AccuseAll(e1, accused) else e1;
    AccuseAllEffect(e1, accused);
    AddScoreEffect(e2, sender, 0.1);
  }


  /** The classifier adds 0.2 to every accused alive player and 0.1 to a defensive sender, and
      records at most the one vote; status, suspected role and claims of every player stay. */
  lemma BehaviorScores(e: map<string, PlayerState>, sender: string, content: string, alive: seq<string>)
    requires Distinct(alive)
    ensures BehaviorEffect(e, sender, content, alive).Keys == e.Keys
    ensures forall n :: n in e ==>
              var p, q := e[n], BehaviorEffect(e, sender, content, alive)[n];
              && q.suspicionScore == p.suspicionScore
                   + (if Accuses(content) && n in alive && Contains(content, Lower(n)) then 0.2 else 0.0)
                   + (if Defends(sender, content) && n == sender then 0.1 else 0.0)
              && SameStanding(p, q)
    ensures VoteRuleTarget(content).None? ==> forall n :: n in e ==>
              BehaviorEffect(e, sender, content, alive)[n].votingHistory == e[n].votingHistory
  {
    RuleEffectsScores(e, sender, VoteRuleTarget(content), Accuses(content), Accused(alive, content), Defends(sender, content));
  }

  /** On a valid player table, the classifier's effect for one lower-cased message: every
      ALIVE player the text names gains 0.2 when the accusation rule fires, a defensive sender
      0.1; status, suspected role and claims stay, so every claim is kept. */
  lemma ClassifierScores(d: Players, sender: string, content: string)
    requires d.Valid()
    ensures var alive := AliveAmong(d.keys, d.entries);
            var after := BehaviorEffect(d.entries, sender, content, alive);
            && after.Keys == d.entries.Keys
            && (forall n :: n in d.entries ==>
                  var p, q := d.entries[n], after[n];
                  && q.suspicionScore == p.suspicionScore
                       + (if Accuses(content) && p.status == Alive && Contains(content, Lower(n)) then 0.2 else 0.0)
                       + (if Defends(sender, content) && n == sender then 0.1 else 0.0)
                  && SameStanding(p, q))
            && ClaimsKept(d.entries, after)
  {
    AliveAmongDistinct(d.keys, d.entries);
    BehaviorScores(d.entries, sender, content, AliveAmong(d.keys, d.entries));
  }

  /** Status, suspected role and claims: what the classifier never touches. */
  predicate SameStanding(p: PlayerState, q: PlayerState) {
    p.status == q.status && p.suspectedRole == q.suspectedRole && p.claims == q.claims
  }

  lemma VoteStage(e: map<string, PlayerState>, sender: string, t: Option<string>)
    ensures var e1 := match t case Some(v) => Voted(e, sender, v) case None => e;
            && e1.Keys == e.Keys
            && (forall n :: n in e ==> SameStanding(e[n], e1[n]) && e1[n].suspicionScore == e[n].suspicionScore)
            && (t.None? ==> e1 == e)
  {
    if t.Some? {
      VotedEffect(e, sender, t.value);
    }
  }

  /** `add_behavioral_note` for each of `obs`, one after the other: no change without
      observations, otherwise the player's list (created last when new) grows by `obs`. */
  function AddNotes(notes: Dict<seq<string>>, p: string, obs: seq<string>): (r: Dict<seq<string>>)
    requires notes.Valid()
    ensures r.Valid()
  {
    if obs == [] then notes else notes.Put(p, notes.Get(p, []) + obs)
  }

  /** Adding notes in two rounds is adding them in one. */
  lemma AddNotesTwice(notes: Dict<seq<string>>, p: string, a: seq<string>, b: seq<string>)
    requires notes.Valid()
    ensures AddNotes(AddNotes(notes, p, a), p, b) == AddNotes(notes, p, a + b)
  {
    if a == [] {
      assert a + b == b;
    } else if b == [] {
      assert a + b == a;
    } else {
      assert notes.Get(p, []) + a + b == notes.Get(p, []) + (a + b);
    }
  }

  // ---------------------------------------------------------------------
  // The moderator tracker, for one lower-cased message `content`
  // ---------------------------------------------------------------------

  /** The announcements the tracker looks for, and the events it logs for them. */
  const NightCue := "night phase"
  const DayCue := "day phase"
  const EliminationType := "elimination"
  const PhaseChangeType := "phase_change"
  const NightBegan := "Night phase began"
  const DayBegan := "Day phase began"

  function EliminationNote(p: string): string {
    p + " was eliminated"
  }

  function EliminationEvents(content: string): (r: seq<KeyEvent>)
    ensures |r| <= 1
  {
    match Patterns.EliminatedPlayer(content)
    case Some(p) => [KeyEvent(EliminationType, EliminationNote(p), [p])]
    case None => []
  }

  /** The phase switch: "night phase" wins over "day phase", so at most one phase event. */
  function PhaseEvents(content: string): (r: seq<KeyEvent>)
    ensures |r| <= 1
    ensures r != [] <==> Contains(content, NightCue) || Contains(content, DayCue)
    ensures Contains(content, NightCue) ==> r == [KeyEvent(PhaseChangeType, NightBegan, [])]
  {
    if Contains(content, NightCue) then [KeyEvent(PhaseChangeType, NightBegan, [])]
    else if Contains(content, DayCue) then [KeyEvent(PhaseChangeType, DayBegan, [])]
    else []
  }

  /** The events one moderator message adds, elimination first. */
  function ModeratorEvents(content: string): seq<KeyEvent> {
    EliminationEvents(content) + PhaseEvents(content)
  }

  /** The player table after an announcement: the player it names, when registered, is dead. */
  function Eliminated(e: map<string, PlayerState>, content: string): map<string, PlayerState> {
    match Patterns.EliminatedPlayer(content)
    case Some(p) => if p in e then e[p := e[p].(status := Dead)] else e
    case None => e
  }

  /** An announcement changes the status of the player it names, to DEAD, and nothing else. */
  lemma EliminatedEffect(e: map<string, PlayerState>, content: string)
    ensures Eliminated(e, content).Keys == e.Keys
    ensures forall n :: n in e ==>
              Eliminated(e, content)[n] == if Patterns.EliminatedPlayer(content) == Some(n) then e[n].(status := Dead) else e[n]
  {
  }

  /** Every registered player is still registered with the same claims. */
  predicate ClaimsKept(before: map<string, PlayerState>, after: map<string, PlayerState>) {
    forall n :: n in before ==> n in after && after[n].claims == before[n].claims
  }

  /** What a group message does to the player table in `async_notify`: the classifier, then the
      moderator tracker when the moderator sent it. */
  function GroupEffect(keys: seq<string>, e: map<string, PlayerState>, sender: string, text: string): map<string, PlayerState>
    requires Known(keys, e)
  {
    var content := Lower(text);
    var e1 := BehaviorEffect(e, sender, content, AliveAmong(keys, e));
    if sender == ModeratorName then Eliminated(e1, content) else e1
  }

  /** A group message keeps every registered player, with the claims it had. */
  lemma GroupEffectKeepsClaims(d: Players, sender: string, text: string, n: string)
    requires d.Valid() && n in d.entries
    ensures var after := GroupEffect(d.keys, d.entries, sender, text);
            n in after && after[n].claims == d.entries[n].claims
  {
    var content := Lower(text);
    ClassifierScores(d, sender, content);
    EliminatedEffect(BehaviorEffect(d.entries, sender, content, AliveAmong(d.keys, d.entries)), content);
  }

  /** The day/night clock: whether it is night, and how many days and nights have begun. */
  datatype Clock = Clock(isNight: bool, days: nat, nights: nat)

  /** The clock after an announcement: "night phase" begins a night, otherwise "day phase"
      begins a day, otherwise the clock stands still. */
  function PhaseStep(c: Clock, content: string): Clock {
    if Contains(content, NightCue) then Clock(true, c.days, c.nights + 1)
    else if Contains(content, DayCue) then Clock(false, c.days + 1, c.nights)
    else c
  }

  /** The clock after a group message: only the moderator's announcements move it. */
  function HeardClock(c: Clock, sender: string, text: string): Clock {
    if sender == ModeratorName then PhaseStep(c, Lower(text)) else c
  }

  /** The agent's own state after it hears a group message while the table is `d`: the sender's
      behaviour is noted against the players alive in `d`, and a moderator's announcement is logged. */
  function HeardState(s: MyState, d: Players, sender: string, text: string): MyState
    requires d.Valid() && s.behavioralNotes.Valid()
  {
    var content := Lower(text);
    assert Known(d.keys, d.entries);
    s.(behavioralNotes := AddNotes(s.behavioralNotes, sender, BehaviorNotes(sender, content, AliveAmong(d.keys, d.entries))),
       keyEvents := s.keyEvents + (if sender == ModeratorName then ModeratorEvents(content) else []))
  }

  /** One announcement begins at most one day or night, begins one exactly when it logs a phase
      change, and leaves the clock in the phase it began. */
  lemma PhaseStepMoves(c: Clock, content: string)
    ensures var r := PhaseStep(c, content);
            && r.days + r.nights <= c.days + c.nights + 1
            && r.days >= c.days && r.nights >= c.nights
            && (r != c <==> PhaseEvents(content) != [])
            && (r.nights > c.nights ==> r.isNight)
            && (r.days > c.days ==> !r.isNight)
  {
  }

  /** A message that starts with `<w> has been eliminated` records the elimination of `w`. */
  lemma EliminationRecorded(w: string, rest: string)
    requires |w| > 0 && AllWordChars(w)
    ensures EliminationEvents(w + Patterns.EliminatedWords + rest) == [KeyEvent(EliminationType, EliminationNote(w), [w])]
  {
    Patterns.EliminatedRoundTrip(w, rest);
  }

  /** The name read off a lower-cased announcement has no upper-case letter, so a player whose
      registered name has one is never marked dead by it. */
  lemma EliminatedNameIsLower(text: string)
    ensures var m := Patterns.EliminatedPlayer(Lower(text));
            m.Some? ==> NoUpper(m.value)
  {
    var s := Lower(text);
    var m := Patterns.EliminatedPlayer(s);
    if m.Some? {
      LowerHasNoUpper(text);
      var k :| 0 <= k <= |s| && Patterns.EliminatedAt(s[k..]) == m;
      assert s[k..][..|m.value|] == m.value by {
        assert StartsWith(s[k..], m.value + Patterns.EliminatedWords);
        assert s[k..][..|m.value|] == (m.value + Patterns.EliminatedWords)[..|m.value|];
      }
      forall i | 0 <= i < |m.value| ensures !IsUpper(m.value[i]) {
        assert m.value[i] == s[k + i];
      }
    }
  }
}
