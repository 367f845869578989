# Werewolf agent memory and reasoning core, in Dafny

A model of the core of a chain-of-thought Werewolf-playing agent, with proofs about it.
It covers four parts:

- **The memory store** (`MemoryStorer`) keeps what the agent knows of every other player: status, suspected role, claims, votes and a suspicion score. It also keeps the agent's own state (thoughts, key events, behavioural notes, alliances, role actions) and the day/night clock.
- **The prompt-injection check** runs on every incoming claim.
- **The agent** (`CoTAgent`) records every incoming message, classifies group messages with three behaviour rules and tracks the moderator's announcements. It assigns its own role on the moderator's first direct message, and answers requests through a two-stage "inner monologue, then final action" pipeline.
- **The metrics fold** (`_calculate_metrics`) turns per-game result records into win, loss, survival and failure counts and rates.

Modules:

| file | module | contents |
|---|---|---|
| `wrappers.dfy` | `Wrappers`, `Python` | `Option`; the Python exceptions that can escape the code (`AttributeError`, `ValueError`, `UnboundLocalError`) and a value-or-exception result `Raises` |
| `text.dfy` | `Text` | ASCII `str.lower`, `str.strip`, `str.title`, `str.join`, `in` and `find` |
| `collections.dfy` | `Collections` | an insertion-ordered dictionary (the order a Python `dict` iterates in) and subsequences |
| `patterns.dfy` | `Patterns` | hand-written matchers for `vote (?:for )?(\w+)`, `(\w+) has been eliminated`, `re.findall(r"\[From - .*?\|.*?\]:.*", …)` and `str.split(…)[1]` |
| `injection_check.dfy` | `Injection` | `_check_for_injections`: the structural check and the analyser-reply parser |
| `memory_storer.dfy` | `MemoryStore` | the entities, the pure queries (alive players, the stable sort by score) and the class `MemoryStorer` |
| `agent_rules.dfy` | `AgentRules` | the agent's pure logic: role mapping, history entries and filter, the formatters, and what each classifier rule and the moderator tracker decide |
| `cot_agent.dfy` | `CotAgent` | the class `CoTAgent`: `async_notify`, the classifier and tracker methods, the flows and `async_respond` |
| `metrics.dfy` | `Metrics` | `_calculate_metrics` as a loop, proved against prefix-recursive counts |

Each oracle (LLM) reply is a parameter. `Some(text)` means the request succeeded. `None` means the request, or the decoding of its answer, failed and the `except` branch ran.

The phase switch of the moderator tracker is an `if`/`elif`. So a message that mentions both "night phase" and "day phase" begins only a night.

## Model

| member | source | states |
|---|---|---|
| MemoryStore.RoleFromValue | memory_storer.py:11-16 | `PlayerRole(s)` yields the member whose value is `s`; when no member has that value it is `None`, where Python raises `ValueError` |
| MemoryStore.RoleValueRoundTrip | memory_storer.py:11-16 | every role is recovered from its value |
| MemoryStore.MemoryStorer.constructor | memory_storer.py:77-86 | empty player table, default own state, clock at day 0 / night 0 / not night, both roles UNKNOWN, no analyser configuration |
| MemoryStore.MemoryStorer.InitializePlayer | memory_storer.py:88-91 | the table becomes `Initialized` of the old one: the agent itself and known players leave it unchanged; otherwise exactly one new entry goes last: ALIVE, score 0, UNKNOWN role, empty claims and vote lists (defaults at memory_storer.py:28-43) |
| MemoryStore.MemoryStorer.AddClaim | memory_storer.py:93-110 | the table becomes `Claimed` of the old one, with the text and verdict of the injection check; no player is added; without analyser configuration no score changes; a score of 0 stays 0 |
| MemoryStore.ClaimedEffect | memory_storer.py:93-110 | an unknown player leaves the table exactly as it was; a known player gets exactly one more claim, at the end, a doubled score iff the claim was flagged, and no other player or field changes |
| MemoryStore.RegisteredEffect | src/werewolf_agents/cot_with_memory/agent/cot_agent.py:103-109 | `initialize_player` then `add_claim` touch only the sender: a known sender gets one more claim (score doubled iff flagged); a newcomer goes last with the default state holding that one claim, its score staying 0; the agent itself changes nothing; every other player is unchanged |
| Injection.CheckForInjections | memory_storer.py:112-172 | without configuration the result is `(content, false)`; the flag is set iff configured and more than one line holds a transcript header, and then the text is unchanged; a failed request keeps the text |
| Injection.ForgesTranscript | memory_storer.py:122-125 | the structural check flags iff more than one line of the message holds a `[From - …\|…]:` header |
| Patterns.HeaderMatchesAreHeaderLines | memory_storer.py:122-124 | the number of `re.findall` matches of the header pattern equals the number of lines that hold a header, because the trailing `.*` runs to the end of the line |
| Injection.OneLineNeverForges | memory_storer.py:122-125 | a message on one line is never flagged, however many headers it holds |
| Injection.TwoHeaderLinesForge | memory_storer.py:122-125 | two lines that each start with a header are flagged |
| Injection.ParseAnalysis | memory_storer.py:158-168 | the parsed flag is always false (an upper-case needle searched in lower-cased text); without the marker the text is kept; a replacement is never empty, never the placeholder and never holds the marker |
| Injection.ParseAnalysisReadsField | memory_storer.py:163-166 | a reply of the form `<pre>CLEANED_CONTENT:<body>`, with no earlier marker, yields `body` stripped, unless that is empty or the placeholder |
| Patterns.SecondField | memory_storer.py:164 | `split(sep)[1]`: the text right after the first separator, up to the next separator or the end, holding no separator |
| Text.StripEmptyIffBlank | memory_storer.py:164-165 | the stripped field is empty exactly when it is all whitespace |
| Text.StripSurrounds | memory_storer.py:164 | stripping removes only leading and trailing whitespace |
| Text.StripIdempotent | memory_storer.py:164 | stripping twice is stripping once |
| MemoryStore.MemoryStorer.RecordVote | memory_storer.py:174-179 | the voter's history grows by the target iff the voter is known, and the target's tally grows by the voter iff the target is known; no other field or player changes |
| MemoryStore.VotedEffect | memory_storer.py:174-179 | the same two independent updates, stated for every player of the table, including a player who votes for themself |
| MemoryStore.VotedKeepsAlive | memory_storer.py:174-179 | a vote leaves the alive list unchanged |
| MemoryStore.MemoryStorer.MarkPlayerDead | memory_storer.py:181-184 | only the named known player's status changes, to DEAD; unknown names change nothing |
| MemoryStore.MemoryStorer.UpdateSuspicionScore | memory_storer.py:186-189 | `delta` is added to the named known player's score; unknown names change nothing |
| MemoryStore.AddScoreEffect | memory_storer.py:186-189 | a score update changes that one player's score by exactly `delta`, and nothing else |
| MemoryStore.MemoryStorer.SetSuspectedRole | memory_storer.py:191-194 | only the named known player's suspected role changes |
| MemoryStore.AliveAmong | memory_storer.py:196-199 | the ALIVE players, exactly, in table order (a subsequence of the keys) |
| MemoryStore.MemoryStorer.GetAlivePlayers | memory_storer.py:196-199 | exactly the ALIVE players, in insertion order, without repetitions |
| MemoryStore.SortByScore | memory_storer.py:205-207 | the sort by descending score is a permutation of its input and non-increasing |
| MemoryStore.InsertPermutes | memory_storer.py:205-207 | each insertion step adds exactly the inserted player (multiset) |
| MemoryStore.SortKeepsTies | memory_storer.py:205-207 | stability: for every score, the tied players leave in the order they came in |
| MemoryStore.MostSuspicious | memory_storer.py:201-208 | `[:count]` of the sorted ALIVE players: its length is Python's slice length (also for a negative count); all are ALIVE; scores are non-increasing; no ALIVE player left out outscores one chosen; ties keep registration order |
| MemoryStore.MemoryStorer.GetMostSuspiciousPlayers | memory_storer.py:201-208 | at most `count` names, all ALIVE |
| MemoryStore.MemoryStorer.GetPlayerClaims | memory_storer.py:210-214 | the claims of a known player, and none for an unknown one |
| MemoryStore.MemoryStorer.UpdateMyRole | memory_storer.py:253-256 | sets the role and logs one thought naming its value |
| MemoryStore.MemoryStorer.UpdateMyClaimedRole | memory_storer.py:258-261 | sets the claimed role, leaving the real role alone, and logs one thought |
| MemoryStore.MemoryStorer.AddMyClaim | memory_storer.py:263-270 | one more own claim; nothing else changes |
| MemoryStore.MemoryStorer.UpdateAlliance | memory_storer.py:272-276 | records the trust level; a thought is logged only for a non-empty reason |
| MemoryStore.MemoryStorer.MarkEnemy | memory_storer.py:278-281 | records the reason and logs one thought |
| MemoryStore.MemoryStorer.AddThoughtProcess | memory_storer.py:283-290 | one more thought at the end of the log; nothing else changes |
| MemoryStore.MemoryStorer.RecordKeyEvent | memory_storer.py:292-300 | one more key event at the end of the log |
| MemoryStore.MemoryStorer.AddBehavioralNote | memory_storer.py:302-309 | one more observation for that player, known or not; a player noted for the first time goes last |
| MemoryStore.MemoryStorer.RecordVoteJustification | memory_storer.py:311-314 | records or replaces the reason and logs one thought |
| MemoryStore.MemoryStorer.UpdateStrategy | memory_storer.py:316-319 | replaces the strategy and logs one thought |
| MemoryStore.MemoryStorer.RecordRoleAction | memory_storer.py:321-328 | SEER+investigate sets `investigated[target] := result`, DOCTOR+protect appends to the protections, WEREWOLF+reveal_pack appends to the pack; any other combination changes nothing; after a SEER investigation the state snapshot raises, and a snapshot that raised before still raises |
| MemoryStore.MemoryStorer.GetMyState | memory_storer.py:330-345 | the snapshot raises `AttributeError` (`.value` on text or `None`) exactly when an investigation is on record, and is the state itself otherwise; the consequences are stated on `RecordRoleAction`, `SeerFlow`, `CotAgent.SeerAnswerLocks`, `CotAgent.LockedForever` and `CotAgent.SeerAnswersOnce` |
| AgentRules.DecideRole | src/werewolf_agents/cot_with_memory/agent/cot_agent.py:213-235 | always villager, seer, doctor or wolf; "villager" beats "seer", which beats "doctor", and any other reply, the empty one included, is "wolf"; a failed request is "villager" |
| AgentRules.DecideRoleFixpoint | src/werewolf_agents/cot_with_memory/agent/cot_agent.py:223-231 | a decided role, read back as a guess, decides itself |
| AgentRules.DecidedRoleAsPlayerRole | src/werewolf_agents/cot_with_memory/agent/cot_agent.py:118-119 | `PlayerRole(role.lower())` fails exactly for "wolf" and never yields WEREWOLF |
| AgentRules.Shown | src/werewolf_agents/cot_with_memory/agent/cot_agent.py:237-241 | the history filter keeps exactly the entries that do not start with `[wolf's-den]` (all of them with `include_wolf_channel`), in their order |
| AgentRules.ShownAll | src/werewolf_agents/cot_with_memory/agent/cot_agent.py:237-241 | with the wolf channel included nothing is dropped |
| AgentRules.EntryIsHeader | src/werewolf_agents/cot_with_memory/agent/cot_agent.py:254-255 | every history entry `async_respond` writes is a transcript header and never starts with `[wolf's-den]` |
| AgentRules.WolfGroupEntriesShown | src/werewolf_agents/cot_with_memory/agent/cot_agent.py:237-265 | so the filter never hides the wolf-channel exchanges written by `async_respond` |
| AgentRules.FormatKeyEvents | src/werewolf_agents/cot_with_memory/agent/cot_agent.py:463-474 | the placeholder exactly when there are no events; otherwise the text starts with the first event's line |
| AgentRules.KeyEventsOneLineEach | src/werewolf_agents/cot_with_memory/agent/cot_agent.py:463-474 | when no event text holds a newline, the formatted text splits into exactly one line per event |
| AgentRules.NoteBlock | src/werewolf_agents/cot_with_memory/agent/cot_agent.py:455-460 | one player's block: nothing without observations; otherwise its `name:` line and then its last three observations at most, in order, each as `  - <observation>` |
| AgentRules.NoteLines | src/werewolf_agents/cot_with_memory/agent/cot_agent.py:453-460 | at most four lines per listed player |
| AgentRules.NoteLinesSplit | src/werewolf_agents/cot_with_memory/agent/cot_agent.py:455-460 | each player's lines are exactly its own block, placed after the blocks of the players before it and before those of the players after it |
| AgentRules.NoteLinesAppend | src/werewolf_agents/cot_with_memory/agent/cot_agent.py:455-460 | the notes of two runs of players are the first run's lines followed by the second's |
| AgentRules.NoteLinesEmpty | src/werewolf_agents/cot_with_memory/agent/cot_agent.py:453-460 | the lines are empty exactly when no listed player has an observation |
| AgentRules.NoteLinesOpenWithName | src/werewolf_agents/cot_with_memory/agent/cot_agent.py:456-457 | non-empty notes open with a player's `name:` line |
| AgentRules.FormatBehavioralNotes | src/werewolf_agents/cot_with_memory/agent/cot_agent.py:448-461 | the placeholder exactly when the notes map is empty; an empty text when every noted player's list is empty |
| AgentRules.NotesNotPlaceholder | src/werewolf_agents/cot_with_memory/agent/cot_agent.py:448-461 | joined notes never read as the placeholder, which holds no colon |
| AgentRules.NotesOneLineEach | src/werewolf_agents/cot_with_memory/agent/cot_agent.py:448-461 | when no name or observation holds a newline and some player has one, the formatted text splits into exactly the players' blocks, in order |
| AgentRules.LastN | src/werewolf_agents/cot_with_memory/agent/cot_agent.py:459 | `s[-n:]`: the last `n` elements, or all of a shorter list |
| Patterns.VoteAt | src/werewolf_agents/cot_with_memory/agent/cot_agent.py:140 | the anchored vote pattern matches iff the text starts with `vote ` followed by a word; the capture is a non-empty word after `vote ` or `vote for ` |
| Patterns.VoteTargetShape | src/werewolf_agents/cot_with_memory/agent/cot_agent.py:140-142 | the target is a non-empty word that follows `vote ` or `vote for ` in the text |
| Patterns.VoteForRoundTrip | src/werewolf_agents/cot_with_memory/agent/cot_agent.py:140 | `vote for <w>` is a vote for `w` |
| Patterns.VoteRoundTrip | src/werewolf_agents/cot_with_memory/agent/cot_agent.py:140 | `vote <w>` is a vote for `w` when the text after it is not `for ` |
| AgentRules.VoteGuardRedundant | src/werewolf_agents/cot_with_memory/agent/cot_agent.py:139-141 | the `"vote" in content` guard adds nothing: the pattern only matches text that contains "vote" |
| CotAgent.CoTAgent.VoteRule | src/werewolf_agents/cot_with_memory/agent/cot_agent.py:138-147 | a match records exactly one vote from the sender to the captured word and files one note "Voted for <target>" under the sender; otherwise nothing changes |
| AgentRules.Accused | src/werewolf_agents/cot_with_memory/agent/cot_agent.py:151-152 | the accused are exactly the alive players whose lower-cased name occurs in the text, in alive order, without repetitions |
| AgentRules.AccuseAllEffect | src/werewolf_agents/cot_with_memory/agent/cot_agent.py:151-153 | accusing distinct players adds exactly 0.2 to each of their scores and changes nothing else |
| CotAgent.CoTAgent.AccusationRule | src/werewolf_agents/cot_with_memory/agent/cot_agent.py:150-157 | on "suspicious" or "wolf", the loop over the alive players adds 0.2 per accused player and files one note per accused player under the sender, in alive order; otherwise nothing changes |
| CotAgent.CoTAgent.AccuseStep | src/werewolf_agents/cot_with_memory/agent/cot_agent.py:152-157 | one iteration: a player named in the text gains 0.2 and one note is filed; the loop invariant advances by one player |
| AgentRules.CapitalisedSenderNeverDefends | src/werewolf_agents/cot_with_memory/agent/cot_agent.py:160 | a sender whose name has an upper-case letter never triggers the defensive rule, because the name is searched for as given in lower-cased text |
| CotAgent.CoTAgent.DefensiveRule | src/werewolf_agents/cot_with_memory/agent/cot_agent.py:159-165 | when the rule fires, one note is filed and 0.1 is added to the sender's score; otherwise nothing changes |
| CotAgent.CoTAgent.AnalyzeMessageForBehavior | src/werewolf_agents/cot_with_memory/agent/cot_agent.py:133-165 | the three rules in order, on the lower-cased text: the table becomes `BehaviorEffect` of the old one, and the sender's notes grow by the vote, accusation and defence notes, in that order |
| AgentRules.ClassifierScores | src/werewolf_agents/cot_with_memory/agent/cot_agent.py:133-165 | per player, one classified message adds 0.2 to an ALIVE player the text names (when the accusation rule fires) and 0.1 to a defensive sender; status, suspected role and claims stay |
| AgentRules.BehaviorScores | src/werewolf_agents/cot_with_memory/agent/cot_agent.py:138-165 | the same score arithmetic over any distinct alive list; without a vote no voting history changes |
| AgentRules.AddNotesTwice | memory_storer.py:302-309 | filing notes in two rounds is filing them in one |
| Patterns.EliminatedAt | src/werewolf_agents/cot_with_memory/agent/cot_agent.py:172 | the anchored elimination pattern captures a non-empty word that is followed by ` has been eliminated` |
| Patterns.EliminatedRoundTrip | src/werewolf_agents/cot_with_memory/agent/cot_agent.py:172-174 | `<w> has been eliminated` names `w`, for every word `w` |
| AgentRules.EliminationRecorded | src/werewolf_agents/cot_with_memory/agent/cot_agent.py:172-180 | such an announcement logs exactly one "elimination" event with players `[w]` |
| AgentRules.EliminatedNameIsLower | src/werewolf_agents/cot_with_memory/agent/cot_agent.py:169-175 | the name read off a lower-cased announcement has no upper-case letter |
| AgentRules.EliminatedEffect | src/werewolf_agents/cot_with_memory/agent/cot_agent.py:172-175 | an announcement changes only the status of the player it names, to DEAD |
| CotAgent.CoTAgent.TrackElimination | src/werewolf_agents/cot_with_memory/agent/cot_agent.py:171-180 | a match marks the player dead and logs one elimination event; otherwise nothing changes |
| AgentRules.PhaseEvents | src/werewolf_agents/cot_with_memory/agent/cot_agent.py:182-190 | at most one phase event, present iff the text mentions a phase; with "night phase" it is the night event |
| AgentRules.PhaseStepMoves | src/werewolf_agents/cot_with_memory/agent/cot_agent.py:182-190 | one announcement begins at most one day or night, does so exactly when it logs a phase event, and leaves the clock in the phase it began |
| CotAgent.CoTAgent.TrackPhase | src/werewolf_agents/cot_with_memory/agent/cot_agent.py:182-190 | "night phase" sets night and counts a night, otherwise "day phase" clears night and counts a day, each logged once |
| CotAgent.CoTAgent.ProcessModeratorMessage | src/werewolf_agents/cot_with_memory/agent/cot_agent.py:167-190 | elimination first, then the phase switch, on the lower-cased text; the events logged are the elimination event then the phase event |
| CotAgent.CoTAgent.constructor | src/werewolf_agents/cot_with_memory/agent/cot_agent.py:71-86 | no role, empty message logs and history, and a fresh memory store for this name |
| CotAgent.CoTAgent.RegisterSender | src/werewolf_agents/cot_with_memory/agent/cot_agent.py:103-109 | the table becomes `SenderRegistered` of the old one (`RegisteredEffect` says what that is); a sender other than the agent is registered, and its claims grow by exactly the checked text |
| CotAgent.CoTAgent.AssignRole | src/werewolf_agents/cot_with_memory/agent/cot_agent.py:117-120 | the role becomes the decided guess; "wolf" raises `ValueError` before the memory learns it; otherwise the memory's role is the parsed role and two thoughts are logged |
| CotAgent.CoTAgent.NotifyDirect | src/werewolf_agents/cot_with_memory/agent/cot_agent.py:103-121 | the registration, then the message filed under its sender; its frame leaves the clock, the group log and the history alone; only the moderator's first direct message assigns the role, and when it does not the own state is unchanged |
| CotAgent.CoTAgent.FileDirect | src/werewolf_agents/cot_with_memory/agent/cot_agent.py:112-121 | the message is filed under its sender; the moderator's first one sets the role to the decided guess; for "wolf" it raises `ValueError` with memory role and own state unchanged; otherwise the memory role is the parsed role and exactly two thoughts are added; with no assignment the own state is unchanged |
| CotAgent.CoTAgent.NotifyGroup | src/werewolf_agents/cot_with_memory/agent/cot_agent.py:103-131 | the table becomes `GroupEffect` of `SenderRegistered` of the old one; the own state becomes `HeardState` (behaviour notes against the alive players of the registered table, moderator events when the moderator sent it); the clock becomes `HeardClock` (only the moderator's announcements move it); filed under its channel; `sender: text` appended to the history |
| CotAgent.CoTAgent.FileGroup | src/werewolf_agents/cot_with_memory/agent/cot_agent.py:124-131 | from the table as registered: filed under its channel, the table becomes `GroupEffect`, the own state `HeardState` and the clock `HeardClock`, and `sender: text` is appended to the history |
| AgentRules.GroupEffectKeepsClaims | src/werewolf_agents/cot_with_memory/agent/cot_agent.py:124-131 | classifying and tracking a group message keeps every registered player and its claims |
| CotAgent.CoTAgent.AsyncNotify | src/werewolf_agents/cot_with_memory/agent/cot_agent.py:99-131 | direct: the table is `SenderRegistered` of the old one, the message is filed under its sender, the clock, group log and history stay, and the moderator's first message assigns the role (raising `ValueError` for "wolf"), otherwise the own state stays; group: never raises, role unchanged, the table is `GroupEffect` of `SenderRegistered`, the own state `HeardState`, the clock `HeardClock`, the message filed and logged |
| CotAgent.CoTAgent.GetInnerMonologue | src/werewolf_agents/cot_with_memory/agent/cot_agent.py:269-297 | raises `AttributeError` iff an investigation is recorded; otherwise logs the oracle's text verbatim and returns it (the fallback text on failure) |
| CotAgent.CoTAgent.GetFinalAction | src/werewolf_agents/cot_with_memory/agent/cot_agent.py:396-410 | logs "Final <type>: <text>" and returns the text stripped |
| CotAgent.CoTAgent.SeerFlow | src/werewolf_agents/cot_with_memory/agent/cot_agent.py:299-323 | the reply and the new own state are exactly `SeerTurn` of the old state; once a SEER memory has answered, the state snapshot raises |
| CotAgent.SeerTurn | src/werewolf_agents/cot_with_memory/agent/cot_agent.py:299-323 | raises `AttributeError`, changing nothing, exactly when an investigation is on record; otherwise answers with two more thoughts (and `SeerAnswerLocks` says which memories it locks) |
| CotAgent.CoTAgent.DoctorFlow | src/werewolf_agents/cot_with_memory/agent/cot_agent.py:325-346 | the reply and the new own state are exactly `DoctorTurn` of the old state |
| CotAgent.DoctorTurn | src/werewolf_agents/cot_with_memory/agent/cot_agent.py:325-346 | raises `AttributeError`, changing nothing, exactly when an investigation is on record; otherwise answers with two more thoughts |
| CotAgent.CoTAgent.WolfFlow | src/werewolf_agents/cot_with_memory/agent/cot_agent.py:348-371 | the reply and the new own state are exactly `WolfTurn` of the old state |
| CotAgent.WolfTurn | src/werewolf_agents/cot_with_memory/agent/cot_agent.py:348-371 | an agent that is not a wolf answers "I am not a werewolf" with the state unchanged; a wolf raises exactly when an investigation is on record; a raise changes nothing |
| CotAgent.CoTAgent.DiscussionFlow | src/werewolf_agents/cot_with_memory/agent/cot_agent.py:373-394 | the reply and the new own state are exactly `DiscussionTurn` of the old state |
| CotAgent.DiscussionTurn | src/werewolf_agents/cot_with_memory/agent/cot_agent.py:373-394 | raises, changing nothing, exactly when there is no role or an investigation is on record; an answer adds three thoughts when the lower-cased message holds "vote", and two otherwise |
| CotAgent.CoTAgent.AsyncRespond | src/werewolf_agents/cot_with_memory/agent/cot_agent.py:243-267 | the reply and the new own state are exactly `RespondTurn` of the old state; the role stays; another sender's direct message files and logs nothing; the moderator's is filed and, when answered, both halves are logged; a group message is filed, an unknown channel logs only the incoming half, an `AttributeError` logs nothing and an answer logs both halves |
| CotAgent.RespondTurn | src/werewolf_agents/cot_with_memory/agent/cot_agent.py:243-267 | a raise changes nothing; a direct message leaves `response_message` unbound exactly when it is not from the moderator or the role is neither seer nor doctor; a group message exactly when the channel is neither the game nor the wolves' channel |
| CotAgent.CoTAgent.RespondDirect | src/werewolf_agents/cot_with_memory/agent/cot_agent.py:246-255 | for the seer the reply and own state are `SeerTurn`, for the doctor `DoctorTurn`, otherwise `UnboundLocalError` with the state unchanged; the text is filed, and both halves are logged only on an answer |
| CotAgent.CoTAgent.AnswerAsSeer | src/werewolf_agents/cot_with_memory/agent/cot_agent.py:248-255 | the reply and own state are `SeerTurn` of the old state; both halves are logged on an answer, none on a raise |
| CotAgent.CoTAgent.AnswerAsDoctor | src/werewolf_agents/cot_with_memory/agent/cot_agent.py:250-255 | the reply and own state are `DoctorTurn` of the old state; both halves are logged on an answer, none on a raise |
| CotAgent.CoTAgent.RespondGroup | src/werewolf_agents/cot_with_memory/agent/cot_agent.py:256-265 | on the game channel the reply and own state are `DiscussionTurn`, on the wolves' channel `WolfTurn`; elsewhere `UnboundLocalError` with the state unchanged and only the incoming half logged; the pair is filed first |
| CotAgent.CoTAgent.AnswerInGame | src/werewolf_agents/cot_with_memory/agent/cot_agent.py:260-265 | the reply and own state are `DiscussionTurn` of the old state; both halves are logged on an answer, none on a raise |
| CotAgent.CoTAgent.AnswerInDen | src/werewolf_agents/cot_with_memory/agent/cot_agent.py:262-265 | the reply and own state are `WolfTurn` of the old state; both halves are logged on an answer, none on a raise |
| CotAgent.LockedFlowsRaise | src/werewolf_agents/cot_with_memory/agent/cot_agent.py:269-271 | with an investigation on record every flow raises `AttributeError` at the snapshot and changes nothing, except the non-wolf refusal on the wolves' channel |
| CotAgent.SeerAnswerLocks | src/werewolf_agents/cot_with_memory/agent/cot_agent.py:299-323 | a seer flow that answers locks the state exactly when the memory's role is SEER |
| CotAgent.RespondKeepsLock | src/werewolf_agents/cot_with_memory/agent/cot_agent.py:243-271 | on a locked state `async_respond` leaves the own state unchanged and can only answer the refusal, for an agent that is not a wolf |
| CotAgent.Replay | src/werewolf_agents/cot_with_memory/agent/cot_agent.py:243-267 | answering a run of requests one after the other yields one reply per request |
| CotAgent.LockedForever | src/werewolf_agents/cot_with_memory/agent/cot_agent.py:243-271 | from a locked state, every request of any run raises or is the refusal, and the own state never changes again |
| CotAgent.SeerAnswersOnce | src/werewolf_agents/cot_with_memory/agent/cot_agent.py:246-249 | once a seer has answered the moderator, every later answer of any run is the refusal on the wolves' channel |
| Metrics.PlayerResultOf | metrics.py:84 | a missing `player_results`, or a missing player, reads as the empty record; otherwise the player's record |
| Metrics.Wins | metrics.py:86-88 | a count of records, so never more than their number |
| Metrics.Survivals | metrics.py:90-92 | a count of records, so never more than their number |
| Metrics.Rate | metrics.py:102-104 | 0 with no games; within [0, 1] for a count up to the total; the rate times the total gives the count back |
| Metrics.CalculateMetrics | metrics.py:76-105 | total = number of records; wins and failures are the folds over the records; `0 <= wins <= total` and `wins + losses == total`; each rate is its count divided by the total; win and survival rates lie in [0, 1]; with no games all three rates are 0 |
| Metrics.CountsAppend | metrics.py:83-95 | the counts are additive over a split of the records |
| Metrics.CountsIgnoreOrder | metrics.py:83-95 | swapping two batches of records changes no count, so the order in which the records were loaded does not matter |
| Metrics.RecordWithoutPlayer | metrics.py:84 | a record without `player_results`, or without the player, adds no win, survival or failure |
| Metrics.MissingFieldsCountNothing | metrics.py:87-95 | a missing `won` adds no win, a missing `survived` adds no survival, and a missing `response_failures` adds 0 |
| Metrics.WinsCountsWonRecords | metrics.py:86-88 | the win count equals the number of records whose player entry says `won: true` (an independent, set-based definition) |
| Metrics.AllWonAllSurvived | metrics.py:102-103 | winning and surviving every game gives rates of exactly 1 |

## Left out

- HTTP calls to the LLM, and the construction of their prompts, headers and payloads: each reply is a parameter (`Some(text)` or `None` for a failed call).
- The persona prompts, the guiding questions and the enhanced-situation block: these texts are opaque to the model, including the `.1f` rendering of trust levels in the monologue prompt.
- MemoryStore.MemoryStorer.UpdateAlliance: the thought embeds Python's rendering of the float (`str(trust_level)`); the model takes that text as `trustText`, an unconstrained parameter.
- Logging, the `autogen` and `sentient_campaign` base classes, and `asyncio`: the async entry points run to completion as ordinary methods.
- `datetime.now()` timestamps of claims, thoughts, key events and notes: each entry is stored without its timestamp. The thought `context` (always empty at the call sites) is also dropped.
- Floating point: suspicion scores, trust levels and rates are exact `real`s, so rounding of `0.1`, `0.2` and of the quotients is not modelled.
- `get_all_data` reads an attribute `PlayerState` does not have; out of scope.
- `_summarize_game_history` is a stub that only joins the history; out of scope.
- `run_games` and `get_metrics_from_previous_games`: file and directory I/O and the external game runner. `CalculateMetrics` takes the decoded records as input.
- `_get_llm_response` is modelled only by its result (`OracleText`): the reply, or the fixed fallback text.
- Text is ASCII: `lower`, `strip`, `title` and `\w` act on ASCII characters only; no Unicode case mapping or whitespace.
- The seer flow's loop over `seer_checks`: that dictionary is initialised empty and never written, so the loop never runs and `SeerFlow` omits it.
- JSON values of unexpected types are not modelled: a `null` reply content, a non-dictionary `player_results`, a non-boolean `won`, or a non-integer `response_failures`, any of which would make the Python raise or behave differently. Record fields are `Option`s of the expected type.
- Message objects: the direct and group message logs store typed entries (`Notified`, `Replied`, `Heard`, `Answered`) for what the Python stores as message objects, texts and tuples.
- `_check_for_injections` needs `sentient_llm_config`, which nothing assigns. The model keeps the missing case (`configPresent` is false after construction) and takes the configured case as a parameter.
- The `vote` regex is scanned as `re.search` does: the leftmost start position whose anchored match succeeds. The header regex is counted with `re.findall`'s resume-after-match rule, line by line.
- Injection.CheckForInjections: the reply text is only parsed. The analyser's behaviour is not modelled: `analysis` is an arbitrary input.
- MemoryStore.MemoryStorer.GetMostSuspiciousPlayers: states only the bound and aliveness; the ordering, the tie order and "nobody left out scores higher" are stated on `MostSuspicious`, which it returns.
