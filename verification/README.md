# ConvOllama conversation core in Dafny

ConvOllama stages a conversation between language models served by Ollama.
A moderator model picks a topic from the operator's keywords and gives each
participant a profile. The participants then speak in turn. This project
models the bookkeeping around that conversation, with the inference service
replaced by an abstract answer:

- `Chat`: the data exchanged with the service. `Message` is a role-tagged
  text and `Request` is one chat call. `Outcome` is what a call comes back
  with: an exception, an answer without `message`, or an answer whose
  `content` is present or absent.
- `Config`: `validate_config` and `load_config` over an already parsed
  YAML map.
- `TurnContext`: one turn of `Participant.generate_response` in
  participant.py. It covers the message list sent to the model and the text
  made of the answer, including the three fallbacks.
- `PrivateContext`: the bounded per-participant memory `update_context`
  (FIFO eviction to a cap), and `truncate_context` (keep the last N).
- `Moderator`: `generate_topic` and `generate_profile` of moderator.py.
  Each sends one prompt, makes no retry, and returns the stripped answer or
  a fixed fallback.
- `ConversationManager`: participant naming, history seeding and the
  round-by-participant loop of conversation_manager.py.
- `ConvOllama`: the older single-file program convollama.py. It covers the
  moderator prompts, `setup_conversation` (topic, profiles, starter) and
  `run_conversation`. That loop rotates a cyclic index, has an optional
  message cap, stops at a false-y reply and updates every participant's
  private context after each turn.
- `Cli`: the prefix strip of `display_conversation`, and `get_valid_input`
  with the participant-count and round-count validators.
- `Text` holds the Python string operations these rely on: `str.isspace`,
  `strip`, `split()[-1]`, `int`, `str`, `join` and `split(',')`.
- `Wrappers` holds `Option` and `Result`.

Model replies are parameters. In the newer program a `Responder` maps a
participant, the history, the final-round flag and the request number to a
text. In the older one a `LegacyResponder` maps a participant's state, the
others' profiles and the request number to an optional text. Each comes with
a `Model…` function that builds it from an inference-service oracle
`chat: (nat, Request) -> Outcome`, and a lemma stating that the two agree.

## Model

| member | source | states |
|---|---|---|
| Config.ValidateConfig | config.py:23-32 | valid exactly when all four required keys are present and `save_path` is a string; otherwise the error names the first missing key in the listed order, and a missing key takes precedence over the `save_path` type error |
| Config.FirstMissingFrom | config.py:25-28 | the index found is absent from the map and every key checked before it is present; no index means every remaining key is present |
| Config.ExtraKeysIgnored | config.py:24-26 | adding keys outside the required four never changes the verdict |
| Config.FirstMissingAgrees | config.py:25-28 | two maps that agree on which required keys they hold get the same first missing key |
| Config.LoadConfig | config.py:8-21 | the parsed map is returned unchanged exactly when validation succeeds; otherwise the error is the validation message |
| Text.Strip | participant.py:62 | the result is a piece of the input with only whitespace before and after it, and it has no whitespace at either end; it is empty exactly when the input is all whitespace |
| Text.StripNoEdgeSpace | moderator.py:12 | text without whitespace at its ends is its own strip |
| Text.LastWord | participant.py:20 | `split()[-1]` exists exactly when the text is not all whitespace; it is a non-empty run without whitespace that ends the text, up to trailing whitespace |
| Text.LastWordAfterSpace | convollama.py:136 | the last word of `p + " " + w` is `w`, whatever `p` holds |
| Text.IntToString | convollama.py:148 | `str(i)` is non-empty and has no whitespace |
| Text.ParseIntOfIntToString | convollama.py:136 | `int(str(i)) == i` for every integer |
| Text.DigitsValueOfNatToString | convollama.py:136 | the digits of `str(n)` read back as `n` |
| Text.JoinPlacesParts | moderator.py:9 | every part sits in the joined text at its offset, and the next part starts one separator after it ends |
| Text.JoinSplit | convollama.py:97 | joining the pieces of `split(',')` with "," gives the line back |
| TurnContext.SystemPrompt | participant.py:17-26 | one system message; its text starts with "You are Participant" and the last word of the name, and contains the topic and the profile as rendered (absent reads "None") |
| TurnContext.BuildMessages | participant.py:16-49 | `len(history) + 2` messages; the first is the system prompt; the last is the closing instruction, with role user: the concluding-thoughts prompt on the final round and the next-response prompt on every other |
| TurnContext.TurnPrompt | participant.py:40-49 | the closing instruction has role user; it is the final-turn text exactly when the round is the final one, and the next-response text otherwise |
| TurnContext.RelabelAllEach | participant.py:29-37 | the history is relabelled entry by entry, in its original order |
| TurnContext.BuildMessagesRelabels | participant.py:29-37 | a system entry passes unchanged; the participant's own entry becomes the assistant's with the same content; any other becomes the user's, prefixed "name: "; the resulting role tells which case applied |
| TurnContext.BuildMessagesUsesProtocolRoles | participant.py:17-49 | every message sent has role system, user or assistant |
| TurnContext.BuildMessagesAppend | participant.py:29-49 | one more history entry inserts exactly its relabelling before the closing instruction; everything before it is unchanged |
| TurnContext.ReplyText | participant.py:58-72 | an exception gives the technical-issue text, a missing `message` the unexpected-structure text, whitespace-only or absent content the pondering text, and any other content is returned stripped; the result is never empty |
| TurnContext.GenerateResponse | participant.py:53-72 | whatever the service answers, `generate_response` returns a non-empty text |
| PrivateContext.UpdateContext | convollama.py:31-34 | the result is a suffix of the context plus the message; the message is last; below the cap nothing is evicted; at the cap exactly the oldest entry goes; a context within a positive cap stays within it |
| PrivateContext.TruncateContext | utils.py:45-48 | the result is a suffix of the input; an input within the cap is returned unchanged; for a positive cap the length is `min(len, cap)` |
| PrivateContext.TruncateToZeroKeepsAll | utils.py:47 | a cap of 0 returns every list unchanged (the slice `[-0:]` is the whole list), so a non-empty list comes back with more than 0 entries and differs from its last 0 entries |
| PrivateContext.KeepLast | utils.py:45-48 | the last `n` entries: a suffix of length `min(len, n)` |
| PrivateContext.TruncateIsKeepLast | utils.py:45-48 | for a positive cap the source's slice is exactly the last `n` entries |
| PrivateContext.TruncateIdempotent | utils.py:45-48 | for a non-negative cap, truncating twice with the same cap is truncating once |
| PrivateContext.PushAllSnoc | convollama.py:31-34 | pushing one more message is one more `update_context` |
| PrivateContext.UpdateKeepsLast | convollama.py:31-34 | one `update_context` on the last `n` entries gives the last `n` entries of the extended list |
| PrivateContext.PushAllKeepsLast | convollama.py:31-34 | pushing messages into the last `n` entries keeps the last `n` entries of everything seen |
| PrivateContext.PushAllFromEmptyIsTruncate | utils.py:45-48 | for a positive cap, pushing a sequence one by one through `update_context` from empty equals `truncate_context` of the whole sequence |
| Moderator.TopicPrompt | moderator.py:9 | the prompt starts with its fixed lead followed by the keywords joined by ", " |
| Moderator.TopicPromptListsKeywords | moderator.py:9 | each keyword sits in the prompt in order, the next one a ", " after it |
| Moderator.ProfilePrompt | moderator.py:18 | the prompt quotes the topic and names the participant number |
| Moderator.ReplyOrFallback | moderator.py:10-15 | an answer with content gives that content stripped: the piece left between whitespace-only edges, itself free of whitespace at both ends; any other outcome gives the fallback; an empty result with a non-empty fallback means whitespace-only content |
| Moderator.FailureGivesFallback | moderator.py:13-15 | an answer without `message` or `content`, or a raised call, yields the fallback |
| Moderator.ReplyIsStripped | moderator.py:12 | whatever the service answers, the text read from it has no surrounding whitespace |
| Moderator.GenerateTopic | moderator.py:8-15 | exactly one request, a single user message with the topic prompt; an answer with content gives that content stripped, and anything else gives "General Discussion" |
| Moderator.GenerateProfile | moderator.py:17-24 | exactly one request, a single user message with the profile prompt; an answer with content gives that content stripped, and anything else gives the generic profile naming the participant |
| Moderator.GeneratedTextsAreStripped | moderator.py:12-24 | both fallbacks are already stripped, so every topic and profile handed out is free of surrounding whitespace |
| Moderator.PaddingIgnored | moderator.py:12 | content with any whitespace on its left and any, possibly different, whitespace on its right gives the bare content |
| ConversationManager.ParticipantNameEndsInNumber | conversation_manager.py:25-27 | the name "Participant k" is never blank, its last word is `str(k)`, and that word parses back to `k` |
| ConversationManager.ParticipantNamesDistinct | conversation_manager.py:25-27 | different numbers give different names |
| ConversationManager.CreateParticipants | conversation_manager.py:25-27 | with at least one participant, fails exactly when `participant_model` or `ollama_host` is missing or there are fewer profiles than participants, with the error of the first lookup that fails (KeyError naming the key, or IndexError); otherwise exactly `num_participants` participants (none for a count below one), the i-th named "Participant i+1" with `profiles[i]`, the topic and the configured `participant_model` |
| ConversationManager.InitializeHistory | conversation_manager.py:29-34 | the topic entry first, then one system entry "Participant i+1 profile: p" per truthy profile in index order; the length is one plus the number of truthy profiles |
| ConversationManager.TurnPosition | conversation_manager.py:41-42 | turn `round * n + j` falls in round `round`, to participant `j` |
| ConversationManager.TurnWithinPlan | conversation_manager.py:41-42 | every turn of a planned round is inside the plan of `num_rounds * n` turns |
| ConversationManager.SeatOfTurn | conversation_manager.py:41-42 | turn `j` of round `round` is taken by seat `j` |
| ConversationManager.SeatIsRemainder | conversation_manager.py:41-42 | the seat of turn `k` is `k mod n` and its round is `k div n` |
| ConversationManager.FinalRoundTurns | conversation_manager.py:43 | a turn gets the final-round prompt exactly when it lies in the last round |
| ConversationManager.ModelResponderGenerates | conversation_manager.py:49 | with the service behind it, a turn's reply is `generate_response` of the participant on the history, and it is never empty |
| ConversationManager.TurnEntryInRound | conversation_manager.py:41-56 | turn `j` of round `round` appends participant `j`'s answer under its name, with the final-round flag of that round |
| ConversationManager.ScheduleKeepsSeed | conversation_manager.py:56 | a run only appends: the seed is a prefix of the history |
| ConversationManager.ScheduleEntries | conversation_manager.py:49-56 | each entry after the seed is the turn made from the entries before it |
| ConversationManager.ScheduleSpeakers | conversation_manager.py:56 | when every turn is authored by the participant in its seat, so is every appended entry |
| ConversationManager.ModelTurn | conversation_manager.py:49-56 | turn `k` appends, under the seated participant's name, that participant's `generate_response` on the history so far, and the content is never empty |
| ConversationManager.RunRounds | conversation_manager.py:41-68 | the history is the seed followed by the planned turns, or by the whole turns before an interrupt |
| ConversationManager.RunConversation | conversation_manager.py:36-68 | the seed is kept; exactly `num_rounds * n` entries are appended (fewer on interrupt); entry `k` after the seed is authored by the participant in seat `k mod n` |
| ConversationManager.NewManager | conversation_manager.py:8-19 | succeeds exactly when the participants can be created and `moderator_model` and `ollama_host` are present; a missing key gives KeyError naming the first one looked up, in the order `participant_model`, `ollama_host` (only once a profile exists), `moderator_model`, `ollama_host`; too few profiles give IndexError; on success participant i is "Participant i+1" with `profiles[i]`, the topic and `participant_model`, and the history is the topic entry followed by each truthy profile's entry in index order, all system entries |
| ConversationManager.SeatedNames | conversation_manager.py:56 | the `k`-th appended entry has role "Participant s", where `s - 1` is the seat of turn `k` |
| ConversationManager.RunAsWritten | conversation_manager.py:59-61 | as written, with two or more participants and at least one round, the run raises AttributeError with exactly one turn in the history |
| ConversationManager.IntendedRunTakesEveryTurn | conversation_manager.py:41-56 | the intended run takes all `num_rounds * n` turns, at least two |
| ConvOllama.LegacyMessages | convollama.py:41-44 | one system message about the topic, followed by the participant's context as it stands |
| ConvOllama.LegacyProfileSentence | convollama.py:39-42 | the profile sentence, naming the profile and the others' profiles joined by "; ", is present exactly when the profile is non-empty |
| ConvOllama.LegacyReply | convollama.py:45-52 | the reply is the content, not stripped, when the answer has one, and `None` otherwise |
| ConvOllama.LegacyReplyTruthy | convollama.py:162 | a reply is not false-y exactly when the answer has non-empty content |
| ConvOllama.DetermineTopicPrompt | convollama.py:67 | the prompt starts with its fixed lead followed by the keywords joined by ", " |
| ConvOllama.ModeratorAsk | convollama.py:55-64 | one request with a single user message carrying the prompt; the reply is the answer's content, unstripped, and `None` when the call raises or the answer lacks `message` or `content` |
| ConvOllama.ModelTopicAsks | convollama.py:66-68 | the topic is the service's first answer to one user message whose prompt carries the keywords joined by ", ", the keywords being the pieces of the typed line between commas, which rejoined with "," give the line back |
| ConvOllama.DetermineProfilePrompt | convollama.py:71 | the prompt quotes the topic and names the profile number |
| ConvOllama.StarterIndex | convollama.py:136 | an index is found exactly when the last word parses to an integer, and the index is that integer minus one |
| ConvOllama.StarterIndexOfName | convollama.py:124-136 | the starter announced as "Participant k" is found again at index `k - 1` |
| ConvOllama.SpeakerLabelIsName | convollama.py:148 | the label of index `i` is the name "Participant i+1", and parsing it gives `i` back |
| ConvOllama.TurnIndexInRange | convollama.py:174 | after the first turn the index is always in `[0, n)` |
| ConvOllama.TurnIndexInList | convollama.py:145-174 | from a starting index inside the list, counting negatives from the end, the index never leaves it |
| ConvOllama.TurnIndexIsSeat | convollama.py:174 | from a valid start the rotation visits the seats in order: turn `k` is index `(start + k) mod n` |
| ConvOllama.SeatAdvance | convollama.py:174 | the seat after seat `s` is `s + 1`, or the first seat after the last |
| ConvOllama.OtherProfiles | convollama.py:146 | with profiles on and an index in the list, every profile but the current participant's, in order; a negative index excludes nobody; with profiles off, none |
| ConvOllama.UpdateAllEach | convollama.py:168-172 | after a turn the speaker's context receives the response as the assistant's and every other's as the user's, through one `update_context`; nothing else changes |
| ConvOllama.TranscriptEach | convollama.py:166 | entry `k` of the transcript is response `k` under the label of the index whose turn it was |
| ConvOllama.TranscriptSpeakers | convollama.py:148-174 | from a valid start, entry `k` is labelled with the name of seat `(start + k) mod n` |
| ConvOllama.ContextsArePushAll | convollama.py:168-172 | each participant's context is its starting context with every response pushed through `update_context` in order; profile, topic, model and cap stay as they were |
| ConvOllama.ContextsKeepRecent | convollama.py:31-34 | from empty contexts, each participant holds exactly the most recent `max_context_length` messages it heard, never more |
| ConvOllama.ModelLegacyResponderAsks | convollama.py:41-49 | with the service behind it, a reply is the content of the one answer to the participant's message list, whose messages after the first are its context |
| ConvOllama.Turn | convollama.py:145-175 | a false-y reply changes nothing; any other appends exactly that reply, the speaker's answer in its current state, and keeps transcript and contexts consistent |
| ConvOllama.TakeTurns | convollama.py:140-178 | every recorded response is the non-empty answer its speaker gave in the state the earlier turns left; the transcript and the contexts are those of these responses; never more responses than the cap; the run ends at the cap, at an interrupt, or at a false-y reply that was not recorded and was asked for below both the cap and the interrupt point |
| ConvOllama.RunLegacy | convollama.py:135-180 | a starter without an integer last word raises before any turn; an index outside the list raises at the first turn; otherwise the transcript and contexts follow `TakeTurns`, each response being its speaker's answer; a run that stops at the cap holds exactly `max_messages` responses, one that is interrupted stops at the interrupt point, and a false-y reply ends it only when asked for below both |
| ConvOllama.Profiles | convollama.py:123 | one profile per participant, in participant order: entry i is participant i's profile |
| ConvOllama.ModelProfilesAsk | convollama.py:70-72 | each profile request is one user message that quotes the topic and names the participant's number |
| ConvOllama.SetupLegacy | convollama.py:94-133 | a false-y topic or profile raises ValueError naming it; with a topic, profiles on and fewer than one participant, `random.randint(1, 0)` raises, and only then; otherwise one participant per number with the profile in order, and a transcript of Topic, then Profiles and a random starter when profiles are on, or "Participant 1 starts" without them |
| ConvOllama.SetupStarterInRange | convollama.py:124-136 | a successful setup with participants hands `run_conversation` a starter whose index is a position in the list |
| Cli.DisplayContent | cli.py:124-135 | a non-system entry that starts with its role and ":" is shown as the remainder after the colon, stripped: a piece of it with only whitespace around it and none at its own ends; anything else is shown as stored; the shown text is never longer than the stored one |
| Cli.StripOfTail | cli.py:135 | the stripped remainder is a piece of the content with only whitespace around it |
| Cli.DisplayDropsOwnName | cli.py:133-135 | an entry stored as "name: text" displays as the bare text |
| Cli.DisplayKeepsUnprefixed | cli.py:134 | content without the prefix is shown unchanged |
| Cli.GetValidInput | cli.py:146-151 | only an answer that passes the validator is returned, the first one that does |
| Cli.AskParticipantCount | cli.py:33-39 | the accepted participant count is the first answer of at least two: every earlier answer is below two; none is accepted exactly when every answer is below two |
| Cli.AskRoundCount | cli.py:51-57 | the accepted round count is the first answer of at least one: every earlier answer is below one; none is accepted exactly when every answer is below one |

## Left out

- The Ollama client is not modelled. Every `client.chat` call becomes an
  oracle parameter `chat: (nat, Request) -> Outcome`, indexed by request
  number. The connection check in utils.py is left out.
- Threads, `threading.Event` and the thinking animations are left out.
  They only drive the display.
- The terminal UI is left out: rich, colorama, questionary, `clear_screen`,
  `print_header`, the panels and the prompts. Operator answers are a finite
  list of integers in `GetValidInput`.
- File I/O is left out: `save_conversation` in both programs, YAML parsing,
  log_config.py and logging.
- main.py and the older program's `main` and `load_config` are plumbing and
  are not modelled.
- Keyword entry in cli.py (`get_topic_preference`, the strip at line 88),
  model choice and profile choice are interactive. They are represented only
  by their results, the topic and the profiles.
- `random.randint` is the parameter `pick` of `ConvOllama.SetupLegacy`.
- The older program's configuration reads are parameters. `use_profiles`
  and `max_messages` are read with defaults, and the `float('inf')` default
  for `max_messages` is `None`. `moderator_model`, `max_context_length`,
  `ollama_host` (convollama.py:78-82), `num_participants` (line 104) and
  `participant_model`, `max_context_length`, `ollama_host` (lines 112-116)
  are read without a default, so a configuration that lacks one raises
  KeyError there. Those KeyErrors are not modelled: the values are plain
  parameters.
- The moderator of the older program has a private context of its own, but
  nothing pushes to it, so it is not modelled.
- Text.ParseInt: Python's `int()` also accepts underscores between digits
  and non-ASCII decimal digits. Neither is modelled, so such a starter reads
  as unparsable.
- Chat.Outcome: content is a string or absent. Non-string content (which
  would make `strip` raise) is not modelled.
- ConvOllama.TakeTurns: a KeyboardInterrupt is taken only between turns,
  after `interruptAt` responses. An interrupt in the middle of a turn, which
  in the source can land after the transcript append but before the context
  updates, is not modelled.
- ConvOllama.RunLegacy: without a cap the source loop ends only on an
  interrupt or a false-y reply. The model requires a cap or an interrupt
  point so that the loop is bounded.
- ConvOllama.TakeTurns: carries the same requirement, a cap or an
  interrupt point, for the same reason: the loop must be bounded.
- ConversationManager.ModelResponder: Python raises IndexError for a
  participant whose name is all whitespace. The responder gives the empty
  text instead. Created participants never have such a name
  (`CreateParticipants` ensures `NamesUsable`).
- ConversationManager.Speak: with no participants no turn is taken, so the
  placeholder entry of its first branch is never used.
- ConversationManager.RunConversation: the source's `update_context` calls
  on other participants are left out, because the participant class has no
  such method (see Findings).
- ConvOllama.SetupLegacy: `random.randint(1, 0)` raises ValueError with a
  library message. `EmptyStarterRange` stands for it and its text is only
  approximate.

## Findings

| source | as written | input that shows it | evidently intended | confidence | as-written member | corrected member |
|---|---|---|---|---|---|---|
| utils.py:45-48 | `context[-max_length:]` with `max_length == 0` slices from index 0 and keeps the whole list | `truncate_context([x], 0)` returns `[x]` | inferred from the name alone: keep the last `max_length` entries, so a cap of 0 keeps nothing | not executed; low to medium (no file of the repository calls `truncate_context` at all, so the intended behaviour is inferred from the function's name only) | PrivateContext.TruncateToZeroKeepsAll | PrivateContext.KeepLast |
| conversation_manager.py:59-61 | after each turn, `other.update_context(...)` is called on every other participant, but the participant class in participant.py defines no such method | two participants and one round: AttributeError right after the first turn; it is not the KeyboardInterrupt the method catches | the loop runs every round for every participant | not executed; high (the CLI accepts only two or more participants and one or more rounds, so every accepted run reaches the call) | ConversationManager.RunAsWritten | ConversationManager.RunConversation |
