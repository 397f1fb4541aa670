/** The older, single-file program convollama.py: a moderator picks the topic
    and the profiles, then participants take turns in a cycle, each keeping
    its own bounded context of the messages exchanged so far. */
module ConvOllama {
  import opened Wrappers
  import opened Text
  import opened Config
  import opened Chat
  import opened PrivateContext
  import opened ConversationManager

  /** A participant of the older program: its model, its profile ("" when
      profiles are off) and its private context, capped at
      `maxContextLength` entries. */
  datatype LegacyParticipant = LegacyParticipant(
    model: ConfigValue, profile: string, topic: string, maxContextLength: int, context: seq<Message>)

  /** An entry of the shared transcript, `{"speaker": ..., "content": ...}`. */
  datatype Entry = Entry(speaker: string, content: string)

  const Intro: string := "You are participating in a conversation about "
  const ProfileIntro: string := "Your profile is: "
  const OthersIntro: string := ". You are talking to others with these profiles: "
  const Guidance: string :=
    "Keep your responses concise (2-3 sentences max). "
    + "Feel free to act naturally, change the topic, argue, debate, or do whatever you want. "
    + "This is a free-flowing conversation."

  /** The profile sentence: present only for a non-empty profile. */
  function ProfileInfo(profile: string, otherProfiles: seq<string>): string {
    if profile != [] then ProfileIntro + profile + OthersIntro + Join("; ", otherProfiles) + ". " else ""
  }

  /** The system message of `ConversationParticipant.generate_response`. */
  function LegacySystemText(p: LegacyParticipant, otherProfiles: seq<string>): string {
    (Intro + p.topic + ". ") + (ProfileInfo(p.profile, otherProfiles) + Guidance)
  }

  /** The message list of `ConversationParticipant.generate_response`: one
      system message followed by the participant's context as it is. */
  function LegacyMessages(p: LegacyParticipant, otherProfiles: seq<string>): (r: seq<Message>)
    ensures |r| == 1 + |p.context| && r[1..] == p.context
    ensures r[0].role == "system" && StartsWith(r[0].content, Intro + p.topic + ". ")
  {
    var text := LegacySystemText(p, otherProfiles);
    LeadOfConcat(Intro + p.topic + ". ", ProfileInfo(p.profile, otherProfiles) + Guidance);
    [Message("system", text)] + p.context
  }

  /** The profile sentence, naming the profile and the others' profiles,
      follows the topic exactly when the profile is non-empty; without a
      profile the guidance follows the topic directly. */
  lemma LegacyProfileSentence(p: LegacyParticipant, otherProfiles: seq<string>)
    ensures var text := LegacyMessages(p, otherProfiles)[0].content; var head := Intro + p.topic + ". ";
      && (p.profile != [] ==>
            InfixAt(ProfileIntro + p.profile + OthersIntro + Join("; ", otherProfiles), text, |head|))
      && (p.profile == [] <==> text == head + Guidance)
  {
    var text := LegacyMessages(p, otherProfiles)[0].content;
    var head := Intro + p.topic + ". ";
    var info := ProfileInfo(p.profile, otherProfiles);
    var sentence := ProfileIntro + p.profile + OthersIntro + Join("; ", otherProfiles);
    assert info == [] <==> p.profile == [];
    OptionalSentence(head, info, sentence, Guidance);
  }

  /** Text made of a head, an optional sentence ending in ". " and a tail. */
  lemma OptionalSentence(head: string, info: string, sentence: string, tail: string)
    requires info == [] || info == sentence + ". "
    ensures info != [] ==> InfixAt(sentence, head + (info + tail), |head|)
    ensures info == [] <==> head + (info + tail) == head + tail
  {
    if info != [] {
      OneSlot(head, sentence, ". " + tail);
      assert head + (info + tail) == head + sentence + (". " + tail);
      assert |head + (info + tail)| > |head + tail|;
    }
  }

  /** What a `generate_response` of the older program returns for the
      service's answer: the content, not stripped, or `None` when the call
      raised or the answer has no `message` or `content`. */
  function LegacyReply(outcome: Outcome): (r: Option<string>)
    ensures r.Some? <==> outcome.WithMessage? && outcome.content.Some?
    ensures r.Some? ==> r == outcome.content
  {
    match outcome
    case WithMessage(content) => content
    case _ => None
  }

  /** A reply that is not false-y is exactly a present, non-empty content. */
  lemma LegacyReplyTruthy(outcome: Outcome)
    ensures Truthy(LegacyReply(outcome)) <==>
              outcome.WithMessage? && outcome.content.Some? && outcome.content.value != []
  {
  }

  const DetermineTopicLead: string := "Based on these keywords: "
  const DetermineTopicTail: string :=
    ", determine a conversation topic. Respond with just the topic in 1-2 words, nothing else. "
    + "Do not include 'Topic:' or any other prefix."

  /** The prompt of `determine_topic`: the keywords joined by ", ". */
  function DetermineTopicPrompt(keywords: seq<string>): (r: string)
    ensures StartsWith(r, DetermineTopicLead)
    ensures InfixAt(Join(", ", keywords), r, |DetermineTopicLead|)
  {
    var joined := Join(", ", keywords);
    OneSlot(DetermineTopicLead, joined, DetermineTopicTail);
    DetermineTopicLead + joined + DetermineTopicTail
  }

  const DetermineProfileLead: string := "For a conversation about '"
  const DetermineProfileMiddle: string := "', create a single profile or viewpoint for Participant "
  const DetermineProfileTail: string :=
    ". Respond with just the profile description in 1-2 sentences, nothing else. "
    + "Do not include 'Participant:', 'Profile Description:', or any other prefix."

  /** The prompt of `determine_profile`: the quoted topic and the number. */
  function DetermineProfilePrompt(topic: string, profileNumber: int): (r: string)
    ensures StartsWith(r, DetermineProfileLead)
    ensures InfixAt(topic, r, |DetermineProfileLead|)
    ensures InfixAt(IntToString(profileNumber), r, |DetermineProfileLead| + |topic| + |DetermineProfileMiddle|)
  {
    var num := IntToString(profileNumber);
    TwoSlots(DetermineProfileLead, topic, DetermineProfileMiddle, num, DetermineProfileTail);
    DetermineProfileLead + topic + DetermineProfileMiddle + num + DetermineProfileTail
  }

  /** `Moderator.generate_response(prompt)`: the prompt as one user message. */
  function ModeratorAsk(model: ConfigValue, prompt: string, chat: Request -> Outcome): (r: Option<string>)
    ensures var answer := chat(Request(model, [Message("user", prompt)]));
      && (answer.WithMessage? && answer.content.Some? ==> r == Some(answer.content.value))
      && (!(answer.WithMessage? && answer.content.Some?) ==> r == None)
  {
    LegacyReply(chat(Request(model, [Message("user", prompt)])))
  }

  /** `int(starter.split()[-1]) - 1`: the 0-based index of the participant
      named by `starter`; `None` where Python raises (no word, or a last
      word that is not an integer). */
  function StarterIndex(starter: string): (r: Option<int>)
    ensures r.Some? ==> LastWord(starter).Some? && ParseInt(LastWord(starter).value) == Some(r.value + 1)
    ensures r.None? <==> LastWord(starter).None? || ParseInt(LastWord(starter).value).None?
  {
    match LastWord(starter)
    case None => None
    case Some(w) =>
      match ParseInt(w)
      case None => None
      case Some(v) => Some(v - 1)
  }

  /** The starter announced as "Participant k" is found again at index `k - 1`. */
  lemma StarterIndexOfName(k: nat)
    ensures StarterIndex(ParticipantName(k)) == Some(k - 1)
  {
    ParticipantNameEndsInNumber(k);
  }

  /** The speaker label of index `idx`, `f"Participant {idx + 1}"`. */
  function SpeakerLabel(idx: int): string {
    "Participant " + IntToString(idx + 1)
  }

  /** For the indices the rotation produces, the label is the participant's
      name, and parsing it gives the index back. */
  lemma SpeakerLabelIsName(idx: nat)
    ensures SpeakerLabel(idx) == ParticipantName(idx + 1)
    ensures StarterIndex(SpeakerLabel(idx)) == Some(idx)
  {
    assert IntToString(idx + 1) == NatToString(idx + 1);
    StarterIndexOfName(idx + 1);
  }

  /** Python's `participants[idx]` position for `-n <= idx < n`. */
  function Wrap(idx: int, n: nat): (j: nat)
    requires -(n as int) <= idx < n
    ensures j < n
    ensures idx >= 0 ==> j == idx
  {
    if idx < 0 then idx + n else idx
  }

  /** The index of the participant speaking turn `k` (0-based) when the run
      starts at `idx0`: each turn advances it by `(i + 1) % n`. Python's `%`
      with a positive divisor is Dafny's. */
  function TurnIndex(idx0: int, n: nat, k: nat): int
    requires n > 0
  {
    if k == 0 then idx0 else (TurnIndex(idx0, n, k - 1) + 1) % n
  }

  /** After the first turn the index is always a position in the list. */
  lemma TurnIndexInRange(idx0: int, n: nat, k: nat)
    requires n > 0 && k >= 1
    ensures 0 <= TurnIndex(idx0, n, k) < n
  {
  }

  /** From a valid starting index the rotation visits the seats in order:
      turn `k` is taken by index `(idx0 + k) mod n`. */
  lemma TurnIndexIsSeat(idx0: nat, n: nat, k: nat)
    requires idx0 < n
    ensures TurnIndex(idx0, n, k) == Seat(idx0 + k, n)
    ensures TurnIndex(idx0, n, k) == (idx0 + k) % n
  {
    TurnIndexFollowsSeat(idx0, n, k);
    SeatIsRemainder(idx0 + k, n);
  }

  lemma {:induction false} TurnIndexFollowsSeat(idx0: nat, n: nat, k: nat)
    requires idx0 < n
    ensures TurnIndex(idx0, n, k) == Seat(idx0 + k, n)
  {
    if k > 0 {
      TurnIndexFollowsSeat(idx0, n, k - 1);
      var s := Seat(idx0 + k - 1, n);
      SeatAdvance(idx0 + k - 1, n);
      NextIndex(s, n);
      assert idx0 + k == (idx0 + k - 1) + 1;
    }
  }

  /** Python's `(i + 1) % n` for an index `i` in the list. */
  lemma NextIndex(i: nat, n: nat)
    requires i < n
    ensures (i + 1) % n == if i + 1 == n then 0 else i + 1
  {
  }

  /** The seat after seat `s` is `s + 1`, or the first seat after the last. */
  lemma {:induction false} SeatAdvance(k: nat, n: nat)
    requires n > 0
    ensures Seat(k + 1, n) == if Seat(k, n) + 1 == n then 0 else Seat(k, n) + 1
  {
    if k + 1 == n {
      assert Seat(k + 1, n) == Seat(0, n);
    } else if k + 1 > n {
      SeatAdvance(k - n, n);
      assert k + 1 - n == (k - n) + 1;
    }
  }

  /** The list position of the participant speaking turn `k`. */
  function Position(idx0: int, n: nat, k: nat): (j: nat)
    requires -(n as int) <= idx0 < n
    ensures j < n
  {
    TurnIndexInList(idx0, n, k);
    Wrap(TurnIndex(idx0, n, k), n)
  }

  /** The rotation never leaves the list once it starts inside it. */
  lemma TurnIndexInList(idx0: int, n: nat, k: nat)
    requires -(n as int) <= idx0 < n
    ensures -(n as int) <= TurnIndex(idx0, n, k) < n
  {
    if k >= 1 {
      TurnIndexInRange(idx0, n, k);
    }
  }

  /** `[p.profile for i, p in enumerate(participants) if i != current]` when
      profiles are used, `[]` otherwise. The comparison is with the index as
      it stands, so a negative index (a starter numbered 0 or below) leaves
      out nobody. */
  function OtherProfiles(ps: seq<LegacyParticipant>, current: int, useProfiles: bool): (r: seq<string>)
    ensures useProfiles && 0 <= current < |ps| ==> |r| == |ps| - 1
    ensures useProfiles && 0 <= current < |ps| ==>
              forall k :: 0 <= k < |r| ==> r[k] == ps[if k < current then k else k + 1].profile
    ensures useProfiles && !(0 <= current < |ps|) ==> r == Profiles(ps)
    ensures !useProfiles ==> r == []
  {
    if !useProfiles then []
    else if 0 <= current < |ps| then
      seq(|ps| - 1, k requires 0 <= k < |ps| - 1 => ps[if k < current then k else k + 1].profile)
    else Profiles(ps)
  }

  /** What participant `j` hears of a response spoken by the participant at
      position `speaker`: its own words as the assistant's, the others' as
      the user's. */
  function Heard(speaker: nat, j: nat, response: string): Message {
    Message(if j == speaker then "assistant" else "user", response)
  }

  /** The loop over `self.participants` after a turn: every participant's
      context receives the response through `update_context`. */
  function UpdateAll(ps: seq<LegacyParticipant>, speaker: nat, response: string): (r: seq<LegacyParticipant>)
    ensures |r| == |ps|
  {
    seq(|ps|, j requires 0 <= j < |ps| =>
      ps[j].(context := UpdateContext(ps[j].context, Heard(speaker, j, response), ps[j].maxContextLength)))
  }

  /** Each participant changes only in its context, by one `update_context`. */
  lemma UpdateAllEach(ps: seq<LegacyParticipant>, speaker: nat, response: string, j: nat)
    requires j < |ps|
    ensures var q := UpdateAll(ps, speaker, response)[j];
      q == ps[j].(context := UpdateContext(ps[j].context, Heard(speaker, j, response), ps[j].maxContextLength))
  {
  }

  /** The transcript entries of the turns that produced `responses`, each
      under `speakerOf` of the index whose turn it was (the program's labels are
      `SpeakerLabel`). */
  function Transcript(speakerOf: int -> string, idx0: int, n: nat, responses: seq<string>): (t: seq<Entry>)
    requires n > 0
    ensures |t| == |responses|
    decreases |responses|
  {
    if responses == [] then []
    else
      var k := |responses| - 1;
      Transcript(speakerOf, idx0, n, responses[..k]) + [Entry(speakerOf(TurnIndex(idx0, n, k)), responses[k])]
  }

  /** Entry `k` of the transcript is response `k` under the label of the
      index whose turn it was. */
  lemma {:induction false} TranscriptEach(speakerOf: int -> string, idx0: int, n: nat, responses: seq<string>)
    requires n > 0
    ensures forall k :: 0 <= k < |responses| ==>
              Transcript(speakerOf, idx0, n, responses)[k] == Entry(speakerOf(TurnIndex(idx0, n, k)), responses[k])
    decreases |responses|
  {
    if responses != [] {
      var last := |responses| - 1;
      var front := responses[..last];
      TranscriptEach(speakerOf, idx0, n, front);
      var before := Transcript(speakerOf, idx0, n, front);
      var t := Transcript(speakerOf, idx0, n, responses);
      forall k | 0 <= k < last
        ensures t[k] == Entry(speakerOf(TurnIndex(idx0, n, k)), responses[k])
      {
        assert t[k] == before[k] && responses[k] == front[k];
      }
    }
  }

  /** From a valid starting index `idx0`, turn `k` is labelled with the
      name of seat `(idx0 + k) mod n` (see `TurnIndexIsSeat`). */
  lemma TranscriptSpeakers(idx0: nat, n: nat, responses: seq<string>)
    requires idx0 < n
    ensures forall k :: 0 <= k < |responses| ==>
              Transcript(SpeakerLabel, idx0, n, responses)[k].speaker == ParticipantName(Seat(idx0 + k, n) + 1)
  {
    TranscriptEach(SpeakerLabel, idx0, n, responses);
    forall k | 0 <= k < |responses|
      ensures Transcript(SpeakerLabel, idx0, n, responses)[k].speaker == ParticipantName(Seat(idx0 + k, n) + 1)
    {
      LabelOfTurn(idx0, n, k);
    }
  }

  /** Turn `k`'s label names seat `(idx0 + k) mod n`. */
  lemma LabelOfTurn(idx0: nat, n: nat, k: nat)
    requires idx0 < n
    ensures SpeakerLabel(TurnIndex(idx0, n, k)) == ParticipantName(Seat(idx0 + k, n) + 1)
  {
    TurnIndexFollowsSeat(idx0, n, k);
    SpeakerLabelIsName(Seat(idx0 + k, n));
  }

  /** The participants after the turns that produced `responses`. */
  function Contexts(ps0: seq<LegacyParticipant>, idx0: int, responses: seq<string>): (ps: seq<LegacyParticipant>)
    requires |ps0| > 0 && -|ps0| <= idx0 < |ps0|
    ensures |ps| == |ps0|
    decreases |responses|
  {
    if responses == [] then ps0
    else
      var k := |responses| - 1;
      UpdateAll(Contexts(ps0, idx0, responses[..k]), Position(idx0, |ps0|, k), responses[k])
  }

  /** What participant `j` has heard over the turns that produced
      `responses`, in order. */
  function Hears(n: nat, idx0: int, j: nat, responses: seq<string>): (h: seq<Message>)
    requires -(n as int) <= idx0 < n
    ensures |h| == |responses|
    decreases |responses|
  {
    if responses == [] then []
    else
      var k := |responses| - 1;
      Hears(n, idx0, j, responses[..k]) + [Heard(Position(idx0, n, k), j, responses[k])]
  }

  /** Each participant's context is its starting context with every
      response pushed through `update_context`, in order: its own as the
      assistant's, the others' as the user's. Profile, topic, model and cap
      stay as they were. */
  lemma {:induction false} ContextsArePushAll(ps0: seq<LegacyParticipant>, idx0: int, responses: seq<string>, j: nat)
    requires |ps0| > 0 && -|ps0| <= idx0 < |ps0| && j < |ps0|
    ensures var q := Contexts(ps0, idx0, responses)[j];
      q == ps0[j].(context := PushAll(ps0[j].context, Hears(|ps0|, idx0, j, responses), ps0[j].maxContextLength))
    decreases |responses|
  {
    if responses != [] {
      var k := |responses| - 1;
      var front := responses[..k];
      ContextsArePushAll(ps0, idx0, front, j);
      var before := Contexts(ps0, idx0, front);
      UpdateAllEach(before, Position(idx0, |ps0|, k), responses[k], j);
      PushAllSnoc(ps0[j].context, Hears(|ps0|, idx0, j, front), Heard(Position(idx0, |ps0|, k), j, responses[k]),
                  ps0[j].maxContextLength);
    }
  }

  /** Starting from empty contexts, each participant holds exactly the most
      recent `maxContextLength` messages it heard, in order: never more than
      its cap. */
  lemma ContextsKeepRecent(ps0: seq<LegacyParticipant>, idx0: int, responses: seq<string>, j: nat)
    requires |ps0| > 0 && -|ps0| <= idx0 < |ps0| && j < |ps0|
    requires ps0[j].context == [] && ps0[j].maxContextLength >= 1
    ensures Contexts(ps0, idx0, responses)[j].context
         == TruncateContext(Hears(|ps0|, idx0, j, responses), ps0[j].maxContextLength)
    ensures |Contexts(ps0, idx0, responses)[j].context| <= ps0[j].maxContextLength
  {
    ContextsArePushAll(ps0, idx0, responses, j);
    PushAllFromEmptyIsTruncate(Hears(|ps0|, idx0, j, responses), ps0[j].maxContextLength);
  }

  /** How a participant of the older program answers: from its own state,
      the others' profiles and the number of the request. */
  type LegacyResponder = (LegacyParticipant, seq<string>, nat) -> Option<string>

  /** `ConversationParticipant.generate_response` against the inference
      service `chat`, the `k`-th request. */
  function ModelLegacyResponder(chat: (nat, Request) -> Outcome): LegacyResponder {
    (p: LegacyParticipant, others: seq<string>, k: nat) => LegacyReply(chat(k, Request(p.model, LegacyMessages(p, others))))
  }

  /** With the service behind it, a reply is the content of the one answer to
      the participant's message list: its system message, then its context. */
  lemma ModelLegacyResponderAsks(chat: (nat, Request) -> Outcome, p: LegacyParticipant, others: seq<string>, k: nat)
    ensures var q := Request(p.model, LegacyMessages(p, others));
      && q.messages[1..] == p.context
      && ModelLegacyResponder(chat)(p, others, k) == LegacyReply(chat(k, q))
  {
  }

  /** Why a run of the older loop ended. */
  datatype Ending =
    | CapReached          // `message_count` reached `max_messages`
    | Interrupted         // KeyboardInterrupt between turns
    | Silent              // a false-y response; nothing appended for it
    | BadStarter          // `int(starter.split()[-1])` raised
    | NoSuchParticipant   // `self.participants[current_participant_index]` raised IndexError

  /** The transcript, the participants and the responses of a run, and why it
      ended. */
  datatype LegacyRun = LegacyRun(conversation: seq<Entry>, participants: seq<LegacyParticipant>,
                                 responses: seq<string>, ending: Ending)

  /** Turns the cap and the interrupt allow; the loop has no other bound. */
  function TurnBound(maxMessages: Option<int>, interruptAt: Option<nat>): nat
    requires maxMessages.Some? || interruptAt.Some?
  {
    var cap: nat := if maxMessages.Some? && maxMessages.value > 0 then maxMessages.value else 0;
    if maxMessages.None? then interruptAt.value
    else if interruptAt.None? || cap <= interruptAt.value then cap
    else interruptAt.value
  }

  /** A turn the cap and the interrupt both let through is below the bound. */
  lemma TurnBelowBound(maxMessages: Option<int>, interruptAt: Option<nat>, count: nat)
    requires maxMessages.Some? || interruptAt.Some?
    requires maxMessages.None? || count < maxMessages.value
    requires interruptAt.None? || count < interruptAt.value
    ensures count < TurnBound(maxMessages, interruptAt)
  {
  }

  /** One more response extends the transcript by its entry. */
  lemma TranscriptSnoc(speakerOf: int -> string, idx0: int, n: nat, responses: seq<string>, x: string)
    requires n > 0
    ensures Transcript(speakerOf, idx0, n, responses + [x])
         == Transcript(speakerOf, idx0, n, responses) + [Entry(speakerOf(TurnIndex(idx0, n, |responses|)), x)]
  {
    assert (responses + [x])[..|responses|] == responses;
  }

  /** One more response is passed to every participant. */
  lemma ContextsSnoc(ps0: seq<LegacyParticipant>, idx0: int, responses: seq<string>, x: string)
    requires |ps0| > 0 && -|ps0| <= idx0 < |ps0|
    ensures Contexts(ps0, idx0, responses + [x])
         == UpdateAll(Contexts(ps0, idx0, responses), Position(idx0, |ps0|, |responses|), x)
  {
    assert (responses + [x])[..|responses|] == responses;
  }

  /** The loop state after the turns that produced `responses`: the
      transcript and the participants as the reference definitions give
      them, and the index of the next speaker. */
  predicate Reached(speakerOf: int -> string, ps0: seq<LegacyParticipant>, idx0: int, seed: seq<Entry>,
                    conversation: seq<Entry>, ps: seq<LegacyParticipant>, responses: seq<string>, idx: int)
    requires |ps0| > 0 && -|ps0| <= idx0 < |ps0|
  {
    && conversation == seed + Transcript(speakerOf, idx0, |ps0|, responses)
    && ps == Contexts(ps0, idx0, responses)
    && idx == TurnIndex(idx0, |ps0|, |responses|)
  }

  /** Recording a response keeps the state consistent. */
  lemma RecordTurn(speakerOf: int -> string, ps0: seq<LegacyParticipant>, idx0: int, seed: seq<Entry>,
                   conversation: seq<Entry>, ps: seq<LegacyParticipant>, responses: seq<string>, idx: int, x: string)
    requires |ps0| > 0 && -|ps0| <= idx0 < |ps0|
    requires Reached(speakerOf, ps0, idx0, seed, conversation, ps, responses, idx)
    ensures -|ps0| <= idx < |ps0|
    ensures Reached(speakerOf, ps0, idx0, seed, conversation + [Entry(speakerOf(idx), x)],
                    UpdateAll(ps, Position(idx0, |ps0|, |responses|), x), responses + [x], (idx + 1) % |ps0|)
  {
    TurnIndexInList(idx0, |ps0|, |responses|);
    var rs := responses + [x];
    TranscriptSnoc(speakerOf, idx0, |ps0|, responses, x);
    ContextsSnoc(ps0, idx0, responses, x);
    assert TurnIndex(idx0, |ps0|, |rs|) == (idx + 1) % |ps0|;
  }

  /** What the participant whose turn follows `responses` answers: from its
      state after those turns, with the others' profiles, as request number
      `|responses|`. */
  function NextReply(respond: LegacyResponder, ps0: seq<LegacyParticipant>, idx0: int, useProfiles: bool,
                     responses: seq<string>): Option<string>
    requires |ps0| > 0 && -|ps0| <= idx0 < |ps0|
  {
    var ps := Contexts(ps0, idx0, responses);
    respond(ps[Position(idx0, |ps0|, |responses|)], OtherProfiles(ps, TurnIndex(idx0, |ps0|, |responses|), useProfiles),
            |responses|)
  }

  /** Every recorded response is the non-empty answer its speaker gave in
      the state the earlier responses left. */
  predicate Answered(respond: LegacyResponder, ps0: seq<LegacyParticipant>, idx0: int, useProfiles: bool,
                     responses: seq<string>)
    requires |ps0| > 0 && -|ps0| <= idx0 < |ps0|
  {
    forall k {:trigger NextReply(respond, ps0, idx0, useProfiles, responses[..k])} :: 0 <= k < |responses| ==>
      responses[k] != [] && NextReply(respond, ps0, idx0, useProfiles, responses[..k]) == Some(responses[k])
  }

  /** Appending the next speaker's non-empty answer keeps every response
      answered. */
  lemma AnsweredSnoc(respond: LegacyResponder, ps0: seq<LegacyParticipant>, idx0: int, useProfiles: bool,
                     responses: seq<string>, x: string)
    requires |ps0| > 0 && -|ps0| <= idx0 < |ps0|
    requires Answered(respond, ps0, idx0, useProfiles, responses)
    requires x != [] && NextReply(respond, ps0, idx0, useProfiles, responses) == Some(x)
    ensures Answered(respond, ps0, idx0, useProfiles, responses + [x])
  {
    var rs := responses + [x];
    forall k | 0 <= k < |rs|
      ensures rs[k] != [] && NextReply(respond, ps0, idx0, useProfiles, rs[..k]) == Some(rs[k])
    {
      if k < |responses| {
        assert rs[..k] == responses[..k];
        assert NextReply(respond, ps0, idx0, useProfiles, responses[..k]) == Some(responses[k]);
      } else {
        assert rs[..k] == responses;
      }
    }
  }

  /** One turn of the older loop: the participant at the index answers; a
      false-y answer changes nothing, any other is recorded. */
  method Turn(speakerOf: int -> string, ps0: seq<LegacyParticipant>, idx0: int, useProfiles: bool, seed: seq<Entry>,
              respond: LegacyResponder,
              conversation: seq<Entry>, ps: seq<LegacyParticipant>, responses: seq<string>, idx: int)
    returns (spoke: bool, conversation': seq<Entry>, ps': seq<LegacyParticipant>, responses': seq<string>, idx': int)
    requires |ps0| > 0 && -|ps0| <= idx0 < |ps0|
    requires Reached(speakerOf, ps0, idx0, seed, conversation, ps, responses, idx)
    requires Answered(respond, ps0, idx0, useProfiles, responses)
    ensures Reached(speakerOf, ps0, idx0, seed, conversation', ps', responses', idx')
    ensures Answered(respond, ps0, idx0, useProfiles, responses')
    ensures !spoke ==> responses' == responses && ps' == ps && conversation' == conversation
    ensures !spoke <==> !Truthy(NextReply(respond, ps0, idx0, useProfiles, responses))
    ensures spoke ==> responses' == responses + [NextReply(respond, ps0, idx0, useProfiles, responses).value]
  {
    var n := |ps0|;
    TurnIndexInList(idx0, n, |responses|);
    var pos := Wrap(idx, n);
    var reply := respond(ps[pos], OtherProfiles(ps, idx, useProfiles), |responses|);
    if !Truthy(reply) {
      return false, conversation, ps, responses, idx;
    }
    RecordTurn(speakerOf, ps0, idx0, seed, conversation, ps, responses, idx, reply.value);
    AnsweredSnoc(respond, ps0, idx0, useProfiles, responses, reply.value);
    conversation' := conversation + [Entry(speakerOf(idx), reply.value)];
    ps' := UpdateAll(ps, pos, reply.value);
    responses' := responses + [reply.value];
    idx' := (idx + 1) % n;
    spoke := true;
  }

  /** The turns of the older loop from a starting index inside the list:
      while fewer than `max_messages` responses were taken (`None` is no
      cap), the participant at the index answers from its own context; a
      false-y answer ends the run with nothing appended, any other is
      appended to the transcript under `speakerOf(index)` (the program's
      `SpeakerLabel`, "Participant {index + 1}"), pushed
      into every participant's context, and the index moves on by
      `(index + 1) % n`. An interrupt arrives between turns, after
      `interruptAt` responses. */
  method TakeTurns(speakerOf: int -> string, ps0: seq<LegacyParticipant>, useProfiles: bool, seed: seq<Entry>, idx0: int,
                   maxMessages: Option<int>, respond: LegacyResponder, interruptAt: Option<nat>)
    returns (run: LegacyRun)
    requires |ps0| > 0 && -|ps0| <= idx0 < |ps0|
    requires maxMessages.Some? || interruptAt.Some?
    ensures |run.responses| <= TurnBound(maxMessages, interruptAt)
    ensures Answered(respond, ps0, idx0, useProfiles, run.responses)
    ensures run.conversation == seed + Transcript(speakerOf, idx0, |ps0|, run.responses)
    ensures run.participants == Contexts(ps0, idx0, run.responses)
    ensures run.ending.CapReached? || run.ending.Interrupted? || run.ending.Silent?
    ensures run.ending == CapReached ==> maxMessages.Some? && |run.responses| == TurnBound(maxMessages, None)
    ensures run.ending == Interrupted ==> interruptAt == Some(|run.responses|)
    ensures run.ending == Silent ==> !Truthy(NextReply(respond, ps0, idx0, useProfiles, run.responses))
    ensures run.ending == Silent ==> |run.responses| < TurnBound(maxMessages, interruptAt)
  {
    var conversation := seed;
    var ps := ps0;
    var responses: seq<string> := [];
    var idx := idx0;
    while maxMessages.None? || |responses| < maxMessages.value
      invariant |responses| <= TurnBound(maxMessages, interruptAt)
      invariant interruptAt.None? || |responses| <= interruptAt.value
      invariant Reached(speakerOf, ps0, idx0, seed, conversation, ps, responses, idx)
      invariant Answered(respond, ps0, idx0, useProfiles, responses)
      decreases TurnBound(maxMessages, interruptAt) - |responses|
    {
      if interruptAt == Some(|responses|) {
        return LegacyRun(conversation, ps, responses, Interrupted);
      }
      TurnBelowBound(maxMessages, interruptAt, |responses|);
      var spoke;
      spoke, conversation, ps, responses, idx := Turn(speakerOf, ps0, idx0, useProfiles, seed, respond, conversation, ps, responses, idx);
      if !spoke {
        return LegacyRun(conversation, ps, responses, Silent);
      }
    }
    return LegacyRun(conversation, ps, responses, CapReached);
  }

  /** The starter's number names a position of the participant list,
      counting from the end for a negative one. */
  predicate StartsInList(ps0: seq<LegacyParticipant>, starter: string) {
    StarterIndex(starter).Some? && |ps0| > 0 && -|ps0| <= StarterIndex(starter).value < |ps0|
  }

  /** `ConversationManager.run_conversation` of the older program: the
      starter's number gives the first index, then `TakeTurns`. Python
      raises before any turn when the starter has no integer last word, and
      at the first turn when the index is not a position of the list.
      Without a cap the loop only ends by an interrupt or a false-y answer,
      so one of the two bounds is given. */
  method RunLegacy(ps0: seq<LegacyParticipant>, useProfiles: bool, seed: seq<Entry>, starter: string,
                   maxMessages: Option<int>, respond: LegacyResponder, interruptAt: Option<nat>)
    returns (run: LegacyRun)
    requires maxMessages.Some? || interruptAt.Some?
    ensures |run.conversation| == |seed| + |run.responses| && run.conversation[..|seed|] == seed
    ensures |run.responses| <= TurnBound(maxMessages, interruptAt)
    ensures run.ending == BadStarter <==> StarterIndex(starter).None?
    ensures run.responses == [] ==> run.conversation == seed && run.participants == ps0
    ensures run.ending == CapReached ==> maxMessages.Some? && |run.responses| == TurnBound(maxMessages, None)
    ensures run.ending == Interrupted ==> interruptAt == Some(|run.responses|)
    ensures run.ending == NoSuchParticipant <==> StarterIndex(starter).Some? && !StartsInList(ps0, starter)
                                                  && TurnBound(maxMessages, interruptAt) > 0
    ensures run.responses != [] || run.ending == Silent ==>
              && StartsInList(ps0, starter)
              && run.conversation == seed + Transcript(SpeakerLabel, StarterIndex(starter).value, |ps0|, run.responses)
              && run.participants == Contexts(ps0, StarterIndex(starter).value, run.responses)
              && Answered(respond, ps0, StarterIndex(starter).value, useProfiles, run.responses)
    ensures run.ending == Silent ==> |run.responses| < TurnBound(maxMessages, interruptAt)
    ensures run.ending == Silent ==>
              StartsInList(ps0, starter)
              && !Truthy(NextReply(respond, ps0, StarterIndex(starter).value, useProfiles, run.responses))
  {
    var start := StarterIndex(starter);
    if start.None? {
      return LegacyRun(seed, ps0, [], BadStarter);
    }
    var idx0 := start.value;
    var n := |ps0|;
    if maxMessages.Some? && maxMessages.value <= 0 {
      return LegacyRun(seed, ps0, [], CapReached);
    }
    if interruptAt == Some(0) {
      return LegacyRun(seed, ps0, [], Interrupted);
    }
    if !(n > 0 && -n <= idx0 < n) {
      return LegacyRun(seed, ps0, [], NoSuchParticipant);
    }
    run := TakeTurns(SpeakerLabel, ps0, useProfiles, seed, idx0, maxMessages, respond, interruptAt);
  }

  /** Why `setup_conversation` raised ValueError. */
  datatype SetupError =
    | TopicFailed                 // the moderator gave no topic
    | ProfileFailed(number: int)  // no profile for this participant
    | EmptyStarterRange           // `random.randint(1, 0)`: profiles on, no participants

  function SetupMessage(e: SetupError): string {
    match e
    case TopicFailed => "Failed to determine a topic."
    case ProfileFailed(k) => "Failed to determine profile for Participant " + IntToString(k) + "."
    case EmptyStarterRange => "empty range for randrange()"
  }

  /** What `setup_conversation` leaves behind: the topic, the participants,
      the opening transcript and the starter it returns. */
  datatype Setup = Setup(topic: string, participants: seq<LegacyParticipant>, conversation: seq<Entry>, starter: string)

  function Profiles(ps: seq<LegacyParticipant>): (r: seq<string>)
    ensures |r| == |ps|
    ensures forall i :: 0 <= i < |ps| ==> r[i] == ps[i].profile
  {
    seq(|ps|, i requires 0 <= i < |ps| => ps[i].profile)
  }

  /** The moderator's answer to `determine_topic` for the keyword line the
      operator typed, split at every comma and not stripped: its first
      request. */
  function TopicReply(model: ConfigValue, line: string, chat: (nat, Request) -> Outcome): Option<string> {
    ModeratorAsk(model, DetermineTopicPrompt(Split(line, ',')), NthCall(chat, 0))
  }

  /** The topic request is the service's first: one user message whose
      prompt carries the keywords, which are the pieces of the typed line
      between commas, joined again by ", "; the reply is the answer's
      content, unstripped, or `None`. */
  lemma ModelTopicAsks(model: ConfigValue, line: string, chat: (nat, Request) -> Outcome)
    ensures var keywords := Split(line, ',');
      var prompt := DetermineTopicPrompt(keywords);
      && TopicReply(model, line, chat) == LegacyReply(chat(0, Request(model, [Message("user", prompt)])))
      && StartsWith(prompt, DetermineTopicLead)
      && InfixAt(Join(", ", keywords), prompt, |DetermineTopicLead|)
      && Join(",", keywords) == line
  {
    JoinSplit(line, ',');
    assert [','] == ",";
  }

  /** How the moderator answers `determine_profile(topic, number)`. */
  type ProfileOracle = (string, nat) -> Option<string>

  /** `determine_profile` against the inference service: participant
      `number`'s profile is the `number`-th request after the topic's. */
  function ModelProfiles(model: ConfigValue, chat: (nat, Request) -> Outcome): ProfileOracle {
    (topic: string, number: nat) => ModeratorAsk(model, DetermineProfilePrompt(topic, number), NthCall(chat, number))
  }

  /** Each profile request is one user message that quotes the topic and
      names the participant's number. */
  lemma ModelProfilesAsk(model: ConfigValue, chat: (nat, Request) -> Outcome, topic: string, number: nat)
    ensures var prompt := DetermineProfilePrompt(topic, number);
      && ModelProfiles(model, chat)(topic, number) == LegacyReply(chat(number, Request(model, [Message("user", prompt)])))
      && InfixAt(topic, prompt, |DetermineProfileLead|)
      && InfixAt(IntToString(number), prompt, |DetermineProfileLead| + |topic| + |DetermineProfileMiddle|)
  {
  }

  /** `setup_conversation` after the keyword line is read: the moderator's
      topic (`TopicReply` against the service), then, with profiles on, one
      profile per participant in order (`ModelProfiles`); a false-y answer
      raises ValueError. The transcript opens with the topic, then, with
      profiles on, the profiles joined by "; " and a starter drawn at random
      (`pick`, the value `random.randint(1, n)` returned); without profiles
      the starter is "Participant 1". */
  method SetupLegacy(participantModel: ConfigValue,
                     maxContextLength: int, numParticipants: int, useProfiles: bool,
                     topicReply: Option<string>, profiles: ProfileOracle, pick: nat)
    returns (r: Result<Setup, SetupError>)
    requires useProfiles && numParticipants >= 1 ==> 1 <= pick <= numParticipants
    ensures r == Failure(TopicFailed) <==> !Truthy(topicReply)
    ensures r.Failure? && r.error.ProfileFailed? ==>
              && useProfiles && 1 <= r.error.number <= numParticipants
              && var topic := topicReply.value;
              && !Truthy(profiles(topic, r.error.number))
              && forall k :: 1 <= k < r.error.number ==> Truthy(profiles(topic, k))
    ensures r == Failure(EmptyStarterRange) <==> Truthy(topicReply) && useProfiles && numParticipants < 1
    ensures r.Success? ==> var st := r.value;
              && topicReply == Some(st.topic) && st.topic != []
              && |st.participants| == (if numParticipants > 0 then numParticipants else 0)
              && (forall i :: 0 <= i < |st.participants| ==>
                    st.participants[i] == LegacyParticipant(participantModel,
                      if useProfiles then profiles(st.topic, i + 1).GetOr("") else "",
                      st.topic, maxContextLength, []))
              && (useProfiles ==> forall i :: 0 <= i < |st.participants| ==> st.participants[i].profile != [])
              && st.starter == ParticipantName(if useProfiles then pick else 1)
              && |st.conversation| == (if useProfiles then 3 else 2)
              && st.conversation[0] == Entry("Moderator", "Topic: " + st.topic)
              && (useProfiles ==> st.conversation[1] == Entry("Moderator", "Profiles: " + Join("; ", Profiles(st.participants))))
              && st.conversation[|st.conversation| - 1] == Entry("Moderator", st.starter + " starts")
  {
    if !Truthy(topicReply) {
      return Failure(TopicFailed);
    }
    var topic := topicReply.value;
    var ps: seq<LegacyParticipant> := [];
    var i := 0;
    while i < numParticipants
      invariant 0 <= i <= if numParticipants > 0 then numParticipants else 0
      invariant |ps| == i
      invariant forall k :: 0 <= k < i ==>
                  ps[k] == LegacyParticipant(participantModel,
                    if useProfiles then profiles(topic, k + 1).GetOr("") else "",
                    topic, maxContextLength, [])
      invariant useProfiles ==> forall k :: 1 <= k <= i ==> Truthy(profiles(topic, k))
    {
      var profile := "";
      if useProfiles {
        var reply := profiles(topic, i + 1);
        if !Truthy(reply) {
          return Failure(ProfileFailed(i + 1));
        }
        profile := reply.value;
      }
      ps := ps + [LegacyParticipant(participantModel, profile, topic, maxContextLength, [])];
      i := i + 1;
    }
    var conversation := [Entry("Moderator", "Topic: " + topic)];
    var starter;
    if useProfiles {
      if numParticipants < 1 {
        return Failure(EmptyStarterRange);
      }
      conversation := conversation + [Entry("Moderator", "Profiles: " + Join("; ", Profiles(ps)))];
      starter := ParticipantName(pick);
    } else {
      starter := ParticipantName(1);
    }
    conversation := conversation + [Entry("Moderator", starter + " starts")];
    return Success(Setup(topic, ps, conversation, starter));
  }

  /** A successful setup with participants hands `run_conversation` a
      starter whose index is a position of the list, so the run neither
      fails to parse it nor indexes outside the list. */
  lemma SetupStarterInRange(st: Setup, useProfiles: bool, pick: nat)
    requires |st.participants| > 0
    requires st.starter == ParticipantName(if useProfiles then pick else 1)
    requires useProfiles ==> 1 <= pick <= |st.participants|
    ensures StarterIndex(st.starter).Some?
    ensures 0 <= StarterIndex(st.starter).value < |st.participants|
  {
    StarterIndexOfName(if useProfiles then pick else 1);
  }
}
