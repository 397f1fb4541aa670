/** The round-robin conversation of conversation_manager.py: participants
    named "Participant 1" .. "Participant n", a history seeded with the topic
    and the profiles, and `num_rounds` rounds in which every participant
    speaks once, in order. */
module ConversationManager {
  import opened Wrappers
  import opened Text
  import opened Config
  import opened Chat
  import opened TurnContext

  /** The display name of the participant with 1-based number `k`. */
  function ParticipantName(k: nat): string {
    "Participant " + NatToString(k)
  }

  /** The last word of a participant's name is its number, so the name is
      never blank and `name.split()[-1]` reads the number back. */
  lemma ParticipantNameEndsInNumber(k: nat)
    ensures !AllSpace(ParticipantName(k))
    ensures LastWord(ParticipantName(k)) == Some(NatToString(k))
    ensures ParseInt(LastWord(ParticipantName(k)).value) == Some(k)
  {
    var digits := NatToString(k);
    assert NoSpace(digits) by {
      forall i | 0 <= i < |digits|
        ensures !IsSpace(digits[i])
      {
        assert IsDigit(digits[i]);
      }
    }
    assert ParticipantName(k) == "Participant" + " " + digits;
    LastWordAfterSpace("Participant", digits);
    ParseIntOfIntToString(k);
  }

  /** Different numbers give different names. */
  lemma ParticipantNamesDistinct(a: nat, b: nat)
    requires a != b
    ensures ParticipantName(a) != ParticipantName(b)
  {
    ParticipantNameEndsInNumber(a);
    ParticipantNameEndsInNumber(b);
  }

  /** What `ConversationManager.__init__` can raise while it reads the
      configuration and the profile list. */
  datatype InitError = KeyError(key: string) | IndexError

  /** `create_participants`. The class defines it twice; the second
      definition is the one in force, so every participant uses the
      configuration's `participant_model`, not the model chosen at the
      prompt. Each step of the comprehension reads `participant_model`, then
      `profiles[i]`, then `ollama_host`, so the first lookup that fails is
      the error Python raises: a missing key on the first step, an index
      past the profile list on step `|profiles|`. With no participants
      nothing is read. Every name carries its number as last word, so no
      two are alike (`ParticipantNamesDistinct`). */
  method CreateParticipants(config: ConfigMap, numParticipants: int, topic: string, profiles: seq<Option<string>>)
    returns (r: Result<seq<Participant>, InitError>)
    ensures r.Failure? <==>
              numParticipants > 0
              && ("participant_model" !in config || "ollama_host" !in config || numParticipants > |profiles|)
    ensures r.Failure? && "participant_model" !in config ==> r.error == KeyError("participant_model")
    ensures r.Failure? && "participant_model" in config && |profiles| == 0 ==> r.error == IndexError
    ensures r.Failure? && "participant_model" in config && |profiles| > 0 && "ollama_host" !in config ==>
              r.error == KeyError("ollama_host")
    ensures r.Failure? && "participant_model" in config && "ollama_host" in config ==> r.error == IndexError
    ensures r.Success? ==> |r.value| == if numParticipants > 0 then numParticipants else 0
    ensures r.Success? ==> forall i :: 0 <= i < |r.value| ==> r.value[i].name == ParticipantName(i + 1)
    ensures r.Success? ==> forall i :: 0 <= i < |r.value| ==>
              && i < |profiles|
              && r.value[i].model == config["participant_model"]
              && r.value[i].profile == profiles[i]
              && r.value[i].topic == topic
    ensures r.Success? ==> NamesUsable(r.value)
  {
    var ps := [];
    var i := 0;
    while i < numParticipants
      invariant 0 <= i <= if numParticipants > 0 then numParticipants else 0
      invariant i > 0 ==> "participant_model" in config && "ollama_host" in config && i <= |profiles|
      invariant |ps| == i
      invariant forall k :: 0 <= k < i ==>
                  ps[k] == Participant(config["participant_model"], profiles[k], topic, ParticipantName(k + 1))
    {
      if "participant_model" !in config {
        return Failure(KeyError("participant_model"));
      }
      if i >= |profiles| {
        return Failure(IndexError);
      }
      if "ollama_host" !in config {
        return Failure(KeyError("ollama_host"));
      }
      ps := ps + [Participant(config["participant_model"], profiles[i], topic, ParticipantName(i + 1))];
      i := i + 1;
    }
    forall k | 0 <= k < |ps|
      ensures !AllSpace(ps[k].name)
    {
      ParticipantNameEndsInNumber(k + 1);
    }
    return Success(ps);
  }

  /** Python's truth value of an optional text (a profile, a reply): `None`
      and "" are false. */
  predicate Truthy(profile: Option<string>) {
    profile.Some? && profile.value != []
  }

  function CountTruthy(profiles: seq<Option<string>>): nat
    decreases |profiles|
  {
    if profiles == [] then 0
    else CountTruthy(profiles[..|profiles| - 1]) + (if Truthy(profiles[|profiles| - 1]) then 1 else 0)
  }

  /** A truthy profile is counted before any later position. */
  lemma {:induction false} CountTruthyGrows(profiles: seq<Option<string>>, j: nat, i: nat)
    requires j < i <= |profiles|
    requires Truthy(profiles[j])
    ensures CountTruthy(profiles[..j]) < CountTruthy(profiles[..i])
    decreases i
  {
    var upTo := profiles[..i];
    assert upTo[..i - 1] == profiles[..i - 1];
    if j < i - 1 {
      CountTruthyGrows(profiles, j, i - 1);
    }
  }

  function TopicEntry(topic: string): Message {
    Message("system", "Topic: " + topic)
  }

  function ProfileEntry(i: nat, profile: string): Message {
    Message("system", ParticipantName(i + 1) + " profile: " + profile)
  }

  /** `initialize_conversation_history`: the topic line, then one profile
      line per truthy profile, in participant order. Every profile in the
      list is announced, also beyond the number of participants. */
  method InitializeHistory(topic: string, profiles: seq<Option<string>>) returns (history: seq<Message>)
    ensures |history| == 1 + CountTruthy(profiles)
    ensures history[0] == TopicEntry(topic)
    ensures forall k :: 0 <= k < |history| ==> history[k].role == "system"
    ensures forall i :: 0 <= i < |profiles| && Truthy(profiles[i]) ==>
              1 + CountTruthy(profiles[..i]) < |history|
              && history[1 + CountTruthy(profiles[..i])] == ProfileEntry(i, profiles[i].value)
  {
    history := [TopicEntry(topic)];
    var i := 0;
    while i < |profiles|
      invariant 0 <= i <= |profiles|
      invariant |history| == 1 + CountTruthy(profiles[..i])
      invariant history[0] == TopicEntry(topic)
      invariant forall k :: 0 <= k < |history| ==> history[k].role == "system"
      invariant forall j :: 0 <= j < i && Truthy(profiles[j]) ==>
                  1 + CountTruthy(profiles[..j]) < |history|
                  && history[1 + CountTruthy(profiles[..j])] == ProfileEntry(j, profiles[j].value)
    {
      assert profiles[..i + 1][..i] == profiles[..i];
      if Truthy(profiles[i]) {
        history := history + [ProfileEntry(i, profiles[i].value)];
      }
      forall j | 0 <= j < i + 1 && Truthy(profiles[j])
        ensures 1 + CountTruthy(profiles[..j]) < |history|
      {
        if j < i {
          CountTruthyGrows(profiles, j, i);
        }
      }
      i := i + 1;
    }
    assert profiles[..i] == profiles;
  }

  /** Turns a run of `numRounds` rounds plans: `range(num_rounds)` is empty
      for a count below one. */
  function PlannedTurns(numRounds: int, n: nat): nat {
    if numRounds > 0 then numRounds * n else 0
  }

  /** Turns completed when the operator's interrupt, if any, arrives after
      `interruptAt` turns. */
  function TurnsTaken(planned: nat, interruptAt: Option<nat>): nat {
    if interruptAt.Some? && interruptAt.value < planned then interruptAt.value else planned
  }

  function IsFinalRound(round: int, numRounds: int): bool {
    round == numRounds - 1
  }

  /** Turn `k` (0-based) falls in round `k / n`, to participant `k % n`. */
  lemma TurnPosition(round: nat, n: nat, j: nat)
    requires j < n
    ensures (round * n + j) / n == round
    ensures (round * n + j) % n == j
  {
    var k := round * n + j;
    var q := k / n;
    var r := k % n;
    assert q * n + r == k;
    if q > round {
      MulAtLeast(q - round, n);
    } else if q < round {
      MulAtLeast(round - q, n);
    }
  }

  lemma {:induction false} MulAtLeast(d: nat, n: nat)
    requires d >= 1
    ensures d * n >= n
  {
    if d > 1 {
      MulAtLeast(d - 1, n);
      assert d * n == (d - 1) * n + n;
    }
  }

  /** Turns of round `round` come before the end of the plan. */
  lemma TurnWithinPlan(round: nat, numRounds: int, n: nat, j: nat)
    requires round < numRounds && j < n
    ensures round * n + j < PlannedTurns(numRounds, n)
  {
    assert (round + 1) * n <= numRounds * n by {
      assert numRounds * n - (round + 1) * n == (numRounds - round - 1) * n;
    }
  }

  /** The seat (0-based position in the participant list) of turn `k`
      among `n` participants, counted round by round. */
  function Seat(k: nat, n: nat): (j: nat)
    requires n > 0
    ensures j < n
  {
    if k < n then k else Seat(k - n, n)
  }

  /** The round (0-based) turn `k` falls in. */
  function Round(k: nat, n: nat): nat
    requires n > 0
  {
    if k < n then 0 else Round(k - n, n) + 1
  }

  /** Turn `j` of round `round` is taken by seat `j`. */
  lemma {:induction false} SeatOfTurn(round: nat, n: nat, j: nat)
    requires j < n
    ensures Seat(round * n + j, n) == j && Round(round * n + j, n) == round
  {
    if round > 0 {
      SeatOfTurn(round - 1, n, j);
      assert round * n + j - n == (round - 1) * n + j;
    }
  }

  /** Seat and round are the remainder and quotient of the turn number. */
  lemma SeatIsRemainder(k: nat, n: nat)
    requires n > 0
    ensures Seat(k, n) == k % n && Round(k, n) == k / n
  {
    var q := k / n;
    var r := k % n;
    assert k == q * n + r;
    SeatOfTurn(q, n, r);
  }

  /** Exactly the turns of the last round get the final-round prompt. */
  lemma FinalRoundTurns(numRounds: int, n: nat, k: nat)
    requires n > 0 && k < PlannedTurns(numRounds, n)
    ensures IsFinalRound(Round(k, n), numRounds) <==> (numRounds - 1) * n <= k
  {
    var last := numRounds - 1;
    assert numRounds * n == last * n + n;
    SeatIsRemainder(k, n);
    if last * n <= k {
      TurnPosition(last, n, k - last * n);
    }
  }

  /** Participants whose names `generate_response` can read a number from. */
  predicate NamesUsable(ps: seq<Participant>) {
    forall i :: 0 <= i < |ps| ==> !AllSpace(ps[i].name)
  }

  /** How participant `p` answers the history `h` as the `k`-th request, on
      the final round or not. */
  type Responder = (Participant, seq<Message>, bool, nat) -> string

  /** The inference service as seen by the `k`-th request. */
  function NthCall(chat: (nat, Request) -> Outcome, k: nat): Request -> Outcome {
    req => chat(k, req)
  }

  /** `generate_response` against the inference service `chat`. Python
      raises IndexError for a blank name; created participants never have
      one, and for such a name this responder gives the empty text. */
  function ModelResponder(chat: (nat, Request) -> Outcome): Responder {
    (p: Participant, h: seq<Message>, isFinalRound: bool, k: nat) =>
      if AllSpace(p.name) then [] else GenerateResponse(p, h, isFinalRound, NthCall(chat, k))
  }

  /** For participants with usable names the responder is exactly
      `generate_response`, and its answer is never empty. */
  lemma ModelResponderGenerates(chat: (nat, Request) -> Outcome, p: Participant, h: seq<Message>, isFinalRound: bool, k: nat)
    requires !AllSpace(p.name)
    ensures ModelResponder(chat)(p, h, isFinalRound, k) == GenerateResponse(p, h, isFinalRound, NthCall(chat, k))
    ensures ModelResponder(chat)(p, h, isFinalRound, k) != []
  {
  }

  /** The entry turn `k` appends to `history` as it stands before the turn:
      the speaker is the participant in seat `Seat(k, n)`, answering on the
      final round exactly when `Round(k, n)` is the last round. */
  function TurnEntry(ps: seq<Participant>, numRounds: int, respond: Responder, k: nat, history: seq<Message>)
    : (e: Message)
    requires |ps| > 0
    ensures e.role == ps[Seat(k, |ps|)].name
  {
    var p := ps[Seat(k, |ps|)];
    Message(p.name, respond(p, history, IsFinalRound(Round(k, |ps|), numRounds), k))
  }

  /** Turn `j` of round `round` is participant `j` speaking, on the final
      round exactly when `round` is the last one. */
  lemma TurnEntryInRound(ps: seq<Participant>, numRounds: int, respond: Responder,
                         round: nat, j: nat, history: seq<Message>)
    requires j < |ps|
    ensures TurnEntry(ps, numRounds, respond, round * |ps| + j, history)
         == Message(ps[j].name, respond(ps[j], history, IsFinalRound(round, numRounds), round * |ps| + j))
  {
    SeatOfTurn(round, |ps|, j);
  }

  /** `seed` followed by `count` turns, turn `k` appending `entry(k, h)` to
      the history `h` as it stood before it. */
  function Schedule(seed: seq<Message>, count: nat, entry: (nat, seq<Message>) -> Message): (h: seq<Message>)
    ensures |h| == |seed| + count
  {
    if count == 0 then seed
    else
      var before := Schedule(seed, count - 1, entry);
      before + [entry(count - 1, before)]
  }

  /** A scheduled history starts with its seed. */
  lemma {:induction false} ScheduleKeepsSeed(seed: seq<Message>, count: nat, entry: (nat, seq<Message>) -> Message)
    ensures Schedule(seed, count, entry)[..|seed|] == seed
  {
    if count > 0 {
      var before := Schedule(seed, count - 1, entry);
      ScheduleKeepsSeed(seed, count - 1, entry);
      assert Schedule(seed, count, entry)[..|seed|] == before[..|seed|];
    }
  }

  /** Each entry after the seed is the turn made from the entries before it. */
  lemma {:induction false} ScheduleEntries(seed: seq<Message>, count: nat, entry: (nat, seq<Message>) -> Message)
    ensures forall i :: |seed| <= i < |seed| + count ==>
              Schedule(seed, count, entry)[i] == entry(i - |seed|, Schedule(seed, count, entry)[..i])
  {
    if count > 0 {
      var before := Schedule(seed, count - 1, entry);
      ScheduleEntries(seed, count - 1, entry);
      var h := Schedule(seed, count, entry);
      assert h == before + [entry(count - 1, before)];
      forall i | |seed| <= i < |h|
        ensures h[i] == entry(i - |seed|, h[..i])
      {
        if i < |before| {
          assert h[i] == before[i] && h[..i] == before[..i];
          assert before[i] == entry(i - |seed|, before[..i]);
        } else {
          assert h[..i] == before && i - |seed| == count - 1;
        }
      }
    }
  }

  /** When turn `k` is always authored by the participant in its seat, so is
      the entry turn `k` leaves in the history. */
  lemma {:induction false} ScheduleSpeakers(seed: seq<Message>, count: nat, entry: (nat, seq<Message>) -> Message,
                                            ps: seq<Participant>)
    requires |ps| > 0
    requires forall k: nat, h: seq<Message> :: entry(k, h).role == ps[Seat(k, |ps|)].name
    ensures forall i :: |seed| <= i < |seed| + count ==>
              Schedule(seed, count, entry)[i].role == ps[Seat(i - |seed|, |ps|)].name
  {
    if count > 0 {
      ScheduleSpeakers(seed, count - 1, entry, ps);
      var before := Schedule(seed, count - 1, entry);
      var h := Schedule(seed, count, entry);
      assert h == before + [entry(count - 1, before)];
      forall i | |seed| <= i < |h|
        ensures h[i].role == ps[Seat(i - |seed|, |ps|)].name
      {
        if i < |before| {
          assert h[i] == before[i];
        } else {
          assert h[i] == entry(count - 1, before);
        }
      }
    }
  }

  /** The turns of a conversation among `ps`. With no participants no turn
      is ever taken, so the first branch is never used. */
  function Speak(ps: seq<Participant>, numRounds: int, respond: Responder): (nat, seq<Message>) -> Message {
    (k: nat, h: seq<Message>) =>
      if |ps| == 0 then Message("system", []) else TurnEntry(ps, numRounds, respond, k, h)
  }

  /** Each turn's entry is authored by the participant whose turn it is. */
  lemma SpeakRoles(ps: seq<Participant>, numRounds: int, respond: Responder)
    requires |ps| > 0
    ensures forall k: nat, h: seq<Message> :: Speak(ps, numRounds, respond)(k, h).role == ps[Seat(k, |ps|)].name
  {
    forall k: nat, h: seq<Message>
      ensures Speak(ps, numRounds, respond)(k, h).role == ps[Seat(k, |ps|)].name
    {
      assert Speak(ps, numRounds, respond)(k, h) == TurnEntry(ps, numRounds, respond, k, h);
    }
  }

  /** With the inference service behind it, turn `k` is `generate_response`
      of the participant in its seat on the history so far, and it is never
      empty. */
  lemma ModelTurn(ps: seq<Participant>, numRounds: int, chat: (nat, Request) -> Outcome, k: nat, h: seq<Message>)
    requires |ps| > 0 && NamesUsable(ps)
    ensures var p := ps[Seat(k, |ps|)];
      Speak(ps, numRounds, ModelResponder(chat))(k, h)
      == Message(p.name, GenerateResponse(p, h, IsFinalRound(Round(k, |ps|), numRounds), NthCall(chat, k)))
    ensures Speak(ps, numRounds, ModelResponder(chat))(k, h).content != []
  {
    var p := ps[Seat(k, |ps|)];
    ModelResponderGenerates(chat, p, h, IsFinalRound(Round(k, |ps|), numRounds), k);
  }

  /** The loop of `run_conversation` for `n` participants and any turn
      function: for each round, for each participant in order, one entry is
      appended, the `k`-th made by `turn(k, history)`. An interrupt
      (KeyboardInterrupt) before turn `interruptAt` ends the run with the
      history as it stands, made of whole turns only. */
  method RunRounds(n: nat, numRounds: int, seed: seq<Message>, turn: (nat, seq<Message>) -> Message,
                   interruptAt: Option<nat>)
    returns (history: seq<Message>)
    ensures history == Schedule(seed, TurnsTaken(PlannedTurns(numRounds, n), interruptAt), turn)
  {
    history := seed;
    var round := 0;
    while round < numRounds
      invariant 0 <= round <= if numRounds > 0 then numRounds else 0
      invariant interruptAt.None? || interruptAt.value >= round * n
      invariant history == Schedule(seed, round * n, turn)
    {
      var j := 0;
      while j < n
        invariant 0 <= j <= n
        invariant interruptAt.None? || interruptAt.value >= round * n + j
        invariant history == Schedule(seed, round * n + j, turn)
      {
        var k := round * n + j;
        TurnWithinPlan(round, numRounds, n, j);
        if interruptAt == Some(k) {
          return;
        }
        history := history + [turn(k, history)];
        j := j + 1;
      }
      assert round * n + n == (round + 1) * n;
      round := round + 1;
    }
    assert round == if numRounds > 0 then numRounds else 0;
    assert round * n == PlannedTurns(numRounds, n);
  }

  /** `run_conversation`: every participant in turn answers the history so
      far, and its answer is appended under its name (see `TurnEntryInRound`
      for the turn taken by participant `j` in round `round`).

      The source then calls `other.update_context(...)` on every other
      participant, a method the participant class does not define; that call
      is left out here (see `RunAsWritten` for its effect). */
  method RunConversation(ps: seq<Participant>, numRounds: int, seed: seq<Message>,
                         respond: Responder, interruptAt: Option<nat>)
    returns (history: seq<Message>)
    ensures |history| == |seed| + TurnsTaken(PlannedTurns(numRounds, |ps|), interruptAt)
    ensures history == Schedule(seed, TurnsTaken(PlannedTurns(numRounds, |ps|), interruptAt), Speak(ps, numRounds, respond))
    ensures history[..|seed|] == seed
    ensures forall i :: |seed| <= i < |history| ==> |ps| > 0 && history[i].role == ps[Seat(i - |seed|, |ps|)].name
  {
    var speak := Speak(ps, numRounds, respond);
    history := RunRounds(|ps|, numRounds, seed, speak, interruptAt);
    ScheduleKeepsSeed(seed, |history| - |seed|, speak);
    if |ps| > 0 {
      SpeakRoles(ps, numRounds, respond);
      ScheduleSpeakers(seed, |history| - |seed|, speak, ps);
    }
  }

  /** The state `ConversationManager.__init__` sets up: the participants,
      the opening history and the number of rounds. */
  datatype Manager = Manager(participants: seq<Participant>, history: seq<Message>, numRounds: int)

  /** `ConversationManager.__init__`: the participants are created, the
      history is seeded, and then the moderator client is built from
      `moderator_model` and `ollama_host`, in that order; a missing key
      raises KeyError at the first lookup that needs it. */
  method NewManager(config: ConfigMap, numParticipants: int, topic: string, profiles: seq<Option<string>>, numRounds: int)
    returns (r: Result<Manager, InitError>)
    ensures r.Success? <==>
              && (numParticipants <= 0 || ("participant_model" in config && numParticipants <= |profiles|))
              && "moderator_model" in config && "ollama_host" in config
    ensures r.Failure? && numParticipants > 0 && "participant_model" !in config ==>
              r.error == KeyError("participant_model")
    ensures r.Failure? && numParticipants > 0 && "participant_model" in config && |profiles| == 0 ==>
              r.error == IndexError
    ensures r.Failure? && numParticipants > 0 && "participant_model" in config && |profiles| > 0 && "ollama_host" !in config ==>
              r.error == KeyError("ollama_host")
    ensures r.Failure? && numParticipants > 0 && "participant_model" in config && "ollama_host" in config
              && numParticipants > |profiles| ==>
              r.error == IndexError
    ensures r.Failure? && (numParticipants <= 0 || ("participant_model" in config && "ollama_host" in config && numParticipants <= |profiles|)) ==>
              r.error == KeyError(if "moderator_model" !in config then "moderator_model" else "ollama_host")
    ensures r.Success? ==> r.value.numRounds == numRounds
    ensures r.Success? ==> |r.value.participants| == if numParticipants > 0 then numParticipants else 0
    ensures r.Success? ==> forall i :: 0 <= i < |r.value.participants| ==>
              && r.value.participants[i].name == ParticipantName(i + 1)
              && r.value.participants[i].model == config["participant_model"]
              && r.value.participants[i].profile == profiles[i]
              && r.value.participants[i].topic == topic
    ensures r.Success? ==> NamesUsable(r.value.participants)
    ensures r.Success? ==> |r.value.history| == 1 + CountTruthy(profiles) && r.value.history[0] == TopicEntry(topic)
    ensures r.Success? ==> forall k :: 0 <= k < |r.value.history| ==> r.value.history[k].role == "system"
    ensures r.Success? ==> forall i :: 0 <= i < |profiles| && Truthy(profiles[i]) ==>
              1 + CountTruthy(profiles[..i]) < |r.value.history|
              && r.value.history[1 + CountTruthy(profiles[..i])] == ProfileEntry(i, profiles[i].value)
  {
    var created := CreateParticipants(config, numParticipants, topic, profiles);
    if created.Failure? {
      assert numParticipants > 0;
      return Failure(created.error);
    }
    assert numParticipants <= 0 || ("participant_model" in config && "ollama_host" in config && numParticipants <= |profiles|);
    var history := InitializeHistory(topic, profiles);
    if "moderator_model" !in config {
      return Failure(KeyError("moderator_model"));
    }
    if "ollama_host" !in config {
      return Failure(KeyError("ollama_host"));
    }
    return Success(Manager(created.value, history, numRounds));
  }

  /** After a run from a manager's opening history, the `k`-th turn is
      spoken by "Participant s", `s - 1` being the turn's seat, which is
      `k mod n` (`SeatIsRemainder`). */
  lemma SeatedNames(ps: seq<Participant>, history: seq<Message>, base: nat)
    requires |ps| > 0
    requires forall i :: 0 <= i < |ps| ==> ps[i].name == ParticipantName(i + 1)
    requires forall i :: base <= i < |history| ==> history[i].role == ps[Seat(i - base, |ps|)].name
    ensures forall i :: base <= i < |history| ==> history[i].role == ParticipantName(Seat(i - base, |ps|) + 1)
  {
  }

  /** What the participant class raises when `run_conversation` calls the
      `update_context` method it does not have. */
  const MissingUpdateContext: string := "'Participant' object has no attribute 'update_context'"

  /** How a call to `run_conversation` ends: it returns the history, or an
      exception escapes it, leaving the history as it was when raised. */
  datatype RunOutcome = Returned(history: seq<Message>) | Raised(error: string, history: seq<Message>)

  /** `run_conversation` exactly as written: right after the first turn is
      appended, the loop over the other participants calls the missing
      `update_context`, and the AttributeError is not the KeyboardInterrupt
      the method catches. With two or more participants and at least one
      round the run therefore stops with one turn in the history. */
  method RunAsWritten(ps: seq<Participant>, numRounds: int, seed: seq<Message>,
                      respond: Responder, interruptAt: Option<nat>)
    returns (outcome: RunOutcome)
    ensures outcome.Raised? <==> |ps| >= 2 && numRounds >= 1 && interruptAt != Some(0)
    ensures outcome.Raised? ==>
              outcome.error == MissingUpdateContext && outcome.history == Schedule(seed, 1, Speak(ps, numRounds, respond))
    ensures outcome.Returned? ==>
              outcome.history == Schedule(seed, TurnsTaken(PlannedTurns(numRounds, |ps|), interruptAt), Speak(ps, numRounds, respond))
  {
    if |ps| >= 2 && numRounds >= 1 && interruptAt != Some(0) {
      var first := TurnEntry(ps, numRounds, respond, 0, seed);
      assert Schedule(seed, 0, Speak(ps, numRounds, respond)) == seed;
      outcome := Raised(MissingUpdateContext, seed + [first]);
    } else {
      var history := RunConversation(ps, numRounds, seed, respond, interruptAt);
      outcome := Returned(history);
    }
  }

  /** Where the source as written stops after one turn, the intended run
      takes every planned turn: at least two. */
  lemma IntendedRunTakesEveryTurn(numRounds: int, n: nat)
    requires n >= 2 && numRounds >= 1
    ensures TurnsTaken(PlannedTurns(numRounds, n), None) == numRounds * n >= 2
  {
    MulAtLeast(numRounds, n);
  }
}
