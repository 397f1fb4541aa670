/** One participant's turn (participant.py): the message list sent to the
    model, and the text made of the model's answer. */
module TurnContext {
  import opened Wrappers
  import opened Text
  import opened Config
  import opened Chat

  /** A conversation party. The profile may be absent (`None`) when the
      operator chose "No profile". */
  datatype Participant = Participant(model: ConfigValue, profile: Option<string>, topic: string, name: string)

  /** How an f-string renders the profile: an absent one reads "None". */
  function ProfileText(profile: Option<string>): string {
    match profile
    case Some(p) => p
    case None => "None"
  }

  const FinalTurnPrompt: string :=
    "This is your final turn in the conversation. Please share your concluding thoughts or final comments."

  const NextTurnPrompt: string := "Please provide your next response in the conversation."

  /** The trailing instruction of a turn's message list. */
  function TurnPrompt(isFinalRound: bool): (m: Message)
    ensures m.role == "user"
    ensures m.content == FinalTurnPrompt <==> isFinalRound
    ensures !isFinalRound ==> m.content == NextTurnPrompt
  {
    Message("user", if isFinalRound then FinalTurnPrompt else NextTurnPrompt)
  }

  const Introduction: string := "You are Participant "
  const AboutTopic: string := " in a conversation about "
  const ProfileLead: string := ". Your profile: "
  const StyleInstruction: string :=
    ". Keep your responses concise (2-3 sentences max). "
    + "Act naturally, you can change the topic, argue, or debate as you see fit. "
    + "This is a free-flowing conversation."

  /** Where the name, the topic and the profile sit in the assembled
      system prompt, whatever the fixed pieces between them hold. */
  lemma PromptSlots(named: string, about: string, topic: string, lead: string, profile: string, style: string)
    ensures StartsWith(named + about + topic + lead + profile + style, named)
    ensures InfixAt(topic, named + about + topic + lead + profile + style, |named| + |about|)
    ensures InfixAt(profile, named + about + topic + lead + profile + style, |named| + |about| + |topic| + |lead|)
  {
    var s := named + about + topic + lead + profile + style;
    var t := |named| + |about|;
    var o := t + |topic| + |lead|;
    assert s[..|named|] == named;
    assert s[t..t + |topic|] == topic;
    assert s[o..o + |profile|] == profile;
  }

  /** The one synthesized system message that opens every turn: it names the
      participant's number, topic and profile and asks for short, free-flowing
      replies. Python evaluates `name.split()[-1]`, which raises IndexError on
      a name made of whitespace only. */
  function SystemPrompt(p: Participant): (m: Message)
    requires !AllSpace(p.name)
    ensures m.role == "system"
    ensures StartsWith(m.content, Introduction + LastWord(p.name).value)
    ensures exists i :: InfixAt(p.topic, m.content, i)
    ensures exists i :: InfixAt(ProfileText(p.profile), m.content, i)
  {
    var named := Introduction + LastWord(p.name).value;
    var profile := ProfileText(p.profile);
    PromptSlots(named, AboutTopic, p.topic, ProfileLead, profile, StyleInstruction);
    Message("system", named + AboutTopic + p.topic + ProfileLead + profile + StyleInstruction)
  }

  /** How one shared-history entry is shown to participant `name`. */
  function Relabel(name: string, e: Message): Message {
    if e.role == "system" then e
    else if e.role == name then Message("assistant", e.content)
    else Message("user", e.role + ": " + e.content)
  }

  /** The history as `name` sees it. */
  function RelabelAll(name: string, history: seq<Message>): (r: seq<Message>)
    ensures |r| == |history|
    decreases |history|
  {
    if history == [] then []
    else RelabelAll(name, history[..|history| - 1]) + [Relabel(name, history[|history| - 1])]
  }

  /** One relabelled message per entry, in the same order. */
  lemma {:induction false} RelabelAllEach(name: string, history: seq<Message>)
    ensures forall i :: 0 <= i < |history| ==> RelabelAll(name, history)[i] == Relabel(name, history[i])
    decreases |history|
  {
    if history != [] {
      var front := history[..|history| - 1];
      RelabelAllEach(name, front);
      assert forall i :: 0 <= i < |front| ==> history[i] == front[i];
    }
  }

  /** The message list of `generate_response` (participant.py): one system
      message, the relabelled history in its original order, and one closing
      instruction that asks for concluding thoughts exactly on the final
      round. */
  function BuildMessages(p: Participant, history: seq<Message>, isFinalRound: bool): (r: seq<Message>)
    requires !AllSpace(p.name)
    ensures |r| == |history| + 2
    ensures r[0] == SystemPrompt(p)
    ensures r[|r| - 1].role == "user"
    ensures r[|r| - 1].content == FinalTurnPrompt <==> isFinalRound
    ensures !isFinalRound ==> r[|r| - 1].content == NextTurnPrompt
    ensures r[|r| - 1] == TurnPrompt(isFinalRound)
  {
    [SystemPrompt(p)] + RelabelAll(p.name, history) + [TurnPrompt(isFinalRound)]
  }

  /** What each history entry becomes: a system entry is passed through
      unchanged, the participant's own entry becomes the assistant's with the
      same content, and any other entry becomes the user's, prefixed with its
      author's name. The resulting role tells which kind of entry it was. */
  lemma BuildMessagesRelabels(p: Participant, history: seq<Message>, isFinalRound: bool, i: nat)
    requires !AllSpace(p.name)
    requires i < |history|
    ensures var r := BuildMessages(p, history, isFinalRound); var e := history[i];
      && (e.role == "system" ==> r[i + 1] == e)
      && (e.role != "system" && e.role == p.name ==> r[i + 1] == Message("assistant", e.content))
      && (e.role != "system" && e.role != p.name ==> r[i + 1] == Message("user", e.role + ": " + e.content))
      && (r[i + 1].role == "system" <==> e.role == "system")
      && (r[i + 1].role == "assistant" <==> e.role == p.name && p.name != "system")
  {
    var r := BuildMessages(p, history, isFinalRound);
    RelabelAllEach(p.name, history);
    assert r[i + 1] == RelabelAll(p.name, history)[i];
  }

  /** Every message sent carries one of the protocol's three roles. */
  lemma BuildMessagesUsesProtocolRoles(p: Participant, history: seq<Message>, isFinalRound: bool)
    requires !AllSpace(p.name)
    ensures var r := BuildMessages(p, history, isFinalRound);
      forall i :: 0 <= i < |r| ==> IsProtocolRole(r[i].role)
  {
    forall i | 0 <= i < |history| + 2
      ensures IsProtocolRole(BuildMessages(p, history, isFinalRound)[i].role)
    {
      ProtocolRoleAt(p, history, isFinalRound, i);
    }
  }

  lemma ProtocolRoleAt(p: Participant, history: seq<Message>, isFinalRound: bool, i: nat)
    requires !AllSpace(p.name)
    requires i < |history| + 2
    ensures IsProtocolRole(BuildMessages(p, history, isFinalRound)[i].role)
  {
    var r := BuildMessages(p, history, isFinalRound);
    if i == 0 {
      assert r[i].role == "system";
    } else if i == |history| + 1 {
      assert r[i].role == "user";
    } else {
      BuildMessagesRelabels(p, history, isFinalRound, i - 1);
    }
  }

  /** One more history entry adds exactly one message, its relabelling, just
      before the closing instruction; everything before it is unchanged. */
  lemma {:induction false} BuildMessagesAppend(p: Participant, history: seq<Message>, e: Message, isFinalRound: bool)
    requires !AllSpace(p.name)
    ensures BuildMessages(p, history + [e], isFinalRound)
         == BuildMessages(p, history, isFinalRound)[..|history| + 1] + [Relabel(p.name, e), TurnPrompt(isFinalRound)]
  {
    var h := history + [e];
    assert h[..|h| - 1] == history;
    assert RelabelAll(p.name, h) == RelabelAll(p.name, history) + [Relabel(p.name, e)];
    GrowMiddle(SystemPrompt(p), RelabelAll(p.name, history), Relabel(p.name, e), TurnPrompt(isFinalRound));
  }

  const TechnicalIssue: string := " is unable to respond at the moment due to a technical issue: "
  const UnexpectedStructure: string := " received an unexpected response structure."
  const PonderingSilently: string := " is pondering silently."

  /** The text `generate_response` returns for the model's answer: the
      stripped content, or one of three fallbacks naming the participant. A
      missing `content` field reads as the empty string. */
  function ReplyText(name: string, outcome: Outcome): (r: string)
    ensures r != []
    ensures outcome.Exception? ==> r == name + TechnicalIssue + outcome.error
    ensures outcome.NoMessage? ==> r == name + UnexpectedStructure
    ensures outcome.WithMessage? && AllSpace(outcome.content.GetOr("")) ==> r == name + PonderingSilently
    ensures outcome.WithMessage? && !AllSpace(outcome.content.GetOr("")) ==>
              r == Strip(outcome.content.value) && !IsSpace(r[0]) && !IsSpace(r[|r| - 1])
  {
    match outcome
    case Exception(e) => name + TechnicalIssue + e
    case NoMessage => name + UnexpectedStructure
    case WithMessage(content) =>
      var text := Strip(content.GetOr(""));
      if text == [] then name + PonderingSilently else text
  }

  /** `generate_response`: one request to the participant's model with the
      built message list, its answer turned into text. The result is never
      empty. */
  function GenerateResponse(p: Participant, history: seq<Message>, isFinalRound: bool, chat: Request -> Outcome): (r: string)
    requires !AllSpace(p.name)
    ensures r != []
  {
    ReplyText(p.name, chat(Request(p.model, BuildMessages(p, history, isFinalRound))))
  }
}
