/** The moderator of moderator.py: it asks its model, once, for a topic or
    for a participant's profile, and falls back to a fixed text when the
    answer cannot be read. */
module Moderator {
  import opened Wrappers
  import opened Text
  import opened Config
  import opened Chat

  const TopicLead: string := "Based on these keywords: "
  const TopicTail: string :=
    ", generate an interesting conversation topic. Respond with just the topic in 1-2 sentences, nothing else."

  const ProfileLead: string := "For a conversation about '"
  const ProfileMiddle: string := "', create an interesting and unique profile or viewpoint for Participant "
  const ProfileTail: string :=
    ". The profile should be somewhat opinionated to encourage debate. "
    + "Respond with just the profile description in 1-2 sentences max, nothing else."

  const TopicFallback: string := "General Discussion"

  function ProfileFallback(participantNum: int): string {
    "Participant " + IntToString(participantNum) + " with a general interest in the topic"
  }

  /** The prompt of `generate_topic`: the keywords, joined by ", " in the
      order given, right after the fixed lead. */
  function TopicPrompt(keywords: seq<string>): (r: string)
    ensures StartsWith(r, TopicLead)
    ensures InfixAt(Join(", ", keywords), r, |TopicLead|)
  {
    var joined := Join(", ", keywords);
    OneSlot(TopicLead, joined, TopicTail);
    TopicLead + joined + TopicTail
  }

  /** Each keyword sits in the topic prompt, in order: keyword `i + 1` starts
      exactly one separator ", " after keyword `i` ends. */
  lemma TopicPromptListsKeywords(keywords: seq<string>, i: nat)
    requires i < |keywords|
    ensures InfixAt(keywords[i], TopicPrompt(keywords), |TopicLead| + JoinOffset(", ", keywords, i))
    ensures i + 1 < |keywords| ==>
      JoinOffset(", ", keywords, i + 1) == JoinOffset(", ", keywords, i) + |keywords[i]| + 2
  {
    JoinPlacesParts(", ", keywords, i);
    InfixWithin(keywords[i], Join(", ", keywords), TopicPrompt(keywords), JoinOffset(", ", keywords, i), |TopicLead|);
  }

  /** The prompt of `generate_profile`: the topic in single quotes and the
      participant's number. */
  function ProfilePrompt(topic: string, participantNum: int): (r: string)
    ensures StartsWith(r, ProfileLead)
    ensures InfixAt(topic, r, |ProfileLead|)
    ensures InfixAt(IntToString(participantNum), r, |ProfileLead| + |topic| + |ProfileMiddle|)
  {
    var num := IntToString(participantNum);
    TwoSlots(ProfileLead, topic, ProfileMiddle, num, ProfileTail);
    ProfileLead + topic + ProfileMiddle + num + ProfileTail
  }

  /** The one request a moderator call sends: the prompt as a single user
      message. */
  function PromptRequest(model: ConfigValue, prompt: string): Request {
    Request(model, [Message("user", prompt)])
  }

  /** One call's exchange: the requests it sent and the text it returned. */
  datatype Exchange = Exchange(requests: seq<Request>, text: string)

  /** The text of a moderator call for the service's answer: the stripped
      content when the answer has one; otherwise the call raised (the
      service failed, or `response['message']['content']` is missing) and
      the `except` branch returns the fallback. */
  function ReplyOrFallback(outcome: Outcome, fallback: string): (r: string)
    ensures !(outcome.WithMessage? && outcome.content.Some?) ==> r == fallback
    ensures outcome.WithMessage? && outcome.content.Some? ==>
              var content := outcome.content.value;
              && r == Strip(content)
              && (exists i :: InfixAt(r, content, i) && SpaceBetween(content, 0, i) && SpaceBetween(content, i + |r|, |content|))
              && (r == [] || (!IsSpace(r[0]) && !IsSpace(r[|r| - 1])))
    ensures r == [] && fallback != [] ==> outcome.WithMessage? && outcome.content.Some? && AllSpace(outcome.content.value)
  {
    match outcome
    case WithMessage(Some(content)) => Strip(content)
    case _ => fallback
  }

  /** Whatever the service answers, the text read from it has no whitespace
      at either end, so stripping it again changes nothing. */
  lemma ReplyIsStripped(outcome: Outcome, fallback: string)
    requires Strip(fallback) == fallback
    ensures Strip(ReplyOrFallback(outcome, fallback)) == ReplyOrFallback(outcome, fallback)
  {
    var r := ReplyOrFallback(outcome, fallback);
    if outcome.WithMessage? && outcome.content.Some? {
      StripNoEdgeSpace(r);
    }
  }

  /** The fallback is returned for every answer that has no content. */
  lemma FailureGivesFallback(outcome: Outcome, fallback: string)
    requires !(outcome.WithMessage? && outcome.content.Some?)
    ensures ReplyOrFallback(outcome, fallback) == fallback
  {
  }

  /** `generate_topic`: one request with the topic prompt, no retry; the
      stripped answer or "General Discussion". */
  function GenerateTopic(model: ConfigValue, keywords: seq<string>, chat: Request -> Outcome): (x: Exchange)
    ensures |x.requests| == 1
    ensures x.requests[0].model == model && |x.requests[0].messages| == 1
    ensures x.requests[0].messages[0] == Message("user", TopicPrompt(keywords))
    ensures var a := chat(x.requests[0]);
      a.WithMessage? && a.content.Some? ==> x.text == Strip(a.content.value)
    ensures var a := chat(x.requests[0]);
      !(a.WithMessage? && a.content.Some?) ==> x.text == TopicFallback
  {
    var q := PromptRequest(model, TopicPrompt(keywords));
    Exchange([q], ReplyOrFallback(chat(q), TopicFallback))
  }

  /** `generate_profile`: one request with the profile prompt, no retry; the
      stripped answer or the generic profile naming the participant. */
  function GenerateProfile(model: ConfigValue, topic: string, participantNum: int, chat: Request -> Outcome)
    : (x: Exchange)
    ensures |x.requests| == 1
    ensures x.requests[0].model == model && |x.requests[0].messages| == 1
    ensures x.requests[0].messages[0] == Message("user", ProfilePrompt(topic, participantNum))
    ensures var a := chat(x.requests[0]);
      a.WithMessage? && a.content.Some? ==> x.text == Strip(a.content.value)
    ensures var a := chat(x.requests[0]);
      !(a.WithMessage? && a.content.Some?) ==> x.text == ProfileFallback(participantNum)
  {
    var q := PromptRequest(model, ProfilePrompt(topic, participantNum));
    Exchange([q], ReplyOrFallback(chat(q), ProfileFallback(participantNum)))
  }

  /** A text that opens and closes with non-whitespace is its own strip,
      whatever sits in the middle. */
  lemma EdgesKept(lead: string, mid: string, tail: string)
    requires lead != [] && !IsSpace(lead[0])
    requires tail != [] && !IsSpace(tail[|tail| - 1])
    ensures Strip(lead + mid + tail) == lead + mid + tail
  {
    var s := lead + mid + tail;
    assert s[0] == lead[0] && s[|s| - 1] == tail[|tail| - 1];
    StripNoEdgeSpace(s);
  }

  /** A text that is the stripped content of an answer, or an already
      stripped fallback when the answer has none, is its own strip. */
  lemma StrippedOrFallback(text: string, answer: Outcome, fallback: string)
    requires Strip(fallback) == fallback
    requires answer.WithMessage? && answer.content.Some? ==> text == Strip(answer.content.value)
    requires !(answer.WithMessage? && answer.content.Some?) ==> text == fallback
    ensures Strip(text) == text
  {
    ReplyIsStripped(answer, fallback);
  }

  /** The topic handed out is free of surrounding whitespace. */
  lemma TopicTextStripped(model: ConfigValue, keywords: seq<string>, chat: Request -> Outcome)
    ensures Strip(GenerateTopic(model, keywords, chat).text) == GenerateTopic(model, keywords, chat).text
  {
    StripNoEdgeSpace(TopicFallback);
    var x := GenerateTopic(model, keywords, chat);
    StrippedOrFallback(x.text, chat(x.requests[0]), TopicFallback);
  }

  /** The profile handed out is free of surrounding whitespace. */
  lemma ProfileTextStripped(model: ConfigValue, topic: string, participantNum: int, chat: Request -> Outcome)
    ensures Strip(GenerateProfile(model, topic, participantNum, chat).text)
         == GenerateProfile(model, topic, participantNum, chat).text
  {
    EdgesKept("Participant ", IntToString(participantNum), " with a general interest in the topic");
    var y := GenerateProfile(model, topic, participantNum, chat);
    StrippedOrFallback(y.text, chat(y.requests[0]), ProfileFallback(participantNum));
  }

  /** Both fallbacks are already stripped, so every topic and profile the
      moderator hands out is free of surrounding whitespace. */
  lemma GeneratedTextsAreStripped(model: ConfigValue, keywords: seq<string>, topic: string, participantNum: int,
                                  chat: Request -> Outcome)
    ensures Strip(GenerateTopic(model, keywords, chat).text) == GenerateTopic(model, keywords, chat).text
    ensures Strip(GenerateProfile(model, topic, participantNum, chat).text)
         == GenerateProfile(model, topic, participantNum, chat).text
  {
    TopicTextStripped(model, keywords, chat);
    ProfileTextStripped(model, topic, participantNum, chat);
  }

  /** An answer whose content carries whitespace on either side, of any
      length, gives the same text as the bare content. */
  lemma PaddingIgnored(model: ConfigValue, keywords: seq<string>, lpad: string, content: string, rpad: string,
                       chat: Request -> Outcome)
    requires AllSpace(lpad) && AllSpace(rpad)
    requires content != [] && !IsSpace(content[0]) && !IsSpace(content[|content| - 1])
    requires chat(PromptRequest(model, TopicPrompt(keywords))) == WithMessage(Some(lpad + content + rpad))
    ensures GenerateTopic(model, keywords, chat).text == content
  {
    StripPadded(lpad, content, rpad);
  }

  /** Stripping removes exactly whitespace padding around edge-clean text. */
  lemma StripPadded(lpad: string, content: string, rpad: string)
    requires AllSpace(lpad) && AllSpace(rpad)
    requires content != [] && !IsSpace(content[0]) && !IsSpace(content[|content| - 1])
    ensures Strip(lpad + content + rpad) == content
  {
    var s := lpad + content + rpad;
    var hi := |lpad| + |content|;
    assert s[|lpad|] == content[0] && s[hi - 1] == content[|content| - 1];
    assert s[|lpad|..hi] == content;
    forall m | 0 <= m < |lpad|
      ensures IsSpace(s[m])
    {
      assert s[m] == lpad[m];
    }
    forall m | hi <= m < |s|
      ensures IsSpace(s[m])
    {
      assert s[m] == rpad[m - hi];
    }
    StripWindow(s, |lpad|, hi);
  }
}
