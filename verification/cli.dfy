/** The two pure rules of the terminal front end (cli.py): how an entry's
    content is shown, and how a validated number is asked for. */
module Cli {
  import opened Wrappers
  import opened Text
  import opened Chat

  /** The content `display_conversation` shows for a history entry. A
      participant's entry that starts with its own name and a colon is shown
      without that prefix, stripped; everything else is shown as stored. */
  function DisplayContent(e: Message): (r: string)
    ensures |r| <= |e.content|
    ensures e.role == "system" || !StartsWith(e.content, e.role + ":") ==> r == e.content
    ensures e.role != "system" && StartsWith(e.content, e.role + ":") ==>
              && r == Strip(e.content[|e.role| + 1..])
              && (r == [] || (!IsSpace(r[0]) && !IsSpace(r[|r| - 1])))
              && exists i :: InfixAt(r, e.content, i) && Padding(e.content, |e.role| + 1, i, i + |r|)
  {
    if e.role != "system" && StartsWith(e.content, e.role + ":") then
      StripOfTail(e.content, |e.role| + 1);
      Strip(e.content[|e.role| + 1..])
    else
      e.content
  }

  /** Only whitespace lies in `s[from..i]` and after `j`. */
  predicate Padding(s: string, from: nat, i: int, j: int) {
    from <= i <= j <= |s| && SpaceBetween(s, from, i) && SpaceBetween(s, j, |s|)
  }

  /** Stripping the tail `s[from..]` leaves a piece of `s` padded only by
      whitespace. */
  lemma StripOfTail(s: string, from: nat)
    requires from <= |s|
    ensures exists i :: InfixAt(Strip(s[from..]), s, i) && Padding(s, from, i, i + |Strip(s[from..])|)
  {
    var rest := s[from..];
    var r := Strip(rest);
    var i :| InfixAt(r, rest, i) && SpaceBetween(rest, 0, i) && SpaceBetween(rest, i + |r|, |rest|);
    PaddedInTail(s, from, r, i);
  }

  /** A piece of the tail `s[from..]` padded by whitespace there is padded
      by whitespace in `s`, from `from` on. */
  lemma PaddedInTail(s: string, from: nat, r: string, i: int)
    requires from <= |s|
    requires InfixAt(r, s[from..], i) && SpaceBetween(s[from..], 0, i) && SpaceBetween(s[from..], i + |r|, |s| - from)
    ensures InfixAt(r, s, from + i) && Padding(s, from, from + i, from + i + |r|)
  {
    var rest := s[from..];
    var a := from + i;
    assert s[a..a + |r|] == rest[i..i + |r|];
    forall m | from <= m < a
      ensures IsSpace(s[m])
    {
      assert s[m] == rest[m - from];
    }
    forall m | a + |r| <= m < |s|
      ensures IsSpace(s[m])
    {
      assert s[m] == rest[m - from];
    }
  }

  /** A participant's entry stored as "name: text", the form in which other
      participants are shown it, displays as the bare text. */
  lemma DisplayDropsOwnName(name: string, text: string)
    requires name != "system"
    requires text == [] || (!IsSpace(text[0]) && !IsSpace(text[|text| - 1]))
    ensures DisplayContent(Message(name, name + ": " + text)) == text
  {
    var content := name + ": " + text;
    assert content == (name + ":") + (" " + text);
    assert StartsWith(content, name + ":");
    assert content[|name| + 1..] == " " + text;
    StripAfterSpace(text);
  }

  /** A single leading blank before edge-clean text is stripped away. */
  lemma StripAfterSpace(text: string)
    requires text == [] || (!IsSpace(text[0]) && !IsSpace(text[|text| - 1]))
    ensures Strip(" " + text) == text
  {
    var s := " " + text;
    if text == [] {
      assert AllSpace(s);
    } else {
      assert s[1] == text[0] && s[|s| - 1] == text[|text| - 1];
      assert s[1..|s|] == text;
      StripWindow(s, 1, |s|);
    }
  }

  /** Content that does not start with the speaker's name and a colon is
      shown exactly as stored. */
  lemma DisplayKeepsUnprefixed(e: Message)
    requires !StartsWith(e.content, e.role + ":")
    ensures DisplayContent(e) == e.content
  {
  }

  /** `get_valid_input`: the operator's answers, in the order given, are
      checked by `validator` until one passes, and that one is returned.
      The prompt repeats for ever; here the answers are a finite list and
      `None` says that none of them passed. */
  method GetValidInput(answers: seq<int>, validator: int -> bool) returns (r: Option<int>, used: nat)
    ensures used <= |answers|
    ensures r.Some? ==> 0 < used && r.value == answers[used - 1] && validator(r.value)
    ensures forall j :: 0 <= j < |answers| && (r.None? || j < used - 1) ==> !validator(answers[j])
    ensures r.None? ==> used == |answers|
  {
    used := 0;
    while used < |answers|
      invariant used <= |answers|
      invariant forall j :: 0 <= j < used ==> !validator(answers[j])
    {
      var value := answers[used];
      used := used + 1;
      if validator(value) {
        return Some(value), used;
      }
    }
    return None, used;
  }

  /** The participant-count check: at least two. */
  predicate ValidParticipantCount(x: int) {
    x >= 2
  }

  /** The round-count check: at least one. */
  predicate ValidRoundCount(x: int) {
    x >= 1
  }

  /** The first answer of at least two is taken as the participant count. */
  method AskParticipantCount(answers: seq<int>) returns (r: Option<int>)
    ensures r.Some? ==> r.value >= 2 && r.value in answers
    ensures r.None? <==> forall j :: 0 <= j < |answers| ==> answers[j] < 2
    ensures r.Some? ==>
              exists u :: 0 <= u < |answers| && r.value == answers[u] && forall j :: 0 <= j < u ==> answers[j] < 2
  {
    var used;
    r, used := GetValidInput(answers, ValidParticipantCount);
    if r.Some? {
      assert r.value == answers[used - 1];
    }
  }

  /** The first answer of at least one is taken as the round count. */
  method AskRoundCount(answers: seq<int>) returns (r: Option<int>)
    ensures r.Some? ==> r.value >= 1 && r.value in answers
    ensures r.None? <==> forall j :: 0 <= j < |answers| ==> answers[j] < 1
    ensures r.Some? ==>
              exists u :: 0 <= u < |answers| && r.value == answers[u] && forall j :: 0 <= j < u ==> answers[j] < 1
  {
    var used;
    r, used := GetValidInput(answers, ValidRoundCount);
    if r.Some? {
      assert r.value == answers[used - 1];
    }
  }
}
