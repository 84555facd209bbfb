/** The message list of the interview and the two views of it the script builds:
    the chat history handed to the language-model service on every answer, and
    the speaker-labelled turn list written into the exported report. */
module Transcript {
  import opened Wrappers
  import opened Text

  /** The three values the script stores under a message's "role" key. */
  datatype Role = System | Assistant | User

  /** One `{"role": ..., "content": ...}` entry of `st.session_state.messages`. */
  datatype Msg = Msg(role: Role, content: string)

  /** The role as the string the script stores and exports. */
  function RoleName(r: Role): (name: string)
    ensures ParseRole(name) == Some(r)
    ensures |name| > 0
  {
    match r
    case System => "system"
    case Assistant => "assistant"
    case User => "user"
  }

  /** Reads a stored role string back; anything else is not a role. */
  function ParseRole(name: string): Option<Role> {
    if name == "system" then Some(System)
    else if name == "assistant" then Some(Assistant)
    else if name == "user" then Some(User)
    else None
  }

  /** Python's `messages[1:]`: every turn after the persona turn. */
  function AfterPersona(ms: seq<Msg>): seq<Msg> {
    if |ms| == 0 then [] else ms[1..]
  }

  /** Python's `messages[1:-1]`: the turns between the persona and the newest one. */
  function BetweenPersonaAndNewest(ms: seq<Msg>): seq<Msg> {
    if |ms| < 2 then [] else ms[1..|ms| - 1]
  }

  /** The two roles of the service's chat history. */
  datatype ChatRole = UserSide | ModelSide

  /** The role string the service expects. */
  function ChatRoleName(c: ChatRole): string {
    match c
    case UserSide => "user"
    case ModelSide => "model"
  }

  /** One `{"role": ..., "parts": [content]}` entry of the chat history. */
  datatype HistoryEntry = HistoryEntry(role: ChatRole, parts: seq<string>)

  /** What one call of the multi-turn chat service receives. */
  datatype ChatRequest = ChatRequest(systemInstruction: string, history: seq<HistoryEntry>, newMessage: string)

  /** The history entry a turn contributes: user turns go to the user side,
      assistant turns to the model side, and any other turn is dropped. */
  function ToEntry(m: Msg): Option<HistoryEntry> {
    match m.role
    case User => Some(HistoryEntry(UserSide, [m.content]))
    case Assistant => Some(HistoryEntry(ModelSide, [m.content]))
    case System => None
  }

  /** The entry of a turn: none for a system turn; otherwise the content as
      the only part, under "user" for a user turn and "model" for an
      assistant turn. */
  lemma EntryOfTurn(m: Msg)
    ensures ToEntry(m).Some? <==> m.role != System
    ensures ToEntry(m).Some? ==>
              (ToEntry(m).value.parts == [m.content]
               && ChatRoleName(ToEntry(m).value.role) == (if m.role == User then "user" else "model"))
  {
  }

  /** Reference definition of the chat history built from a run of turns. */
  function History(ms: seq<Msg>): seq<HistoryEntry> {
    if |ms| == 0 then []
    else
      var h := History(ms[..|ms| - 1]);
      match ToEntry(ms[|ms| - 1])
      case Some(e) => h + [e]
      case None => h
  }

  /** The history loop of the send handler, written as the script writes it. */
  method BuildHistory(ms: seq<Msg>) returns (h: seq<HistoryEntry>)
    ensures h == History(ms)
  {
    h := [];
    var i := 0;
    while i < |ms|
      invariant 0 <= i <= |ms|
      invariant h == History(ms[..i])
    {
      assert ms[..i + 1][..i] == ms[..i];
      var m := ms[i];
      if m.role == User {
        h := h + [HistoryEntry(UserSide, [m.content])];
      } else if m.role == Assistant {
        h := h + [HistoryEntry(ModelSide, [m.content])];
      }
      i := i + 1;
    }
    assert ms[..|ms|] == ms;
  }

  /** No turn carries the system role. */
  predicate NoSystem(ms: seq<Msg>) {
    forall i :: 0 <= i < |ms| ==> ms[i].role != System
  }

  /** The history never has more entries than turns; on turns without a
      system turn it has one entry per turn, in order, with the role mapped
      user to "user" and assistant to "model" and the content kept. */
  lemma {:induction false} HistoryShape(ms: seq<Msg>)
    ensures |History(ms)| <= |ms|
    ensures NoSystem(ms) ==> |History(ms)| == |ms|
    ensures NoSystem(ms) ==> forall i :: 0 <= i < |ms| ==>
              History(ms)[i].parts == [ms[i].content]
              && (History(ms)[i].role == ModelSide <==> ms[i].role == Assistant)
  {
    if |ms| > 0 {
      var init := ms[..|ms| - 1];
      HistoryShape(init);
      if NoSystem(ms) {
        assert NoSystem(init) by {
          forall i | 0 <= i < |init|
            ensures init[i].role != System
          {
            assert init[i] == ms[i];
          }
        }
        assert ms[|ms| - 1].role != System;
      }
    }
  }

  /** A history built only from system turns is empty. */
  lemma {:induction false} HistoryOfSystemTurns(ms: seq<Msg>)
    requires forall i :: 0 <= i < |ms| ==> ms[i].role == System
    ensures History(ms) == []
  {
    if |ms| > 0 {
      HistoryOfSystemTurns(ms[..|ms| - 1]);
    }
  }

  /** The history of two runs of turns one after the other is the history
      of the first followed by that of the second. */
  lemma {:induction false} HistoryAppend(a: seq<Msg>, b: seq<Msg>)
    ensures History(a + b) == History(a) + History(b)
  {
    if |b| == 0 {
      assert a + b == a;
    } else {
      var init := b[..|b| - 1];
      assert (a + b)[..|a + b| - 1] == a + init;
      assert (a + b)[|a + b| - 1] == b[|b| - 1];
      HistoryAppend(a, init);
      match ToEntry(b[|b| - 1])
      case Some(e) =>
        assert History(a) + (History(init) + [e]) == (History(a) + History(init)) + [e];
      case None =>
    }
  }

  /** A turn that is neither a user nor an assistant turn contributes
      nothing, wherever it sits among the others. */
  lemma SystemTurnDropped(a: seq<Msg>, x: string, b: seq<Msg>)
    ensures History(a + [Msg(System, x)] + b) == History(a + b)
  {
    var sys := [Msg(System, x)];
    HistoryAppend(a + sys, b);
    HistoryAppend(a, sys);
    HistoryAppend(a, b);
    assert sys[..0] == [];
  }

  /** One entry of the exported "conversation" list. */
  datatype Utterance = Utterance(speaker: string, content: string)

  /** The exported "conversation": every turn after the persona, speaker and
      content, in order. */
  function Conversation(ms: seq<Msg>): (c: seq<Utterance>)
    ensures |c| == |AfterPersona(ms)|
  {
    var rest := AfterPersona(ms);
    seq(|rest|, i requires 0 <= i < |rest| => Utterance(RoleName(rest[i].role), rest[i].content))
  }

  /** Reads an exported conversation back into turns; fails on an unknown speaker. */
  function ReadConversation(c: seq<Utterance>): Option<seq<Msg>> {
    if |c| == 0 then Some([])
    else
      match ReadConversation(c[..|c| - 1])
      case None => None
      case Some(init) =>
        match ParseRole(c[|c| - 1].speaker)
        case None => None
        case Some(r) => Some(init + [Msg(r, c[|c| - 1].content)])
  }

  /** The export loses nothing: reading it back gives exactly `messages[1:]`. */
  lemma ConversationRoundTrip(ms: seq<Msg>)
    ensures ReadConversation(Conversation(ms)) == Some(AfterPersona(ms))
  {
    var rest := AfterPersona(ms);
    var c := Conversation(ms);
    var n := 0;
    while n < |c|
      invariant 0 <= n <= |c|
      invariant ReadConversation(c[..n]) == Some(rest[..n])
    {
      assert c[..n + 1][..n] == c[..n];
      assert rest[..n + 1] == rest[..n] + [Msg(rest[n].role, rest[n].content)];
      n := n + 1;
    }
    assert c[..|c|] == c;
    assert rest[..|rest|] == rest;
  }

  /** The label the feedback transcript puts in front of a turn: assistant
      turns are the interviewer, every other turn the candidate. */
  function Speaker(m: Msg): string {
    if m.role == Assistant then "Interviewer" else "Candidate"
  }

  /** One line of the feedback transcript. */
  function RenderLine(m: Msg): string {
    Speaker(m) + ": " + m.content
  }

  /** The lines of the feedback transcript, one per turn after the persona. */
  function RenderedLines(ms: seq<Msg>): (lines: seq<string>)
    ensures |lines| == |AfterPersona(ms)|
  {
    var rest := AfterPersona(ms);
    seq(|rest|, i requires 0 <= i < |rest| => RenderLine(rest[i]))
  }

  /** The transcript block of the feedback prompt: the lines joined by a blank line. */
  function FeedbackTranscript(ms: seq<Msg>): string {
    Join(RenderedLines(ms), "\n\n")
  }

  /** Every turn after the persona appears, labelled, in the transcript block. */
  lemma FeedbackTranscriptHoldsTurns(ms: seq<Msg>)
    ensures forall k :: 1 <= k < |ms| ==> Contains(FeedbackTranscript(ms), RenderLine(ms[k]))
  {
    var lines := RenderedLines(ms);
    JoinContainsParts(lines, "\n\n");
    assert forall k :: 1 <= k < |ms| ==> lines[k - 1] == RenderLine(ms[k]);
  }

  /** How many turns carry role `r`. */
  function CountRole(ms: seq<Msg>, r: Role): nat {
    if |ms| == 0 then 0
    else CountRole(ms[..|ms| - 1], r) + (if ms[|ms| - 1].role == r then 1 else 0)
  }

  /** How many lines start with `p`. */
  function CountStartingWith(lines: seq<string>, p: string): nat {
    if |lines| == 0 then 0
    else CountStartingWith(lines[..|lines| - 1], p) + (if StartsWith(lines[|lines| - 1], p) then 1 else 0)
  }

  /** A rendered line starts with "Interviewer: " exactly for an assistant turn
      and with "Candidate: " exactly for any other turn, whatever the content. */
  lemma LineLabel(m: Msg)
    ensures StartsWith(RenderLine(m), "Interviewer: ") <==> m.role == Assistant
    ensures StartsWith(RenderLine(m), "Candidate: ") <==> m.role != Assistant
  {
    var line := RenderLine(m);
    if m.role == Assistant {
      assert line[..13] == "Interviewer: ";
      assert line[0] == 'I';
    } else {
      assert line[..11] == "Candidate: ";
      assert line[0] == 'C';
    }
  }

  /** Lines labelled by a prefix, counted over a run of turns. */
  lemma {:induction false} CountLabels(rest: seq<Msg>)
    ensures CountStartingWith(seq(|rest|, i requires 0 <= i < |rest| => RenderLine(rest[i])), "Interviewer: ")
            == CountRole(rest, Assistant)
    ensures CountStartingWith(seq(|rest|, i requires 0 <= i < |rest| => RenderLine(rest[i])), "Candidate: ")
            == |rest| - CountRole(rest, Assistant)
  {
    if |rest| > 0 {
      var init := rest[..|rest| - 1];
      var lines := seq(|rest|, i requires 0 <= i < |rest| => RenderLine(rest[i]));
      assert lines[..|lines| - 1] == seq(|init|, i requires 0 <= i < |init| => RenderLine(init[i]));
      CountLabels(init);
      LineLabel(rest[|rest| - 1]);
      assert CountRole(init, Assistant) <= |init| by {
        CountRoleBound(init, Assistant);
      }
    }
  }

  /** No more turns carry a role than there are turns. */
  lemma {:induction false} CountRoleBound(ms: seq<Msg>, r: Role)
    ensures CountRole(ms, r) <= |ms|
  {
    if |ms| > 0 {
      CountRoleBound(ms[..|ms| - 1], r);
    }
  }

  /** The feedback transcript has one "Interviewer: " line per assistant turn
      after the persona and one "Candidate: " line per other turn. */
  lemma FeedbackLabels(ms: seq<Msg>)
    ensures CountStartingWith(RenderedLines(ms), "Interviewer: ") == CountRole(AfterPersona(ms), Assistant)
    ensures CountStartingWith(RenderedLines(ms), "Candidate: ")
            == |AfterPersona(ms)| - CountRole(AfterPersona(ms), Assistant)
  {
    CountLabels(AfterPersona(ms));
  }
}
