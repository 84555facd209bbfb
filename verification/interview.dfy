/** The interview session held in the page's session state, and every button
    press that changes it: storing the API key, the voice toggle, Start,
    Send (with the service's answer as a parameter), End and Reset. */
module Interview {
  import opened Wrappers
  import opened Text
  import opened Transcript

  /** The persona instruction. Its wording is not modelled: only where it goes. */
  const SystemPrompt: string

  /** The role choices of the setup page's select box. */
  const RoleOptions: seq<string> := [
    "Software Engineer", "Data Scientist", "Product Manager", "Sales Representative",
    "Marketing Manager", "Retail Associate", "Customer Service", "DevOps Engineer",
    "UI/UX Designer", "Business Analyst"
  ]

  /** The experience choices of the setup page's radio group. */
  const ExperienceOptions: seq<string> := [
    "Entry Level (0-2 years)", "Mid Level (3-5 years)", "Senior Level (5+ years)"
  ]

  /** The optional focus areas of the setup page's multi-select. */
  const FocusOptions: seq<string> := [
    "Technical Skills", "Behavioral Questions", "Problem Solving", "Leadership",
    "Communication", "Past Projects"
  ]

  /** A point in time, in microseconds; the clock itself is not modelled. */
  type Timestamp = int

  /** The page's session state. `role` and `experience` are absent until the
      first Start, as the script never initialises them. */
  datatype Session = Session(
    messages: seq<Msg>,
    interviewActive: bool,
    interviewEnded: bool,
    apiKey: string,
    questionCount: int,
    startTime: Option<Timestamp>,
    useVoice: bool,
    userResponse: string,
    role: Option<string>,
    experience: Option<string>)

  /** The page shown, read off the two flags the way the script tests them. */
  datatype Phase = Setup | Active | Ended

  function PhaseOf(s: Session): Phase {
    if s.interviewEnded then Ended
    else if s.interviewActive then Active
    else Setup
  }

  /** The session as the first run of the script creates it. */
  function Init(): Session {
    Session([], false, false, "", 0, None, false, "", None, None)
  }

  /** The API-key field: a non-empty entry replaces the stored key, an empty
      one leaves it as it was. */
  function StoreApiKey(s: Session, input: string): (r: Session)
    ensures input != "" ==> r.apiKey == input
    ensures input == "" ==> r == s
    ensures r.(apiKey := s.apiKey) == s
  {
    if input != "" then s.(apiKey := input) else s
  }

  /** The voice checkbox: its value is copied into the session on every run. */
  function SetVoice(s: Session, on: bool): (r: Session)
    ensures r.useVoice == on && r.(useVoice := s.useVoice) == s
  {
    s.(useVoice := on)
  }

  /** The focus line appended to the persona and the greeting: empty without
      focus areas, otherwise a new line and the areas joined by ", ". */
  function FocusText(focus: seq<string>): (r: string)
    ensures r == "" <==> |focus| == 0
    ensures |focus| > 0 ==> StartsWith(r, "\nFocus on: ")
    ensures forall k :: 0 <= k < |focus| ==> Contains(r, focus[k])
  {
    if |focus| == 0 then ""
    else
      JoinContainsParts(focus, ", ");
      forall k | 0 <= k < |focus|
        ensures Contains("\nFocus on: " + Join(focus, ", "), focus[k])
      {
        ContainsAfter("\nFocus on: ", Join(focus, ", "), focus[k]);
      }
      "\nFocus on: " + Join(focus, ", ")
  }

  /** The persona turn's content: the instruction, then the role, the
      experience level and the focus line. */
  function PersonaContent(role: string, experience: string, focus: seq<string>): string {
    SystemPrompt + "\n\nRole: " + role + "\nExperience: " + experience + FocusText(focus)
  }

  /** The persona opens with the instruction and names the role, the
      experience level and every focus area; without focus areas it ends on
      the experience level. */
  lemma PersonaNamesSelection(role: string, experience: string, focus: seq<string>)
    ensures var p := PersonaContent(role, experience, focus);
            && StartsWith(p, SystemPrompt)
            && Contains(p, role) && Contains(p, experience)
            && (forall k :: 0 <= k < |focus| ==> Contains(p, focus[k]))
            && (|focus| == 0 ==> p[|p| - |experience|..] == experience)
  {
    Fields(SystemPrompt, "\n\nRole: ", role, "\nExperience: ", experience, FocusText(focus));
  }

  /** The fixed pieces of the interviewer's opening turn. */
  const GreetingHeader: string := "Starting mock interview for: "
  const GreetingHello: string := "\n\nHello! I'm excited to interview you today for the "
  const GreetingQuestion: string :=
    " position. \n\nLet's start with a warm-up question: "
    + "**Tell me about yourself and why you're interested in this role.**\n\n"
    + "Take your time, and feel free to ask if you need clarification on any question."

  /** The interviewer's opening turn: the role and level, the focus line, a
      welcome naming the role again, and the fixed warm-up question. */
  function Greeting(role: string, experience: string, focus: seq<string>): (g: string)
    ensures StartsWith(g, GreetingHeader + role + " (" + experience + ")\n")
    ensures EndsWith(g, GreetingHello + role + GreetingQuestion)
    ensures forall k :: 0 <= k < |focus| ==> Contains(g, focus[k])
  {
    var head := GreetingHeader + role + " (" + experience + ")\n";
    var tail := GreetingHello + role + GreetingQuestion;
    Framed(head, FocusText(focus), tail);
    head + FocusText(focus) + tail
  }

  /** The Start button: the transcript becomes the persona turn and the
      greeting, the interview becomes active, the clock starts and one
      question counts as asked. The ended flag, key, voice setting and pending
      answer are left alone. */
  function Start(s: Session, role: string, experience: string, focus: seq<string>, now: Timestamp): (r: Session)
    ensures |r.messages| == 2
    ensures r.messages[0].role == System && r.messages[1].role == Assistant
    ensures StartsWith(r.messages[0].content, SystemPrompt)
    ensures Contains(r.messages[0].content, role) && Contains(r.messages[0].content, experience)
    ensures StartsWith(r.messages[1].content, GreetingHeader + role + " (" + experience + ")\n")
    ensures EndsWith(r.messages[1].content, GreetingHello + role + GreetingQuestion)
    ensures forall k :: 0 <= k < |focus| ==>
              Contains(r.messages[0].content, focus[k]) && Contains(r.messages[1].content, focus[k])
    ensures r.interviewActive && r.interviewEnded == s.interviewEnded
    ensures r.questionCount == 1 && r.startTime == Some(now)
    ensures r.role == Some(role) && r.experience == Some(experience)
    ensures r.apiKey == s.apiKey && r.useVoice == s.useVoice && r.userResponse == s.userResponse
  {
    PersonaNamesSelection(role, experience, focus);
    s.(messages := [Msg(System, PersonaContent(role, experience, focus)), Msg(Assistant, Greeting(role, experience, focus))],
       interviewActive := true,
       startTime := Some(now),
       role := Some(role),
       experience := Some(experience),
       questionCount := 1)
  }

  /** What the chat service did with a request: a reply, or the text of the
      exception it raised. */
  datatype Outcome = Success(reply: string) | Failure(errorText: string)

  /** The error message shown after a failed call. */
  datatype Notice = QuotaExceeded | GenericError(detail: string)

  /** The failure classification: a quota notice when the lower-cased error
      text mentions "quota", the error text itself otherwise. */
  function Classify(errorText: string): (n: Notice)
    ensures n == QuotaExceeded <==> exists i :: 0 <= i <= |errorText| && OccursIgnoringCaseAt(errorText, "quota", "QUOTA", i)
    ensures n != QuotaExceeded ==> n == GenericError(errorText)
  {
    QuotaIgnoringCase(errorText);
    if Contains(Lower(errorText), "quota") then QuotaExceeded else GenericError(errorText)
  }

  /** The reply heuristic: a reply asks a question when it holds a '?'. */
  predicate AsksQuestion(reply: string) {
    '?' in reply
  }

  /** The request the send handler makes once the answer is appended to the
      prior turns: the first turn becomes the system instruction, the turns
      between it and the answer become the history, and the answer is sent as
      the new message. With no prior turns the answer itself would be the
      instruction. */
  function RequestFor(prior: seq<Msg>, answer: string): (req: ChatRequest)
    ensures req.newMessage == answer
    ensures |req.history| <= |AfterPersona(prior)|
    ensures |prior| > 0 ==> req.systemInstruction == prior[0].content
                            && req.history == History(AfterPersona(prior))
    ensures |prior| == 0 ==> req.systemInstruction == answer && req.history == []
  {
    var pending := prior + [Msg(User, answer)];
    assert |prior| > 0 ==> BetweenPersonaAndNewest(pending) == AfterPersona(prior);
    HistoryShape(BetweenPersonaAndNewest(pending));
    ChatRequest(pending[0].content, History(BetweenPersonaAndNewest(pending)), answer)
  }

  /** What one press of Send produces: the new session, the request sent to the
      service (if any) and the error shown (if any). */
  datatype SendResult = SendResult(session: Session, request: Option<ChatRequest>, notice: Option<Notice>)

  /** Two sessions agree on everything but the transcript, the counter and
      the pending answer. */
  predicate SameSetup(a: Session, b: Session) {
    a.(messages := b.messages, questionCount := b.questionCount, userResponse := b.userResponse) == b
  }

  /** The session once the answer is appended and the pending text cleared. */
  function Optimistic(s: Session, answer: string): Session {
    s.(messages := s.messages + [Msg(User, answer)], userResponse := "")
  }

  /** The session after the service answered: the reply is appended (bumping
      the counter when it asks a question), or the appended answer is removed
      again. */
  function Settle(pending: Session, outcome: Outcome): Session
    requires |pending.messages| > 0
  {
    match outcome
    case Success(reply) =>
      var count := if AsksQuestion(reply) then pending.questionCount + 1 else pending.questionCount;
      pending.(messages := pending.messages + [Msg(Assistant, reply)], questionCount := count)
    case Failure(_) =>
      pending.(messages := pending.messages[..|pending.messages| - 1])
  }

  /** The Send button. A white-space-only answer does nothing and calls
      nothing. Otherwise the answer is appended and the pending text cleared
      before the service is called; a reply is appended as an assistant turn
      and bumps the question count when it holds a '?'; a failure removes the
      answer again and shows a classified notice. */
  function Send(s: Session, answer: string, outcome: Outcome): (r: SendResult)
    ensures Blank(answer) ==> r == SendResult(s, None, None)
    ensures !Blank(answer) ==> r.request == Some(RequestFor(s.messages, answer)) && r.session.userResponse == ""
    ensures !Blank(answer) && outcome.Success? ==>
              && r.session.messages == s.messages + [Msg(User, answer), Msg(Assistant, outcome.reply)]
              && r.session.questionCount == (if AsksQuestion(outcome.reply) then s.questionCount + 1 else s.questionCount)
              && r.notice == None
    ensures !Blank(answer) && outcome.Failure? ==>
              && r.session.messages == s.messages
              && r.session.questionCount == s.questionCount
              && r.notice == Some(Classify(outcome.errorText))
    ensures SameSetup(r.session, s)
  {
    StripEmptyIffBlank(answer);
    if Strip(answer) == [] then SendResult(s, None, None)
    else
      var pending := Optimistic(s, answer);
      assert pending.messages[..|pending.messages| - 1] == s.messages;
      var notice := if outcome.Failure? then Some(Classify(outcome.errorText)) else None;
      SendResult(Settle(pending, outcome), Some(RequestFor(s.messages, answer)), notice)
  }

  /** The End button: only the ended flag is set, so pressing it again changes nothing. */
  function End(s: Session): (r: Session)
    ensures r.interviewEnded && PhaseOf(r) == Ended
    ensures r.(interviewEnded := s.interviewEnded) == s
  {
    s.(interviewEnded := true)
  }

  /** The Reset button: transcript, flags, counter, clock and pending answer go
      back to their initial values; the key, the voice setting and the last
      role and experience are kept. */
  function Reset(s: Session): (r: Session)
    ensures r == Init().(apiKey := s.apiKey, useVoice := s.useVoice, role := s.role, experience := s.experience)
    ensures PhaseOf(r) == Setup
  {
    s.(messages := [], interviewActive := false, interviewEnded := false,
       questionCount := 0, startTime := None, userResponse := "")
  }

  /** One user action on the page. */
  datatype Event =
    | KeyEntered(text: string)
    | VoiceToggled(on: bool)
    | StartPressed(role: string, experience: string, focus: seq<string>, now: Timestamp)
    | SendPressed(answer: string, outcome: Outcome)
    | EndPressed
    | ResetPressed

  /** Whether the page shows the control behind an event. The key field and the
      voice box are always there; End shows while the active flag is set and
      Reset while either flag is; Start and Send sit behind the key check and
      show on the setup and interview pages respectively. */
  predicate Offered(s: Session, e: Event) {
    match e
    case KeyEntered(_) => true
    case VoiceToggled(_) => true
    case StartPressed(_, _, _, _) => s.apiKey != "" && PhaseOf(s) == Setup
    case SendPressed(_, _) => s.apiKey != "" && PhaseOf(s) == Active
    case EndPressed => s.interviewActive
    case ResetPressed => s.interviewActive || s.interviewEnded
  }

  /** The effect of an event; a control that is not shown cannot be pressed,
      so its event leaves the session alone and calls nothing. */
  function Step(s: Session, e: Event): (r: SendResult)
    ensures !Offered(s, e) ==> r == SendResult(s, None, None)
    ensures r.request.Some? ==> e.SendPressed? && s.apiKey != "" && PhaseOf(s) == Active
    ensures s.apiKey == "" && (e.StartPressed? || e.SendPressed?) ==> r == SendResult(s, None, None)
  {
    if !Offered(s, e) then SendResult(s, None, None)
    else
      match e
      case KeyEntered(text) => SendResult(StoreApiKey(s, text), None, None)
      case VoiceToggled(on) => SendResult(SetVoice(s, on), None, None)
      case StartPressed(role, experience, focus, now) => SendResult(Start(s, role, experience, focus, now), None, None)
      case SendPressed(answer, outcome) => Send(s, answer, outcome)
      case EndPressed => SendResult(End(s), None, None)
      case ResetPressed => SendResult(Reset(s), None, None)
  }

  /** The session after a sequence of events. */
  function Run(s: Session, events: seq<Event>): Session {
    if |events| == 0 then s
    else Step(Run(s, events[..|events| - 1]), events[|events| - 1]).session
  }

  /** Replies after the greeting that ask a question. */
  function QuestionsAsked(ms: seq<Msg>): nat {
    if |ms| == 0 then 0
    else
      var last := ms[|ms| - 1];
      QuestionsAsked(ms[..|ms| - 1]) + (if last.role == Assistant && AsksQuestion(last.content) then 1 else 0)
  }

  /** The turns after the persona alternate assistant, user, assistant, ...,
      and end on an assistant turn. */
  predicate Alternates(ms: seq<Msg>) {
    && |ms| >= 2 && |ms| % 2 == 0
    && ms[0].role == System
    && forall i :: 1 <= i < |ms| ==> ms[i].role == (if i % 2 == 1 then Assistant else User)
  }

  /** What holds of every session the page can reach. On the setup page
      nothing is recorded yet. Once started, the persona opens an alternating
      transcript, the counter is one for the greeting plus one per questioning
      reply, and role, experience and start time are set. The ended flag is
      only ever set on top of the active flag. */
  predicate Valid(s: Session) {
    && (s.interviewEnded ==> s.interviewActive)
    && s.userResponse == ""
    && (!s.interviewActive ==> s.messages == [] && s.questionCount == 0 && s.startTime == None)
    && (s.interviewActive ==>
          && Alternates(s.messages)
          && s.questionCount == 1 + QuestionsAsked(s.messages[2..])
          && s.startTime.Some? && s.role.Some? && s.experience.Some?)
  }

  lemma InitValid()
    ensures Valid(Init()) && PhaseOf(Init()) == Setup
  {
  }

  /** Appending an answer and a reply extends the count of questioning replies
      by the reply alone. */
  lemma QuestionsAskedAppend(ms: seq<Msg>, answer: Msg, reply: Msg)
    requires answer.role == User && reply.role == Assistant
    ensures QuestionsAsked(ms + [answer, reply])
            == QuestionsAsked(ms) + (if AsksQuestion(reply.content) then 1 else 0)
  {
    assert (ms + [answer, reply])[..|ms| + 1] == ms + [answer];
    assert (ms + [answer])[..|ms|] == ms;
  }

  /** Appending an answer and its reply to a started interview keeps the
      transcript alternating and the counter in step with the replies. */
  lemma ExchangeKeepsValid(s: Session, t: Session, answer: string, reply: string)
    requires Valid(s) && s.interviewActive
    requires t.messages == s.messages + [Msg(User, answer), Msg(Assistant, reply)]
    requires t.questionCount == (if AsksQuestion(reply) then s.questionCount + 1 else s.questionCount)
    requires t.userResponse == "" && t.interviewActive && t.interviewEnded == s.interviewEnded
    requires t.startTime == s.startTime && t.role == s.role && t.experience == s.experience
    ensures Valid(t)
  {
    var ms := s.messages;
    var u := Msg(User, answer);
    var a := Msg(Assistant, reply);
    assert t.messages[2..] == ms[2..] + [u, a];
    QuestionsAskedAppend(ms[2..], u, a);
    AlternatesAppend(ms, u, a);
  }

  /** An answer and a reply appended to an alternating transcript keep it alternating. */
  lemma AlternatesAppend(ms: seq<Msg>, u: Msg, a: Msg)
    requires Alternates(ms) && u.role == User && a.role == Assistant
    ensures Alternates(ms + [u, a])
  {
    var t := ms + [u, a];
    forall i | 1 <= i < |t|
      ensures t[i].role == (if i % 2 == 1 then Assistant else User)
    {
      if i < |ms| {
        assert t[i] == ms[i];
      }
    }
  }

  /** Every press of Send on the interview page keeps the session valid and
      on that page. */
  lemma SendKeepsValid(s: Session, answer: string, outcome: Outcome)
    requires Valid(s) && PhaseOf(s) == Active
    ensures Valid(Send(s, answer, outcome).session)
    ensures PhaseOf(Send(s, answer, outcome).session) == Active
  {
    var r := Send(s, answer, outcome).session;
    if !Blank(answer) && outcome.Success? {
      ExchangeKeepsValid(s, r, answer, outcome.reply);
    }
  }

  /** Start from the setup page opens a valid interview. */
  lemma StartKeepsValid(s: Session, role: string, experience: string, focus: seq<string>, now: Timestamp)
    requires Valid(s) && PhaseOf(s) == Setup
    ensures Valid(Start(s, role, experience, focus, now))
  {
    var t := Start(s, role, experience, focus, now);
    assert t.messages[2..] == [];
  }

  /** The settings controls, End and Reset keep the session valid. */
  lemma ControlStepKeepsValid(s: Session, e: Event)
    requires Valid(s) && (e.KeyEntered? || e.VoiceToggled? || e.EndPressed? || e.ResetPressed?)
    ensures Valid(Step(s, e).session)
  {
  }

  /** Start keeps the session valid. */
  lemma StartStepKeepsValid(s: Session, e: Event)
    requires Valid(s) && e.StartPressed?
    ensures Valid(Step(s, e).session)
  {
    if Offered(s, e) {
      StartKeepsValid(s, e.role, e.experience, e.focus, e.now);
    }
  }

  /** Send keeps the session valid. */
  lemma SendStepKeepsValid(s: Session, e: Event)
    requires Valid(s) && e.SendPressed?
    ensures Valid(Step(s, e).session)
  {
    if Offered(s, e) {
      SendKeepsValid(s, e.answer, e.outcome);
    }
  }

  /** Every event keeps the session valid. */
  lemma StepKeepsValid(s: Session, e: Event)
    requires Valid(s)
    ensures Valid(Step(s, e).session)
  {
    if e.StartPressed? {
      StartStepKeepsValid(s, e);
    } else if e.SendPressed? {
      SendStepKeepsValid(s, e);
    } else {
      ControlStepKeepsValid(s, e);
    }
  }

  /** Any run of page events from a valid session ends in a valid session. */
  lemma {:induction false} RunKeepsValid(s: Session, events: seq<Event>)
    requires Valid(s)
    ensures Valid(Run(s, events))
  {
    if |events| > 0 {
      RunKeepsValid(s, events[..|events| - 1]);
      StepKeepsValid(Run(s, events[..|events| - 1]), events[|events| - 1]);
    }
  }

  /** Every session the page can reach from a fresh one is valid. */
  lemma ReachableValid(events: seq<Event>)
    ensures Valid(Run(Init(), events))
  {
    InitValid();
    RunKeepsValid(Init(), events);
  }

  /** The question counter moves only forward, except through Reset: Start
      raises it from zero to one and a reply raises it by at most one. */
  lemma StepCountMonotone(s: Session, e: Event)
    requires Valid(s) && !e.ResetPressed?
    ensures s.questionCount <= Step(s, e).session.questionCount <= s.questionCount + 1
  {
  }

  /** Once stored, the key is never cleared again. */
  lemma StepKeepsKey(s: Session, e: Event)
    requires s.apiKey != ""
    ensures Step(s, e).session.apiKey != ""
  {
  }

  /** Among turns alternating user, assistant, ... with even length, half are
      assistant turns and the questioning replies are among them. */
  lemma {:induction false} PairsCount(ms: seq<Msg>)
    requires |ms| % 2 == 0
    requires forall i :: 0 <= i < |ms| ==> ms[i].role == (if i % 2 == 0 then User else Assistant)
    ensures CountRole(ms, Assistant) == |ms| / 2
    ensures QuestionsAsked(ms) <= |ms| / 2
  {
    if |ms| > 0 {
      var init := ms[..|ms| - 2];
      assert ms[..|ms| - 1][..|ms| - 2] == init;
      PairsCount(init);
    }
  }

  /** In a started interview the counter is between one and the number of
      interviewer turns. */
  lemma QuestionCountBound(s: Session)
    requires Valid(s) && s.interviewActive
    ensures 1 <= s.questionCount <= |s.messages| / 2
  {
    var rest := s.messages[2..];
    assert forall i :: 0 <= i < |rest| ==> rest[i] == s.messages[i + 2];
    PairsCount(rest);
  }

  /** The history sent with an answer from a valid interview is all the turns
      after the persona, in order, mapped to alternating model and user
      entries that start and end on the model side; the persona is the
      system instruction. */
  lemma ValidHistory(s: Session, answer: string)
    requires Valid(s) && s.interviewActive
    ensures var req := RequestFor(s.messages, answer);
            && req.systemInstruction == s.messages[0].content
            && |req.history| == |s.messages| - 1
            && (forall i :: 0 <= i < |req.history| ==>
                  req.history[i].parts == [s.messages[i + 1].content]
                  && req.history[i].role == (if i % 2 == 0 then ModelSide else UserSide))
            && req.history[|req.history| - 1].role == ModelSide
  {
    var rest := AfterPersona(s.messages);
    assert forall i :: 0 <= i < |rest| ==> rest[i] == s.messages[i + 1];
    HistoryShape(rest);
  }

  /** A press of Send with a real answer on the interview page that the
      service answers: the answer and the reply are appended, the counter
      follows the reply, and the session stays on the interview page. */
  lemma SendStepSuccess(s: Session, answer: string, reply: string)
    requires PhaseOf(s) == Active && s.apiKey != "" && !Blank(answer)
    ensures var t := Step(s, SendPressed(answer, Success(reply))).session;
            && PhaseOf(t) == Active && t.apiKey == s.apiKey
            && t.messages == s.messages + [Msg(User, answer), Msg(Assistant, reply)]
            && t.questionCount == (if AsksQuestion(reply) then s.questionCount + 1 else s.questionCount)
  {
  }

  /** An answered question: what the candidate typed and what the service replied. */
  datatype Exchange = Exchange(answer: string, reply: string)

  /** The Send presses of a run of answered questions. */
  function SendEvents(xs: seq<Exchange>): (evs: seq<Event>)
    ensures |evs| == |xs|
    ensures forall k :: 0 <= k < |xs| ==> evs[k] == SendPressed(xs[k].answer, Success(xs[k].reply))
  {
    seq(|xs|, k requires 0 <= k < |xs| => SendPressed(xs[k].answer, Success(xs[k].reply)))
  }

  /** The turns a run of answered questions adds: answer, reply, answer, reply, ... */
  function Turns(xs: seq<Exchange>): (ms: seq<Msg>)
    ensures |ms| == 2 * |xs|
    ensures forall k :: 0 <= k < |xs| ==>
              ms[2 * k] == Msg(User, xs[k].answer) && ms[2 * k + 1] == Msg(Assistant, xs[k].reply)
  {
    if |xs| == 0 then []
    else
      var init := Turns(xs[..|xs| - 1]);
      var x := xs[|xs| - 1];
      var ms := init + [Msg(User, x.answer), Msg(Assistant, x.reply)];
      assert forall k :: 0 <= k < |xs| - 1 ==> xs[..|xs| - 1][k] == xs[k] && ms[2 * k] == init[2 * k] && ms[2 * k + 1] == init[2 * k + 1];
      ms
  }

  /** Running events one after another is running their concatenation. */
  lemma {:induction false} RunAppend(s: Session, a: seq<Event>, b: seq<Event>)
    ensures Run(s, a + b) == Run(Run(s, a), b)
  {
    if |b| == 0 {
      assert a + b == a;
    } else {
      assert (a + b)[..|a + b| - 1] == a + b[..|b| - 1];
      RunAppend(s, a, b[..|b| - 1]);
    }
  }

  /** Start pressed on the setup page opens a valid interview. */
  lemma StartRun(s: Session, start: Event)
    requires Valid(s) && PhaseOf(s) == Setup && s.apiKey != "" && start.StartPressed?
    ensures var t := Run(s, [start]);
            && Valid(t) && PhaseOf(t) == Active && t.apiKey == s.apiKey
            && t.messages == Start(s, start.role, start.experience, start.focus, start.now).messages
  {
    assert [start][..0] == [];
    StartKeepsValid(s, start.role, start.experience, start.focus, start.now);
  }

  /** The session after the Send presses of a run of answered questions. */
  function Sends(s: Session, xs: seq<Exchange>): Session {
    if |xs| == 0 then s
    else Step(Sends(s, xs[..|xs| - 1]), SendPressed(xs[|xs| - 1].answer, Success(xs[|xs| - 1].reply))).session
  }

  /** Running the Send events of answered questions is pressing Send for each in turn. */
  lemma {:induction false} RunSendEvents(s: Session, xs: seq<Exchange>)
    ensures Run(s, SendEvents(xs)) == Sends(s, xs)
  {
    if |xs| > 0 {
      RunSendEvents(s, xs[..|xs| - 1]);
      assert SendEvents(xs)[..|xs| - 1] == SendEvents(xs[..|xs| - 1]);
    }
  }

  /** Answered questions on the interview page append their turns and nothing
      else, and keep the session on that page with its key. */
  lemma {:induction false} ExchangesAppendTurns(s: Session, xs: seq<Exchange>)
    requires PhaseOf(s) == Active && s.apiKey != ""
    requires forall k :: 0 <= k < |xs| ==> !Blank(xs[k].answer)
    ensures var t := Sends(s, xs);
            && PhaseOf(t) == Active && t.apiKey == s.apiKey
            && t.messages == s.messages + Turns(xs)
  {
    if |xs| > 0 {
      var init := xs[..|xs| - 1];
      var x := xs[|xs| - 1];
      ExchangesAppendTurns(s, init);
      assert init + [x] == xs;
      SendStepSuccess(Sends(s, init), x.answer, x.reply);
      TurnsAppend(s.messages, init, x);
    }
  }

  /** One more answered question adds its answer and reply after the turns
      of the earlier ones. */
  lemma TurnsAppend(ms: seq<Msg>, init: seq<Exchange>, x: Exchange)
    ensures ms + Turns(init + [x]) == (ms + Turns(init)) + [Msg(User, x.answer), Msg(Assistant, x.reply)]
  {
    assert (init + [x])[..|init|] == init;
  }

  /** After Start and N answered questions the transcript holds the persona,
      the greeting and N answer-reply pairs: 2 + 2N turns, alternating after
      the persona. */
  lemma ExchangesGrowTranscript(s: Session, role: string, experience: string,
                                focus: seq<string>, now: Timestamp, xs: seq<Exchange>)
    requires Valid(s) && PhaseOf(s) == Setup && s.apiKey != ""
    requires forall k :: 0 <= k < |xs| ==> !Blank(xs[k].answer)
    ensures var t := Run(s, [StartPressed(role, experience, focus, now)] + SendEvents(xs));
            && Valid(t) && PhaseOf(t) == Active
            && |t.messages| == 2 + 2 * |xs|
            && t.messages == Start(s, role, experience, focus, now).messages + Turns(xs)
  {
    var start := StartPressed(role, experience, focus, now);
    RunAppend(s, [start], SendEvents(xs));
    StartRun(s, start);
    RunSendEvents(Run(s, [start]), xs);
    ExchangesAppendTurns(Run(s, [start]), xs);
    RunKeepsValid(s, [start] + SendEvents(xs));
  }

  /** The scenario of a software-engineering interview at entry level with no
      focus areas: two turns, one question counted, and the persona names both
      choices. */
  lemma EntryLevelScenario(s: Session, now: Timestamp)
    requires PhaseOf(s) == Setup && s.apiKey != ""
    ensures var t := Step(s, StartPressed(RoleOptions[0], ExperienceOptions[0], [], now)).session;
            && |t.messages| == 2 && t.questionCount == 1 && PhaseOf(t) == Active
            && Contains(t.messages[0].content, "Software Engineer")
            && Contains(t.messages[0].content, "Entry Level (0-2 years)")
  {
  }

  /** Choosing every offered focus area names each of them both in the
      persona and in the greeting, whatever the role and level. */
  lemma FocusScenario(s: Session, role: string, experience: string, now: Timestamp)
    ensures var t := Start(s, role, experience, FocusOptions, now);
            && forall k :: 0 <= k < |FocusOptions| ==>
                 Contains(t.messages[0].content, FocusOptions[k]) && Contains(t.messages[1].content, FocusOptions[k])
  {
  }

  /** Reset from any page gives back the initial session apart from the kept
      key, voice setting and last selection. */
  lemma ResetIsFresh(s: Session)
    requires s.interviewActive || s.interviewEnded
    ensures var t := Step(s, ResetPressed).session;
            && Valid(t) && PhaseOf(t) == Setup
            && t.(apiKey := "", useVoice := false, role := None, experience := None) == Init()
  {
  }
}
