/** What the pages show from the session without changing it: the progress
    panel of the sidebar and the feedback page, with the one-shot feedback
    prompt and the downloadable report record. */
module Views {
  import opened Wrappers
  import opened Text
  import opened Transcript
  import opened Interview

  /** The feedback-analysis instruction. Its wording is not modelled. */
  const FeedbackPrompt: string

  const MicrosPerSecond: int := 1_000_000
  const SecondsPerDay: int := 86_400

  /** Within a day, whole minutes of whole seconds are whole minutes. */
  lemma MinutesOfSeconds(d: int)
    requires 0 <= d < SecondsPerDay * MicrosPerSecond
    ensures d / MicrosPerSecond % SecondsPerDay / 60 == d / (60 * MicrosPerSecond)
  {
    var q := d / MicrosPerSecond;
    assert q < SecondsPerDay;
    var a := q / 60;
    var b := q % 60;
    assert d == 60 * MicrosPerSecond * a + (MicrosPerSecond * b + d % MicrosPerSecond);
    assert 0 <= MicrosPerSecond * b + d % MicrosPerSecond < 60 * MicrosPerSecond;
  }

  /** Whole minutes of whole seconds are whole minutes, for every elapsed
      time (floor division). */
  lemma NestedDivision(d: int)
    ensures d / MicrosPerSecond / 60 == d / (60 * MicrosPerSecond)
  {
    var q := d / MicrosPerSecond;
    var a := q / 60;
    assert q == 60 * a + q % 60;
    assert d == 60 * MicrosPerSecond * a + (MicrosPerSecond * (q % 60) + d % MicrosPerSecond);
    assert 0 <= MicrosPerSecond * (q % 60) + d % MicrosPerSecond < 60 * MicrosPerSecond;
  }

  /** Dropping whole days from the seconds drops whole days from the minutes. */
  lemma SecondsDayWrap(q: int)
    ensures q % SecondsPerDay / 60 == q / 60 % 1440
  {
    var a := q / 60;
    var e := a % 1440;
    assert q == 60 * a + q % 60;
    assert a == 1440 * (a / 1440) + e;
    assert q == SecondsPerDay * (a / 1440) + (60 * e + q % 60);
    assert 0 <= 60 * e + q % 60 < SecondsPerDay;
  }

  /** Whole days are dropped whether they are cut from the seconds or from the
      minutes: `d // 10**6 % 86400 // 60` equals `d // (60 * 10**6) % 1440`
      for every elapsed time `d`, negative ones included (floor division). */
  lemma DayWrap(d: int)
    ensures d / MicrosPerSecond % SecondsPerDay / 60 == d / (60 * MicrosPerSecond) % 1440
  {
    NestedDivision(d);
    SecondsDayWrap(d / MicrosPerSecond);
  }

  /** `(now - start).seconds // 60`: the whole minutes of the elapsed time's
      seconds field, which drops whole days and is never negative. */
  function DurationMinutes(start: Timestamp, now: Timestamp): (m: int)
    ensures 0 <= m < 1440
    ensures m == (now - start) / (60 * MicrosPerSecond) % 1440
    ensures 0 <= now - start < SecondsPerDay * MicrosPerSecond ==> m == (now - start) / (60 * MicrosPerSecond)
  {
    var d := now - start;
    DayWrap(d);
    var minutes := d / MicrosPerSecond % SecondsPerDay / 60;
    if 0 <= d < SecondsPerDay * MicrosPerSecond then MinutesOfSeconds(d); minutes else minutes
  }

  /** The sidebar's progress panel. */
  datatype Progress = Progress(questionsAsked: int, minutes: Option<int>)

  /** The panel shows while the active flag is set, also on the feedback page;
      the duration shows once a start time is recorded. */
  function ProgressPanel(s: Session, now: Timestamp): (p: Option<Progress>)
    ensures p.Some? <==> s.interviewActive
    ensures p.Some? ==> p.value.questionsAsked == s.questionCount
                        && (p.value.minutes.Some? <==> s.startTime.Some?)
                        && (p.value.minutes.Some? ==> 0 <= p.value.minutes.value < 1440)
    ensures p.Some? && s.startTime.Some? ==> p.value.minutes == Some(DurationMinutes(s.startTime.value, now))
  {
    if !s.interviewActive then None
    else
      var minutes := match s.startTime
                     case Some(t) => Some(DurationMinutes(t, now))
                     case None => None;
      Some(Progress(s.questionCount, minutes))
  }

  /** The one-shot prompt of the feedback page: the instruction, a header and
      the transcript block. */
  function FeedbackRequest(s: Session): (prompt: string)
    ensures StartsWith(prompt, FeedbackPrompt)
    ensures forall k :: 1 <= k < |s.messages| ==> Contains(prompt, RenderLine(s.messages[k]))
  {
    var head := FeedbackPrompt + "\n\nInterview Transcript:\n";
    var block := FeedbackTranscript(s.messages);
    FeedbackTranscriptHoldsTurns(s.messages);
    forall k | 1 <= k < |s.messages|
      ensures Contains(head + block, RenderLine(s.messages[k]))
    {
      ContainsAfter(head, block, RenderLine(s.messages[k]));
    }
    assert (head + block)[..|FeedbackPrompt|] == FeedbackPrompt;
    head + block
  }

  /** The downloadable report. */
  datatype ExportRecord = ExportRecord(
    role: string,
    experience: string,
    date: string,
    durationMinutes: int,
    conversation: seq<Utterance>,
    feedback: string)

  /** Why the feedback page shows an error: the service failed, or the report
      could not be built because the selection or start time is missing. */
  datatype FeedbackFailure = ServiceFailed(detail: string) | SelectionMissing | StartTimeMissing

  /** What the feedback page does: the prompt it sends, then the feedback
      text, the download and an error it shows. */
  datatype FeedbackView = FeedbackView(
    request: string,
    shown: Option<string>,
    download: Option<ExportRecord>,
    error: Option<FeedbackFailure>)

  /** One render of the feedback page, given the service's answer to the
      feedback prompt, the clock and the formatted date. A failed call shows
      only the error. A reply is shown, then the report is built from the role,
      experience, duration, every turn after the persona and the reply; if the
      selection or the start time is missing the download is replaced by an
      error. Nothing is cached: every render asks again. */
  function Feedback(s: Session, outcome: Outcome, now: Timestamp, date: string): (v: FeedbackView)
    ensures v.request == FeedbackRequest(s)
    ensures outcome.Failure? ==> v.shown == None && v.download == None && v.error == Some(ServiceFailed(outcome.errorText))
    ensures outcome.Success? ==> v.shown == Some(outcome.reply)
    ensures v.download.Some? <==> outcome.Success? && s.role.Some? && s.experience.Some? && s.startTime.Some?
    ensures v.download.Some? <==> v.error.None?
    ensures v.download.Some? ==>
              && v.download.value.feedback == outcome.reply
              && v.download.value.role == s.role.value
              && v.download.value.experience == s.experience.value
              && v.download.value.date == date
              && v.download.value.durationMinutes == DurationMinutes(s.startTime.value, now)
              && ReadConversation(v.download.value.conversation) == Some(AfterPersona(s.messages))
  {
    var prompt := FeedbackRequest(s);
    match outcome
    case Failure(e) => FeedbackView(prompt, None, None, Some(ServiceFailed(e)))
    case Success(text) =>
      if s.role.None? || s.experience.None? then FeedbackView(prompt, Some(text), None, Some(SelectionMissing))
      else if s.startTime.None? then FeedbackView(prompt, Some(text), None, Some(StartTimeMissing))
      else
        ConversationRoundTrip(s.messages);
        var record := ExportRecord(s.role.value, s.experience.value, date,
                                   DurationMinutes(s.startTime.value, now), Conversation(s.messages), text);
        FeedbackView(prompt, Some(text), Some(record), None)
  }

  /** The feedback page renders only behind the key check and only once the
      ended flag is set. */
  function FeedbackPage(s: Session, outcome: Outcome, now: Timestamp, date: string): (v: Option<FeedbackView>)
    ensures v.Some? <==> s.apiKey != "" && PhaseOf(s) == Ended
  {
    if s.apiKey != "" && PhaseOf(s) == Ended then Some(Feedback(s, outcome, now, date)) else None
  }

  /** In a reachable session the feedback page always offers the download
      when the service answers, and the report lists every turn after the
      persona. */
  lemma ValidFeedback(s: Session, reply: string, now: Timestamp, date: string)
    requires Valid(s) && PhaseOf(s) == Ended && s.apiKey != ""
    ensures var v := FeedbackPage(s, Success(reply), now, date);
            && v.Some? && v.value.error.None? && v.value.download.Some?
            && |v.value.download.value.conversation| == |s.messages| - 1
  {
  }

  /** Turns alternating assistant, user, ..., assistant hold one more
      assistant turn than user turns. */
  lemma {:induction false} AlternatingFromAssistant(rest: seq<Msg>)
    requires |rest| % 2 == 1
    requires forall i :: 0 <= i < |rest| ==> rest[i].role == (if i % 2 == 0 then Assistant else User)
    ensures CountRole(rest, Assistant) == (|rest| + 1) / 2
  {
    if |rest| > 1 {
      var init := rest[..|rest| - 2];
      assert rest[..|rest| - 1][..|rest| - 2] == init;
      AlternatingFromAssistant(init);
    }
  }

  /** The feedback transcript of a reachable interview has one "Interviewer: "
      line per interviewer turn (the greeting and each reply) and one
      "Candidate: " line per answer, one fewer. */
  lemma FeedbackLineCounts(s: Session)
    requires Valid(s) && s.interviewActive
    ensures CountStartingWith(RenderedLines(s.messages), "Interviewer: ") == |s.messages| / 2
    ensures CountStartingWith(RenderedLines(s.messages), "Candidate: ") == |s.messages| / 2 - 1
  {
    var rest := AfterPersona(s.messages);
    assert forall i :: 0 <= i < |rest| ==> rest[i] == s.messages[i + 1];
    AlternatingFromAssistant(rest);
    FeedbackLabels(s.messages);
  }

  /** Ending after exactly one answered question: the feedback transcript has
      two "Interviewer: " lines (greeting and reply) and one "Candidate: " line. */
  lemma OneExchangeScenario(s: Session)
    requires Valid(s) && s.interviewActive && |s.messages| == 4
    ensures var e := Step(s, EndPressed).session;
            && PhaseOf(e) == Ended
            && CountStartingWith(RenderedLines(e.messages), "Interviewer: ") == 2
            && CountStartingWith(RenderedLines(e.messages), "Candidate: ") == 1
  {
    FeedbackLineCounts(s);
  }
}
