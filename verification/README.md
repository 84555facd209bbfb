# AI Interview Coach — verified model of the interview session

The interview-practice page (`InterviewProject/newVoice.py`) keeps one interview
in the page's session state. The state is a list of `{role, content}` messages,
two phase flags (`interview_active`, `interview_ended`), a question counter, a
start time, the pending answer text, the stored API key, the voice toggle and
the last chosen role and experience level. Each button press changes that
state. **Start** writes the persona and the greeting. **Send** appends the
candidate's answer, asks the language-model service for a reply and appends
it, or takes the answer back when the call fails. **End** moves to the
feedback page. **Reset** goes back to the setup page. The feedback page
renders the transcript into a one-shot prompt and builds the downloadable
report record.

The model is written as immutable datatypes and pure transition functions:

- `text.dfy`: `Wrappers` (`Option`) and `Text`. These hold the Python string
  behaviour the page relies on: `strip()`, `lower()` plus `in`, and `join`.
- `transcript.dfy`: `Transcript`. It defines the message list, the chat history
  sent with every answer (`user` becomes "user", `assistant` becomes "model",
  anything else is dropped), the speaker-labelled feedback lines and the
  exported conversation list.
- `interview.dfy`: `Interview`. It defines the session, the phase read off the
  two flags, every button press, the `Step`/`Run` event semantics with the
  page's visibility rules, and the invariant `Valid` of every reachable session.
- `views.dfy`: `Views`. It holds what the pages show without changing the
  session: the sidebar progress panel, the feedback prompt, the feedback page
  and the report record.

The service is a parameter. Every Send takes an `Outcome`: either
`Success(reply)` or `Failure(errorText)`, where `errorText` stands for
`str(e)`. The feedback page takes one too. The clock is also a parameter:
timestamps are integers counting microseconds, and the formatted date is a
string argument.

On these points the code behaves differently from what a reader might expect; the model follows the code:

- The phase is two booleans. End sets `interview_ended` and leaves
  `interview_active` true, so End and Reset stay offered on the feedback page.
- Reset keeps the API key, the voice toggle, and the last role and experience.
- The feedback is requested again on every render of the feedback page. It is
  not cached.
- Role and experience are never checked. They come from fixed option lists
  (`RoleOptions`, `ExperienceOptions`), so Start accepts any strings.
- The feedback transcript labels every non-assistant turn "Candidate". A
  system turn would be labelled that way too; none occurs after index 0.
- End and Reset live in the sidebar, before the API-key check, so they work
  without a key. Start, Send and the feedback page sit behind that check.
- A failed Send restores the message list but leaves the pending answer
  cleared. The code clears it before calling the service.

## Model

| member | source | states |
|---|---|---|
| Interview.InitValid | InterviewProject/newVoice.py:186-201 | The freshly initialised session is on the setup page and satisfies the reachability invariant. |
| Interview.StoreApiKey | InterviewProject/newVoice.py:216-217 | A non-empty key entry replaces the stored key. An empty entry leaves the whole session unchanged. No other field moves. |
| Interview.StepKeepsKey | InterviewProject/newVoice.py:216-217 | Once a key is stored, no event can clear it again. |
| Interview.SetVoice | InterviewProject/newVoice.py:225-226 | The checkbox value becomes the voice setting; nothing else changes. |
| Views.ProgressPanel | InterviewProject/newVoice.py:234-240 | The progress panel shows exactly while the active flag is set, including on the feedback page. It shows the question counter, and shows the elapsed minutes since the start time exactly when one exists. |
| Views.DurationMinutes | InterviewProject/newVoice.py:453 | `(now - start).seconds // 60` is always in [0, 1440). For every elapsed time, negative ones included, it equals the whole elapsed minutes modulo one day. Within one day it equals the whole elapsed minutes. |
| Views.DayWrap | InterviewProject/newVoice.py:239 | Dropping whole days from the elapsed seconds and then taking whole minutes equals taking whole minutes and then dropping whole days, with floor division throughout. |
| Views.MinutesOfSeconds | InterviewProject/newVoice.py:239 | Within a day, taking whole seconds, dropping days and then taking whole minutes gives the whole elapsed minutes. |
| Interview.End | InterviewProject/newVoice.py:245-246 | End sets the ended flag and nothing else. The result is on the feedback page, so pressing End again changes nothing. |
| Interview.Reset | InterviewProject/newVoice.py:251-257 | Reset equals the initial session except for the kept API key, voice setting, role and experience. It lands on the setup page. |
| Interview.ResetIsFresh | InterviewProject/newVoice.py:250-257 | Pressing Reset on either interview page gives a valid setup-page session. Apart from the four kept fields, it matches a fresh one. |
| Interview.Step | InterviewProject/newVoice.py:284-298 | A control the page does not show cannot change the session or call the service. Only Send on the interview page with a stored key makes a request. With no key, Start and Send do nothing. |
| Interview.FocusText | InterviewProject/newVoice.py:336 | The focus text is empty exactly when no areas are chosen. Otherwise it starts with "\nFocus on: " and names every chosen area. |
| Interview.PersonaNamesSelection | InterviewProject/newVoice.py:348 | The persona content opens with the coaching instruction and names the role, the experience level and every focus area. Without focus areas it ends with the experience level. |
| Interview.Start | InterviewProject/newVoice.py:335-356 | Start leaves exactly two turns: persona first, then the assistant greeting. The persona opens with the coaching instruction and names the role and the level. The greeting opens with "Starting mock interview for: <role> (<level>)" and ends with the welcome naming the role and the fixed warm-up question. Both turns name every focus area. Start sets the active flag, a counter of 1, the start time and the selection. The ended flag, key, voice setting and pending answer are untouched. |
| Interview.Greeting | InterviewProject/newVoice.py:336-345 | The opening turn starts with the header naming the role and level. It ends with the welcome naming the role again and the warm-up question. Every focus area is named in between. |
| Interview.FocusScenario | InterviewProject/newVoice.py:326-349 | Choosing all six offered focus areas names each of them in both the persona and the greeting. |
| Interview.StartKeepsValid | InterviewProject/newVoice.py:347-355 | Start from the setup page produces a session satisfying the reachability invariant. |
| Interview.EntryLevelScenario | InterviewProject/newVoice.py:303-356 | Starting as "Software Engineer" at "Entry Level (0-2 years)" with no focus areas gives two turns and a counter of 1. The persona contains both strings. |
| Text.StripEmptyIffBlank | InterviewProject/newVoice.py:386 | `answer.strip()` is empty exactly when every character of the answer is Python white space. |
| Text.StripIsTrimmedSlice | InterviewProject/newVoice.py:386 | `strip()` returns a contiguous slice of the input. Only white space is cut from either end, and the result neither starts nor ends with white space. |
| Text.TrimmedSlice | InterviewProject/newVoice.py:386 | Cutting leading and then trailing white space leaves a slice of the input with only white space cut on either side. The result is empty exactly when the input is all white space. |
| Text.TrimStart | InterviewProject/newVoice.py:386 | Leading white space is removed: the result is a suffix of the input, everything dropped is white space, and the result does not start with white space. |
| Text.TrimEnd | InterviewProject/newVoice.py:386 | Trailing white space is removed: the result is a prefix of the input, everything dropped is white space, and the result does not end with white space. |
| Interview.Send | InterviewProject/newVoice.py:386-424 | A white-space-only answer changes nothing and calls nothing. Otherwise a request is made. A reply appends exactly the user turn then the assistant turn and raises the counter by one iff the reply holds '?'. A failure restores the message list and counter and shows the classified notice. The pending answer is cleared in both cases, and the flags, key, start time and selection never change. |
| Interview.RequestFor | InterviewProject/newVoice.py:394-408 | The request's system instruction is the first turn. Its history is the history of every turn after the persona, at most len(messages) - 2 entries counted after the append. The answer is sent separately as the new message. With no prior turns, the answer itself is the instruction. |
| Transcript.BuildHistory | InterviewProject/newVoice.py:400-405 | The script's loop builds exactly the reference history. |
| Transcript.HistoryShape | InterviewProject/newVoice.py:400-405 | The history never has more entries than turns. On turns with no system turn it has one entry per turn, in order, with the content kept, and the entry is on the model side iff the turn is an assistant turn. |
| Transcript.EntryOfTurn | InterviewProject/newVoice.py:402-405 | A system turn gives no history entry. A user turn gives a "user" entry and an assistant turn a "model" entry, with the content as its only part. |
| Transcript.HistoryAppend | InterviewProject/newVoice.py:400-405 | The history of two runs of turns one after the other is the history of the first followed by that of the second. |
| Transcript.SystemTurnDropped | InterviewProject/newVoice.py:401-405 | A system turn anywhere among the turns contributes nothing: removing it leaves the history unchanged. |
| Transcript.HistoryOfSystemTurns | InterviewProject/newVoice.py:401-405 | Turns that are neither user nor assistant add nothing to the history. |
| Interview.ValidHistory | InterviewProject/newVoice.py:396-408 | In a reachable interview the system instruction is the persona. The history covers every turn after it and alternates model, user, …, ending on the model side. |
| Interview.Classify | InterviewProject/newVoice.py:419-423 | A failure is classified as a quota notice iff some window of the error text spells "quota" in any mix of upper and lower case. Otherwise the notice carries the error text itself. |
| Text.QuotaIgnoringCase | InterviewProject/newVoice.py:420 | `"quota" in text.lower()` holds iff some window of the text spells q-u-o-t-a letter by letter in either case. |
| Interview.SendKeepsValid | InterviewProject/newVoice.py:386-424 | Every Send on the interview page keeps the session valid and on that page: success, failure and blank input alike. |
| Interview.ExchangeKeepsValid | InterviewProject/newVoice.py:388-415 | Appending an answer and its reply keeps the transcript alternating. The counter stays one plus the number of questioning replies. |
| Interview.AlternatesAppend | InterviewProject/newVoice.py:388-411 | A user turn followed by an assistant turn, appended to an alternating transcript, keeps it alternating. |
| Interview.QuestionsAskedAppend | InterviewProject/newVoice.py:413-415 | One answered question adds one to the count of questioning replies iff the reply holds '?'. |
| Interview.StepKeepsValid | InterviewProject/newVoice.py:245-257 | Every event keeps the reachability invariant. Once started, the persona opens an alternating transcript of even length and the counter is 1 + questioning replies. On the setup page the transcript is empty and the counter 0. Ended implies active. |
| Interview.RunKeepsValid | InterviewProject/newVoice.py:245-424 | Any run of page events from a valid session ends in a valid session. |
| Interview.ReachableValid | InterviewProject/newVoice.py:186-424 | Every session reachable from the initial one by page events satisfies the invariant. |
| Interview.StepCountMonotone | InterviewProject/newVoice.py:413-415 | In a reachable session, no event other than Reset lowers the question counter, and none raises it by more than one. |
| Interview.QuestionCountBound | InterviewProject/newVoice.py:355 | In a started interview the counter lies between 1 and the number of interviewer turns. |
| Interview.PairsCount | InterviewProject/newVoice.py:411-415 | In a run of user-assistant pairs, half the turns are assistant turns and the questioning replies are among them. |
| Interview.SendStepSuccess | InterviewProject/newVoice.py:386-417 | An answered Send on the interview page appends exactly the answer and the reply. The counter rises by one iff the reply holds '?'. The session stays on that page with the same key. |
| Interview.StartRun | InterviewProject/newVoice.py:335-356 | Start pressed on the setup page with a key gives a valid interview whose transcript is Start's two turns. |
| Interview.ExchangesAppendTurns | InterviewProject/newVoice.py:386-415 | N answered Sends append exactly their N answer-reply pairs and keep every earlier turn. The session stays on the interview page with its key. |
| Interview.RunSendEvents | InterviewProject/newVoice.py:384-417 | Running the Send events of N answered questions is the same as pressing Send for each in turn. |
| Interview.TurnsAppend | InterviewProject/newVoice.py:388-411 | One more answered question adds its answer and reply after the turns of the earlier ones. |
| Interview.ExchangesGrowTranscript | InterviewProject/newVoice.py:347-411 | After Start and N answered questions the transcript is the persona, the greeting and the N pairs in order: 2 + 2N turns, alternating after index 0. |
| Interview.RunAppend | InterviewProject/newVoice.py:245-424 | Running two event sequences one after the other equals running their concatenation. |
| Transcript.RoleName | InterviewProject/newVoice.py:455 | The exported speaker string reads back as the same role. |
| Transcript.ConversationRoundTrip | InterviewProject/newVoice.py:454-457 | The exported conversation reads back to exactly `messages[1:]`: same length, same order, same speakers and contents. |
| Transcript.LineLabel | InterviewProject/newVoice.py:434 | A feedback line starts with "Interviewer: " iff the turn is an assistant turn, and with "Candidate: " otherwise, whatever the content. |
| Transcript.FeedbackLabels | InterviewProject/newVoice.py:433-436 | The feedback lines have one "Interviewer: " line per assistant turn after the persona and one "Candidate: " line per other turn. |
| Transcript.FeedbackTranscriptHoldsTurns | InterviewProject/newVoice.py:433-436 | Every turn after the persona appears, labelled, in the transcript block joined with blank lines. |
| Text.JoinSnoc | InterviewProject/newVoice.py:433 | Joining one more part appends the separator and that part. |
| Text.JoinLength | InterviewProject/newVoice.py:433 | The joined text's length is the parts' total length plus one separator per gap. |
| Text.JoinContainsParts | InterviewProject/newVoice.py:336 | Every part can be found in the joined text. |
| Text.JoinStartsWithFirst | InterviewProject/newVoice.py:433 | The joined text opens with the first part, followed by the separator when more parts come. |
| Views.FeedbackRequest | InterviewProject/newVoice.py:439-441 | The one-shot feedback prompt opens with the feedback instruction and contains every labelled turn after the persona. |
| Views.Feedback | InterviewProject/newVoice.py:431-468 | The page always sends the feedback prompt built from the transcript. A failed call shows only the service error. A reply is always shown. The download exists iff the reply came and role, experience and start time are present, and an error shows otherwise. The record carries the reply, role, experience, date and duration, and a conversation that reads back to `messages[1:]`. |
| Views.FeedbackPage | InterviewProject/newVoice.py:427-431 | The feedback page renders exactly when a key is stored and the ended flag is set. |
| Views.ValidFeedback | InterviewProject/newVoice.py:449-459 | On a reachable feedback page an answered request always yields the download. Its conversation has one entry per turn after the persona. |
| Views.FeedbackLineCounts | InterviewProject/newVoice.py:433-436 | In a reachable interview the feedback lines are half the turns as "Interviewer: " lines and one fewer as "Candidate: " lines. |
| Views.OneExchangeScenario | InterviewProject/newVoice.py:245-246 | Ending after one answered question gives two "Interviewer: " lines (greeting and reply) and one "Candidate: " line. |

## Left out

- The browser voice recorder (lines 73-183) is embedded HTML and JavaScript speech capture. Only its effect is modelled: it fills the answer box, which is the `answer` argument of Send.
- Streamlit widgets, layout, styling, spinners, the sidebar tips and links, chat rendering and the `st.rerun`/`st.stop` control flow are left out. Each button press is an `Event`, and the page's visibility rules are `Interview.Offered`.
- The `google.generativeai` calls (`configure`, `GenerativeModel`, `start_chat`, `send_message`, `generate_content`) and the model name are a foreign network service. Each call is an `Outcome` parameter.
- `datetime.now()` and `strftime` are a wall clock and library date formatting. Timestamps are integer microseconds passed in, and the formatted date is a string argument.
- `json.dumps` and `download_button` are a library encoder and a file download. Only the record's fields are modelled, with a read-back function standing for the lossless encoding.
- The wording of the coaching and feedback instructions is left out: `SystemPrompt` and `FeedbackPrompt` are unspecified string constants.
- The wording of `st.error` messages is left out. A notice is either `QuotaExceeded` or `GenericError(errorText)`.
- Text.Lower: lowercases only A-Z, unlike Python's full Unicode `lower()`. The model uses it only for the "quota" test. For that test the result is the same, because the only non-ASCII characters that lowercase to ASCII letters become "k" or "i".
- Transcript.FeedbackLabels: counts labelled lines before they are joined, not in the joined text, because turn contents may themselves contain "\n\nInterviewer: ".
- Interview.StepCountMonotone: assumes the session is reachable (`Valid`). An arbitrary session on the setup page could carry any counter, and Start would set it to 1.
- Views.Feedback: the detail text of an error raised while building the record is not modelled. For a missing selection or start time only the cause is recorded.
