# Application bot: registry, interview and submission, in Dafny

This project models the core of a Discord bot that runs membership
applications (`main_bot.py`). An applicant clicks **Apply** and gets a private
application channel. A 60-second countdown deletes the channel unless the
interview in it was finished. In the channel, **Start** posts the questions
one by one. Each question waits for the applicant's reply: first with a
60-second timeout, then, after one reminder, without one. **Submit** then
files the clicker's messages in the channel as a review artifact and forgets
the application.

The model is split into modules that follow the program's parts:

- `Platform`: ids, users and messages, the 100-message history window, and
  Python's `str.strip()` and `str.isspace()` over code points.
- `Lists`: reversal, filtering and `enumerate(..., start=1)` turned into
  numbered fields.
- `Registry`: the two module-level dictionaries `active_applications` and
  `active_channels`. They are the fields of the class `ApplicationRegistry`,
  and its methods `Apply`, `ReleaseOnSubmit` and `Countdown` update them in
  place. Pure functions `Registered` and `ReleaseOf` say what each update
  computes. `NeverStartedScenario` runs Apply and the countdown for an
  applicant who never clicks Start.
- `Questions`: the question list, collected by a filtering loop and an
  in-place reversal, and the "View All Questions" reply.
- `Submission`: the response fields and the `SubmitButton` class.
- `Interview`: the `StartButton` class with its `started` flag. Its `Start`
  method runs the question loop and the reminder loop. It is proved equal to
  the pure functions `StartClick`, `Ask` and `AwaitReply`, and the timing and
  numbering properties are proved about those functions.

The platform is reduced to what the handlers observe:

- Channel histories are given newest first, as the platform yields them.
  They are `None` when fetching them raised.
- The successive `wait_for` calls are a sequence of outcomes: a reply, a
  timeout, or any other exception.
- What the bot sends is returned as a trace of events.
- The guild's channels, the "member" role and the "Apply" category are
  parameters.

Two behaviours of the code are worth knowing before reading the model:

- **"No questions found" leaves `started` set.** The return at
  `main_bot.py:55-62` does not clear `started`, unlike the exception handler
  at line 123. So every later click on Start is refused, even once questions
  exist. The model keeps this behaviour; `Interview.NoQuestionsBlocksRetry`
  proves it.
- **Responses come out newest first.** The questions are reversed at line 64
  and asked oldest first. The responses collected at lines 181-184 are never
  reversed, so "Response 1" holds the last answer. This is treated as a bug;
  see "## Findings".

## Model

| member | source | states |
|---|---|---|
| `Platform.StripEmptyIffAllSpace` | main_bot.py:52 | `s.strip()` is non-empty exactly when `s` has a non-whitespace character; the stripped text then starts and ends with one |
| `Lists.FilterReverse` | main_bot.py:50-64 | filtering the reversed history equals reversing the filtered one, so reversing after filtering asks questions oldest first |
| `Lists.ReverseInPlace` | main_bot.py:64 | swapping the ends inwards in place yields exactly the reversed list |
| `Questions.QuestionList` | main_bot.py:50-64 | at most 100 questions; a text is a question iff it is in the 100-message window and `strip()` leaves something |
| `Questions.QuestionsNonBlank` | main_bot.py:52-53 | every collected question has a non-whitespace character |
| `Questions.QuestionListOldestFirst` | main_bot.py:51-64 | the question list is the window's non-blank entries taken oldest first |
| `Questions.KeepNonBlank` | main_bot.py:50-53 | the loop appends exactly the non-blank entries, in history order |
| `Questions.CollectQuestions` | main_bot.py:50-64 | the filtering loop followed by `reverse()` yields the question list |
| `Questions.ViewAllQuestions` | main_bot.py:125-165 | a failed fetch gives the error notice; an empty list gives "No questions found"; otherwise the reply has fields "Question 1".."Question n" for the question list, 1 <= n <= 100 |
| `Registry.FindLiveApplication` | main_bot.py:242-252 | finds a channel exactly when some entry lists the user and its channel still exists; a channel it finds is one of those |
| `Registry.RegisteredEffect` | main_bot.py:288-290 | registration puts the user alone in the new channel's entry, points the user's name at it, and leaves every other key unchanged |
| `Registry.ReleaseEffect` | main_bot.py:216-221 | the cleanup raises exactly when the channel's entry lacks the user; otherwise it removes only the user, drops an emptied entry, forgets the name, and leaves other keys alone; a channel without an entry leaves `active_applications` unchanged |
| `Registry.TablesStayNonEmpty` | main_bot.py:217-219 | registering and releasing keep every channel entry non-empty |
| `Registry.ReleaseUndoesRegistered` | main_bot.py:216-221 | releasing right after registering a fresh channel for a user with no recorded channel restores both dictionaries |
| `Registry.SecondApplyRefused` | main_bot.py:242-252 | after a registration in a channel that exists, the same user's next Apply finds a live application |
| `Registry.ScanCasesExclusive` | main_bot.py:337-340 | a scan ends in at most one way: marker first, embedless bot message first, or neither in the window |
| `Registry.ScanForCompletion` | main_bot.py:337-340 | the scan returns early exactly when a completion marker precedes every embedless bot message; it raises exactly when an embedless bot message comes first; it runs through exactly when the window has neither |
| `Registry.ApplicationRegistry.constructor` | main_bot.py:23-24 | both dictionaries start empty, so every channel entry is non-empty |
| `Registry.ApplicationRegistry.Apply` | main_bot.py:236-329 | refused iff a live application exists; then a missing role, then a missing category, then a failed channel creation, each iff; on success the tables become `Registered(old, channel, user)`, otherwise they are unchanged |
| `Registry.ApplicationRegistry.ReleaseOnSubmit` | main_bot.py:216-221 | succeeds iff `ReleaseOf` does; the new tables are its result, and nothing changes when it raises; entries stay non-empty |
| `Registry.ApplicationRegistry.Countdown` | main_bot.py:331-353 | nothing happens unless the user is still registered in the channel; a vanished channel, a marker found first or an embedless message first leave the tables unchanged; only a window with neither expires the application and releases it |
| `Registry.NeverStartedScenario` | main_bot.py:236-353 | an applicant who never starts: Apply opens the channel, the countdown finds only the welcome message and expires the application, and both dictionaries are empty again |
| `Submission.ResponseFields` | main_bot.py:181-196 | as written: one field per message of the clicker in the 100-message window, none else, numbered 1..n in the order the history yields them (newest first), each holding that message's content |
| `Submission.CollectResponses` | main_bot.py:181-196 | the loop collects exactly the as-written fields |
| `Submission.ResponseFieldsNewestFirst` | main_bot.py:181-196 | as written, answers "Passion" then "Coding" are filed as Response 1 = "Coding", Response 2 = "Passion" |
| `Submission.ChronologicalFieldsOldestFirst` | main_bot.py:181-196 | the corrected fields are the clicker's window messages taken oldest first |
| `Submission.FieldOrdersOpposite` | main_bot.py:181-196 | the as-written and corrected field lists hold the same answers in opposite orders |
| `Submission.ChronologicalFieldsInOrder` | main_bot.py:181-196 | corrected, answers "Passion" then "Coding" are filed as Response 1 = "Passion", Response 2 = "Coding" |
| `Submission.Chronological` | main_bot.py:181-196 | given the as-written fields, reversing their values in place and renumbering them yields exactly the corrected oldest-first fields |
| `Submission.SubmitButton.constructor` | main_bot.py:168-173 | the view keeps the questions, responses, user and channel it is given |
| `Submission.SubmitButton.Submit` | main_bot.py:176-229 | a failed fetch or `create_thread` gives the error with no thread; a failure after the thread gives the error with the corrected fields already filed; otherwise the registry is released and the corrected fields are filed, or, when the cleanup raises, the error is reported with the thread filed; the registry changes only on success |
| `Interview.AwaitReply` | main_bot.py:79-97 | an answer is the first reply event after the start position, every earlier event being a timeout; it keeps waiting iff every remaining event is a timeout; it breaks, at the position of the raise, on a raise preceded only by timeouts |
| `Interview.ReminderOnce` | main_bot.py:79-97 | the reminder is among a question's events iff its first, bounded wait timed out; once `reminder_sent` is set no further reminder comes |
| `Interview.AwaitDecisive` | main_bot.py:79-97 | the waits for one answer end on the first decisive (non-timeout) event: a reply answers and the decisive events after it are the rest, an exception breaks, and with none left the loop is still waiting |
| `Interview.AwaitAnswer` | main_bot.py:79-97 | the `while True` loop with `reminder_sent` emits exactly the waits and reminder that `AwaitReply` describes, and ends in the same way |
| `Interview.AwaitReplyShape` | main_bot.py:79-97 | per question: the first wait has the 60 s timeout, one reminder follows it if it times out, and every later wait is unbounded |
| `Interview.TimeoutThenReply` | main_bot.py:79-97 | a timeout then a reply gives a bounded wait, one reminder, an unbounded wait, and the answer |
| `Interview.AskAll` | main_bot.py:67-114 | the question loop emits exactly the trace and ends in the stage that `Ask` describes |
| `Interview.AskOutcome` | main_bot.py:67-114 | the loop completes iff the decisive events for the questions left are all replies; when stuck at question i, the i-th decisive event is an exception after replies to all before it; when still awaiting question i, the decisive events ran out after replies to all before it |
| `Interview.AskStage` | main_bot.py:67-114 | the loop completes, or stops at a question in range: stuck on an exception or still awaiting |
| `Interview.AskTiming` | main_bot.py:67-97 | over the whole trace, a wait is bounded iff it follows a question post; a reminder follows a bounded wait for its question; no question gets two reminders |
| `Interview.AskPrompts` | main_bot.py:67-73 | the questions are posted in order as "Question 1".."Question n": all of them on completion, up to the stopping question otherwise |
| `Interview.ReentryRefused` | main_bot.py:37-44 | a click while `started` is set only sends "already in progress" and changes nothing |
| `Interview.OnlyFailureClearsStarted` | main_bot.py:46-123 | after a first click `started` is clear iff the outer handler ran, which happens iff the question channel could not be fetched |
| `Interview.NoQuestionsBlocksRetry` | main_bot.py:55-62 | after "No questions found" the next click is refused |
| `Interview.StartButton.constructor` | main_bot.py:27-33 | a new button keeps the channel and user, with no questions, no responses and `started` clear |
| `Interview.StartButton.Start` | main_bot.py:36-123 | the click behaves as `StartClick` on the fields before it; `responses` never changes; a Submit view is made iff the interview completed, carrying the questions, responses, user and channel |

## Left out

- All Discord I/O is left out: embeds, their colours and texts, ephemeral
  flags, the permission overwrites at lines 276-280 and 203-206, and
  `channel.delete()`. The trace records which notice is sent, not its
  rendering.
- `on_ready`, the `.env` configuration and the client setup are left out.
  They are outside the application flow.
- Timing is abstract. `asyncio.sleep(60)` is the moment `Countdown` is
  called, and each `wait_for` is one event in the `waits` sequence.
- Handlers are atomic. Interleaving at `await` points between concurrent
  handlers is not modelled.
- The `check` predicate at lines 75-76 is not modelled. Reply events stand
  for messages that already passed it.
- Reply contents are not kept. The source never stores them either:
  `responses` stays an empty dict.
- Sends in Start, Apply and View All Questions are assumed to succeed. A
  failing question fetch stands for Start's outer handler, and a `Raised` wait
  stands for its inner one. Another send that raises in Start or Apply is not
  modelled separately. In View All Questions, the reply at line 157 raising
  would lead to the error notice at lines 159-165; only a failed fetch is
  modelled as reaching that notice.
  Submit's failures are modelled: before the thread, after it, and in the
  cleanup.
- A history that raises partway through iteration is not modelled. It is
  treated as a history that could not be fetched at all.
- `Interview.StartButton.Start` takes the clicker to be the applicant. `check`
  (lines 75-76) and the collection at line 183 compare authors with
  `interaction.user`, the clicker, not with the applicant. So a click by any
  other member who can see the channel runs the interview on that member's
  replies. The wait events stand for the clicker's messages.
- `Registry.ApplicationRegistry.Apply` gets the role and category lookups as
  booleans and the created channel's id as a parameter. Channel names
  (`application-<name>`) are not modelled.
- `Registry.ApplicationRegistry.Countdown` treats every failure after the
  scan as impossible. `channel.delete()` raising after the cleanup is not
  modelled, and the state change stands either way.
- `Submission.SubmitButton.Submit` files the corrected, oldest-first fields
  rather than the newest-first fields the code builds; see "## Findings".

## Findings

| source | as written | input that shows it | evidently intended | confidence | as-written member | corrected member |
|---|---|---|---|---|---|---|
| main_bot.py:181-196 | the submitter's messages are read newest first and numbered in that order, so "Response 1" is the last answer | questions "Q1", "Q2" answered "Passion" then "Coding": the artifact has Response 1 = "Coding", Response 2 = "Passion" | Response i answers Question i: the messages oldest first, as the questions are asked | not executed | `Submission.ResponseFieldsNewestFirst` | `Submission.ChronologicalFieldsInOrder` |
