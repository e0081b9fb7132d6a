/**
 The interview session behind the "Start" button: a `started` flag that guards
 re-entry, the question list read when the interview starts, and for each
 question a post followed by waits for the applicant's reply, the first one
 bounded by 60 seconds and followed by one reminder when it times out.

 The platform is reduced to its outcomes: the question channel's history
 (`None` when fetching it raised) and the sequence of outcomes of the
 successive `wait_for` calls. What the bot sends is returned as a trace.
 */
module Interview {
  import opened Platform
  import opened Lists
  import opened Questions
  import opened Submission

  /** The outcome of one `wait_for` call: the applicant's message (its content
      is never stored), the 60-second timeout, or any other exception. */
  datatype WaitEvent = Reply(content: string) | TimedOut | Raised

  /** What the bot sends or starts, in order. */
  datatype Emit =
    | InProgressNotice                    // "Application already in progress!"
    | NoQuestionsNotice                   // "No questions found."
    | FailureNotice                       // the outer handler's error notice
    | Posted(number: nat, text: string)   // the "Question i" embed
    | Waiting(number: nat, bounded: bool) // a `wait_for` call; bounded: with the 60 s timeout
    | Reminder(number: nat)               // the "Please type something to continue." notice
    | ChannelError                        // the inner handler's error embed
    | CompletionPosted                    // "Application Complete" with the Submit button

  /** How the waits for one answer end: answered, with the position of the
      next unused event; abandoned by the exception at position `at`; or
      still waiting. */
  datatype Wait = Answered(next: nat) | Broken(at: nat) | Pending

  /** Where a click on "Start" leaves the interview. */
  datatype Stage =
    | Refused          // `started` was set: only the notice
    | Failed           // the outer handler ran and cleared `started`
    | NoQuestions      // the question list was empty
    | Stuck(at: nat)   // a wait for question `at` raised: the interview is abandoned
    | Awaiting(at: nat)// still waiting for the answer to question `at`
    | Completed        // every question answered, the Submit button posted

  /** The inner `while True` loop for question `number`, from event `pos` on. */
  function AwaitReply(number: nat, waits: seq<WaitEvent>, pos: nat, reminded: bool): (r: (seq<Emit>, Wait))
    requires pos <= |waits|
    ensures r.1.Answered? ==> pos < r.1.next <= |waits| && waits[r.1.next - 1].Reply?
    ensures r.1.Answered? ==> forall j :: pos <= j < r.1.next - 1 ==> waits[j].TimedOut?
    ensures r.1.Pending? <==> forall j :: pos <= j < |waits| ==> waits[j].TimedOut?
    ensures r.1.Broken? ==>
              pos <= r.1.at < |waits| && waits[r.1.at].Raised? && forall i :: pos <= i < r.1.at ==> waits[i].TimedOut?
    decreases |waits| - pos
  {
    if pos == |waits| then ([], Pending)
    else
      var wait := [Waiting(number, !reminded)];
      match waits[pos]
      case Reply(_) => (wait, Answered(pos + 1))
      case Raised => (wait, Broken(pos))
      case TimedOut =>
        var rest := AwaitReply(number, waits, pos + 1, true);
        (wait + (if reminded then [] else [Reminder(number)]) + rest.0, rest.1)
  }

  /** The reminder is sent iff the first, bounded wait times out, and at most once per question. */
  lemma {:induction false} ReminderOnce(number: nat, waits: seq<WaitEvent>, pos: nat, reminded: bool)
    requires pos <= |waits|
    ensures !reminded ==>
              (Reminder(number) in AwaitReply(number, waits, pos, reminded).0 <==> pos < |waits| && waits[pos].TimedOut?)
    ensures reminded ==> Reminder(number) !in AwaitReply(number, waits, pos, reminded).0
    decreases |waits| - pos
  {
    if pos < |waits| && waits[pos].TimedOut? {
      ReminderOnce(number, waits, pos + 1, true);
    }
  }

  /** The `for` loop over the questions, from question index `k` and event `pos` on. */
  function Ask(questions: seq<string>, k: nat, waits: seq<WaitEvent>, pos: nat): (seq<Emit>, Stage)
    requires k <= |questions| && pos <= |waits|
    decreases |questions| - k
  {
    if k == |questions| then ([CompletionPosted], Completed)
    else
      var await := AwaitReply(k + 1, waits, pos, false);
      var block := [Posted(k + 1, questions[k])] + await.0;
      match await.1
      case Answered(next) =>
        var rest := Ask(questions, k + 1, waits, next);
        (block + rest.0, rest.1)
      case Broken(_) => (block + [ChannelError], Stuck(k + 1))
      case Pending => (block, Awaiting(k + 1))
  }

  /** The fields of the button the source keeps between clicks. */
  datatype Session = Session(started: bool, questions: seq<string>)

  /** One click on "Start": where it leaves the interview, what the bot sends,
      and the fields afterwards. */
  datatype StartRun = StartRun(stage: Stage, trace: seq<Emit>, after: Session)

  /** `StartButton.start_button` as a function of the fields before the click,
      the question channel's history and the wait outcomes. */
  function StartClick(before: Session, fetched: Option<seq<string>>, waits: seq<WaitEvent>): StartRun
  {
    if before.started then StartRun(Refused, [InProgressNotice], before)
    else if fetched.None? then StartRun(Failed, [FailureNotice], Session(false, before.questions))
    else
      var questions := QuestionList(fetched.value);
      if questions == [] then StartRun(NoQuestions, [NoQuestionsNotice], Session(true, []))
      else
        var run := Ask(questions, 0, waits, 0);
        StartRun(run.1, run.0, Session(true, questions))
  }

  // ---------------------------------------------------------------------------
  // The `started` flag

  /** A click while `started` is set changes nothing and only sends the notice. */
  lemma ReentryRefused(before: Session, fetched: Option<seq<string>>, waits: seq<WaitEvent>)
    requires before.started
    ensures StartClick(before, fetched, waits) == StartRun(Refused, [InProgressNotice], before)
  {
  }

  /** A first click leaves `started` set on every path except the outer
      exception handler, the only place that clears it. */
  lemma OnlyFailureClearsStarted(before: Session, fetched: Option<seq<string>>, waits: seq<WaitEvent>)
    requires !before.started
    ensures var run := StartClick(before, fetched, waits);
      && (!run.after.started <==> run.stage == Failed)
      && (run.stage == Failed <==> fetched.None?)
  {
    if fetched.Some? && QuestionList(fetched.value) != [] {
      AskStage(QuestionList(fetched.value), 0, waits, 0);
    }
  }

  /** After "No questions found" the flag stays set, so a later click is
      refused even once questions exist. */
  lemma NoQuestionsBlocksRetry(before: Session, fetched: Option<seq<string>>, waits: seq<WaitEvent>,
                               refetched: Option<seq<string>>, rewaits: seq<WaitEvent>)
    requires StartClick(before, fetched, waits).stage == NoQuestions
    ensures StartClick(StartClick(before, fetched, waits).after, refetched, rewaits).stage == Refused
  {
  }

  /** The stages a run of the question loop can end in. */
  lemma {:induction false} AskStage(questions: seq<string>, k: nat, waits: seq<WaitEvent>, pos: nat)
    requires k <= |questions| && pos <= |waits|
    ensures var s := Ask(questions, k, waits, pos).1;
      s.Completed? || ((s.Stuck? || s.Awaiting?) && k < s.at <= |questions|)
    decreases |questions| - k
  {
    if k < |questions| {
      var await := AwaitReply(k + 1, waits, pos, false);
      if await.1.Answered? {
        AskStage(questions, k + 1, waits, await.1.next);
      }
    }
  }

  /** The events of `w` that end a wait, in order: replies and exceptions.
      Timeouts only make the loop wait again. */
  function Decisive(w: seq<WaitEvent>): (d: seq<WaitEvent>)
    ensures forall i :: 0 <= i < |d| ==> !d[i].TimedOut?
  {
    if w == [] then [] else (if w[0].TimedOut? then [] else [w[0]]) + Decisive(w[1..])
  }

  /** The waits for one answer end on the first decisive event: a reply
      answers, an exception breaks, and without one the loop is still waiting. */
  lemma {:induction false} AwaitDecisive(number: nat, waits: seq<WaitEvent>, pos: nat, reminded: bool)
    requires pos <= |waits|
    ensures var r := AwaitReply(number, waits, pos, reminded).1;
      var d := Decisive(waits[pos..]);
      && (r.Answered? ==> pos < r.next <= |waits| && d == [waits[r.next - 1]] + Decisive(waits[r.next..]))
      && (r.Broken? ==> d != [] && d[0].Raised?)
      && (r.Pending? ==> d == [])
    decreases |waits| - pos
  {
    if pos < |waits| {
      var w := waits[pos..];
      assert Decisive(w) == (if waits[pos].TimedOut? then [] else [waits[pos]]) + Decisive(waits[pos + 1..]) by {
        assert w[0] == waits[pos] && w[1..] == waits[pos + 1..];
      }
      match waits[pos] {
        case Reply(_) =>
          assert AwaitReply(number, waits, pos, reminded).1 == Answered(pos + 1) by {
            AwaitStep(number, waits, pos, reminded);
          }
        case Raised =>
          assert AwaitReply(number, waits, pos, reminded).1 == Broken(pos) by {
            AwaitStep(number, waits, pos, reminded);
          }
        case TimedOut =>
          assert AwaitReply(number, waits, pos, reminded).1 == AwaitReply(number, waits, pos + 1, true).1 by {
            AwaitStep(number, waits, pos, reminded);
          }
          AwaitDecisive(number, waits, pos + 1, true);
      }
    }
  }

  /** The first `n` decisive events are all replies. */
  predicate RepliesFirst(d: seq<WaitEvent>, n: nat)
  {
    |d| >= n && forall i :: 0 <= i < n ==> d[i].Reply?
  }

  /** Replies first, one event at a time. */
  lemma RepliesFirstCons(e: WaitEvent, d: seq<WaitEvent>, n: nat)
    ensures RepliesFirst([e] + d, n + 1) <==> e.Reply? && RepliesFirst(d, n)
  {
    if e.Reply? && RepliesFirst(d, n) {
      forall i | 0 <= i < n + 1 ensures ([e] + d)[i].Reply? {
        if i > 0 { assert ([e] + d)[i] == d[i - 1]; }
      }
    }
    if RepliesFirst([e] + d, n + 1) {
      assert ([e] + d)[0] == e;
      forall i | 0 <= i < n ensures d[i].Reply? {
        assert ([e] + d)[i + 1] == d[i];
      }
    }
  }

  /** Why a question loop that started at question index `k` with `m`
      questions left ended in stage `s`, given its decisive events `d`: it
      completes iff the decisive events for the questions left are all
      replies; when it is stuck at a question, the decisive event for it is an
      exception after replies to all before; and when it is still waiting,
      the events ran out after replies to all before. */
  predicate StageExplained(s: Stage, d: seq<WaitEvent>, k: nat, m: nat)
  {
    && (s.Completed? <==> RepliesFirst(d, m))
    && (s.Stuck? ==> k < s.at && RepliesFirst(d, s.at - k - 1) && s.at - k - 1 < |d| && d[s.at - k - 1].Raised?)
    && (s.Awaiting? ==> k < s.at && RepliesFirst(d, s.at - k - 1) && |d| == s.at - k - 1)
  }

  /** The stage of the question loop from question index `k` and event `pos`,
      explained by the decisive events from `pos` on. */
  predicate Explained(questions: seq<string>, k: nat, waits: seq<WaitEvent>, pos: nat)
    requires k <= |questions| && pos <= |waits|
  {
    StageExplained(Ask(questions, k, waits, pos).1, Decisive(waits[pos..]), k, |questions| - k)
  }

  lemma {:induction false} AskOutcome(questions: seq<string>, k: nat, waits: seq<WaitEvent>, pos: nat)
    requires k <= |questions| && pos <= |waits|
    ensures Explained(questions, k, waits, pos)
    decreases |questions| - k
  {
    if k < |questions| {
      if AwaitReply(k + 1, waits, pos, false).1.Answered? {
        var next := AwaitReply(k + 1, waits, pos, false).1.next;
        AskOutcome(questions, k + 1, waits, next);
        AnsweredExplained(questions, k, waits, pos, next);
      } else {
        StoppedExplained(questions, k, waits, pos);
      }
    }
  }

  /** A reply in front of the decisive events moves the explanation one question back. */
  lemma StageExplainedCons(s: Stage, e: WaitEvent, d: seq<WaitEvent>, k: nat, m: nat)
    requires e.Reply? && StageExplained(s, d, k + 1, m)
    requires s.Completed? || ((s.Stuck? || s.Awaiting?) && k + 1 < s.at)
    ensures StageExplained(s, [e] + d, k, m + 1)
  {
    RepliesFirstCons(e, d, m);
    if s.Stuck? || s.Awaiting? {
      RepliesFirstCons(e, d, s.at - k - 2);
      if s.Stuck? {
        assert ([e] + d)[s.at - k - 1] == d[s.at - k - 2];
      }
    }
  }

  /** A question answered: the explanation from the next question on carries over. */
  lemma AnsweredExplained(questions: seq<string>, k: nat, waits: seq<WaitEvent>, pos: nat, next: nat)
    requires k < |questions| && pos <= |waits|
    requires AwaitReply(k + 1, waits, pos, false).1 == Answered(next)
    requires next <= |waits| && Explained(questions, k + 1, waits, next)
    ensures Explained(questions, k, waits, pos)
  {
    AwaitDecisive(k + 1, waits, pos, false);
    AskStage(questions, k + 1, waits, next);
    var s := Ask(questions, k + 1, waits, next).1;
    assert Ask(questions, k, waits, pos).1 == s by {
      AskStep(questions, k, waits, pos);
    }
    StageExplainedCons(s, waits[next - 1], Decisive(waits[next..]), k, |questions| - k - 1);
  }

  /** A question not answered: the loop stops at it. */
  lemma StoppedExplained(questions: seq<string>, k: nat, waits: seq<WaitEvent>, pos: nat)
    requires k < |questions| && pos <= |waits|
    requires !AwaitReply(k + 1, waits, pos, false).1.Answered?
    ensures Explained(questions, k, waits, pos)
  {
    AwaitDecisive(k + 1, waits, pos, false);
    assert Ask(questions, k, waits, pos).1 ==
      if AwaitReply(k + 1, waits, pos, false).1.Broken? then Stuck(k + 1) else Awaiting(k + 1) by {
      AskStep(questions, k, waits, pos);
    }
  }

  // ---------------------------------------------------------------------------
  // Reminders and timeouts

  /** The exact shape of the waits for one answer: when `reminded` is false
      (as at the start of every question) the first wait is bounded, the
      reminder comes right after it and only once, and every later wait is
      unbounded; when it is true, every wait is unbounded and no reminder comes. */
  predicate AwaitShape(number: nat, t: seq<Emit>, reminded: bool)
  {
    forall j :: 0 <= j < |t| ==>
      t[j] == if reminded || j >= 2 then Waiting(number, false)
              else if j == 0 then Waiting(number, true)
              else Reminder(number)
  }

  lemma {:induction false} AwaitReplyShape(number: nat, waits: seq<WaitEvent>, pos: nat, reminded: bool)
    requires pos <= |waits|
    ensures AwaitShape(number, AwaitReply(number, waits, pos, reminded).0, reminded)
    decreases |waits| - pos
  {
    if pos < |waits| && waits[pos].TimedOut? {
      AwaitReplyShape(number, waits, pos + 1, true);
      var rest := AwaitReply(number, waits, pos + 1, true).0;
      var t := AwaitReply(number, waits, pos, reminded).0;
      var head := [Waiting(number, !reminded)] + (if reminded then [] else [Reminder(number)]);
      assert t == head + rest;
      forall j | 0 <= j < |t|
        ensures t[j] == if reminded || j >= 2 then Waiting(number, false)
                        else if j == 0 then Waiting(number, true)
                        else Reminder(number)
      {
        if j >= |head| {
          assert t[j] == rest[j - |head|];
        }
      }
    }
  }

  /** A first wait that times out brings the one reminder; the reply then
      comes to the unbounded wait. */
  lemma TimeoutThenReply(number: nat, content: string)
    ensures AwaitReply(number, [TimedOut, Reply(content)], 0, false)
              == ([Waiting(number, true), Reminder(number), Waiting(number, false)], Answered(2))
  {
    var waits := [TimedOut, Reply(content)];
    AwaitStep(number, waits, 1, true);
    AwaitStep(number, waits, 0, false);
    assert [Waiting(number, true)] + [Reminder(number)] + [Waiting(number, false)]
        == [Waiting(number, true), Reminder(number), Waiting(number, false)];
  }

  /** Every question, reminder and wait in the trace of the question loop from
      index `k` on is about a question numbered above `k`. */
  predicate NumbersAbove(t: seq<Emit>, k: nat)
  {
    forall j :: 0 <= j < |t| && (t[j].Posted? || t[j].Waiting? || t[j].Reminder?) ==> t[j].number > k
  }

  /** A wait is bounded exactly when it comes right after its question is
      posted: `reminder_sent` starts false for every question. */
  predicate WaitsTimedPerQuestion(t: seq<Emit>)
  {
    forall j :: 0 <= j < |t| && t[j].Waiting? ==> 0 < j && (t[j].bounded <==> t[j - 1].Posted?)
  }

  /** A reminder follows a bounded wait (the one that timed out) for the same
      question. */
  predicate RemindersAfterTimeout(t: seq<Emit>)
  {
    forall j :: 0 <= j < |t| && t[j].Reminder? ==> 0 < j && t[j - 1] == Waiting(t[j].number, true)
  }

  /** Reminders name strictly increasing questions: at most one per question. */
  predicate OneReminderPerQuestion(t: seq<Emit>)
  {
    forall i, j :: 0 <= i < j < |t| && t[i].Reminder? && t[j].Reminder? ==> t[i].number < t[j].number
  }

  /** Every question, reminder and wait in `t` is about question `n`. */
  predicate NumbersAre(t: seq<Emit>, n: nat)
  {
    forall j :: 0 <= j < |t| && (t[j].Posted? || t[j].Waiting? || t[j].Reminder?) ==> t[j].number == n
  }

  /** The trace of one question: its post and the waits for its answer. */
  lemma QuestionBlockTiming(n: nat, text: string, await: seq<Emit>)
    requires AwaitShape(n, await, false)
    ensures var block := [Posted(n, text)] + await;
      && NumbersAre(block, n)
      && WaitsTimedPerQuestion(block)
      && RemindersAfterTimeout(block)
      && OneReminderPerQuestion(block)
  {
    var block := [Posted(n, text)] + await;
    assert forall j :: 0 <= j < |block| ==>
      block[j] == if j == 0 then Posted(n, text)
                  else if j == 1 then Waiting(n, true)
                  else if j == 2 then Reminder(n)
                  else Waiting(n, false);
  }

  /** The timing predicates survive concatenation, given that the reminders
      of the first part are about earlier questions than those of the second. */
  lemma TimingConcat(a: seq<Emit>, b: seq<Emit>, n: nat)
    requires WaitsTimedPerQuestion(a) && WaitsTimedPerQuestion(b)
    requires RemindersAfterTimeout(a) && RemindersAfterTimeout(b)
    requires OneReminderPerQuestion(a) && OneReminderPerQuestion(b)
    requires NumbersAre(a, n) && NumbersAbove(b, n)
    ensures WaitsTimedPerQuestion(a + b)
    ensures RemindersAfterTimeout(a + b)
    ensures OneReminderPerQuestion(a + b)
  {
    var t := a + b;
    forall j | 0 <= j < |t| && t[j].Waiting?
      ensures 0 < j && (t[j].bounded <==> t[j - 1].Posted?)
    {
      if j >= |a| {
        assert t[j] == b[j - |a|];
        if j > |a| { assert t[j - 1] == b[j - 1 - |a|]; }
      }
    }
    forall j | 0 <= j < |t| && t[j].Reminder?
      ensures 0 < j && t[j - 1] == Waiting(t[j].number, true)
    {
      if j >= |a| {
        assert t[j] == b[j - |a|];
        if j > |a| { assert t[j - 1] == b[j - 1 - |a|]; }
      }
    }
    forall i, j | 0 <= i < j < |t| && t[i].Reminder? && t[j].Reminder?
      ensures t[i].number < t[j].number
    {
      if j >= |a| { assert t[j] == b[j - |a|]; }
      if i >= |a| { assert t[i] == b[i - |a|]; }
    }
  }

  /** Numbers stay above a bound across concatenation. */
  lemma NumbersAboveConcat(a: seq<Emit>, b: seq<Emit>, n: nat, k: nat)
    requires NumbersAre(a, n) && k < n && NumbersAbove(b, k)
    ensures NumbersAbove(a + b, k)
  {
    var t := a + b;
    forall j | 0 <= j < |t| && (t[j].Posted? || t[j].Waiting? || t[j].Reminder?)
      ensures t[j].number > k
    {
      if j >= |a| { assert t[j] == b[j - |a|]; }
    }
  }

  /** The timing policy holds for the whole trace of the question loop: each
      question's first wait is bounded and its later ones are not, a reminder
      only follows a bounded wait that timed out, and no question gets two. */
  lemma {:induction false} AskTiming(questions: seq<string>, k: nat, waits: seq<WaitEvent>, pos: nat)
    requires k <= |questions| && pos <= |waits|
    ensures var t := Ask(questions, k, waits, pos).0;
      && NumbersAbove(t, k)
      && WaitsTimedPerQuestion(t)
      && RemindersAfterTimeout(t)
      && OneReminderPerQuestion(t)
    decreases |questions| - k
  {
    if k == |questions| {
      assert Ask(questions, k, waits, pos).0 == [CompletionPosted];
    } else {
      var n := k + 1;
      var await := AwaitReply(n, waits, pos, false);
      AwaitReplyShape(n, waits, pos, false);
      var block := [Posted(n, questions[k])] + await.0;
      QuestionBlockTiming(n, questions[k], await.0);
      var tail: seq<Emit>;
      match await.1 {
        case Answered(next) =>
          AskTiming(questions, k + 1, waits, next);
          tail := Ask(questions, k + 1, waits, next).0;
        case Broken(_) =>
          tail := [ChannelError];
        case Pending =>
          tail := [];
      }
      assert Ask(questions, k, waits, pos).0 == block + tail by {
        AskStep(questions, k, waits, pos);
        if await.1.Pending? { assert block + [] == block; }
      }
      TimingConcat(block, tail, n);
      NumbersAboveConcat(block, tail, n, k);
    }
  }

  // ---------------------------------------------------------------------------
  // Question numbering

  /** The question prompts in a trace, as numbered fields. */
  function Prompts(t: seq<Emit>): seq<Field>
  {
    if t == [] then []
    else (if t[0].Posted? then [Field(t[0].number, t[0].text)] else []) + Prompts(t[1..])
  }

  lemma {:induction false} PromptsConcat(a: seq<Emit>, b: seq<Emit>)
    ensures Prompts(a + b) == Prompts(a) + Prompts(b)
    decreases |a|
  {
    if a != [] {
      assert (a + b)[1..] == a[1..] + b;
      PromptsConcat(a[1..], b);
    } else {
      assert a + b == b;
    }
  }

  /** No prompt among the waits for one answer. */
  lemma {:induction false} AwaitReplyNoPrompts(number: nat, waits: seq<WaitEvent>, pos: nat, reminded: bool)
    requires pos <= |waits|
    ensures Prompts(AwaitReply(number, waits, pos, reminded).0) == []
    decreases |waits| - pos
  {
    if pos < |waits| && waits[pos].TimedOut? {
      AwaitReplyNoPrompts(number, waits, pos + 1, true);
      var head := [Waiting(number, !reminded)] + (if reminded then [] else [Reminder(number)]);
      PromptsConcat(head, AwaitReply(number, waits, pos + 1, true).0);
      assert Prompts(head) == [] by {
        if !reminded {
          assert head[1..] == [Reminder(number)];
          assert [Reminder(number)][1..] == [];
        } else {
          assert head[1..] == [];
        }
      }
    } else if pos < |waits| {
      assert [Waiting(number, !reminded)][1..] == [];
    }
  }

  /** Numbering a list from `from` numbers its head `from` and its tail from `from + 1`. */
  lemma NumberedCons(values: seq<string>, from: nat)
    requires values != []
    ensures Numbered(values, from) == [Field(from, values[0])] + Numbered(values[1..], from + 1)
  {
  }

  /** The questions of a run of the question loop from index `k` are posted in
      order, numbered from `k + 1`: all of them when the run completes, up to
      the one it stopped at otherwise. */
  predicate PromptsInOrder(questions: seq<string>, k: nat, run: (seq<Emit>, Stage))
    requires k <= |questions|
  {
    && (run.1.Completed? ==> Prompts(run.0) == Numbered(questions[k..], k + 1))
    && (run.1.Stuck? || run.1.Awaiting? ==>
          k < run.1.at <= |questions| && Prompts(run.0) == Numbered(questions[k..run.1.at], k + 1))
  }

  /** One question's post, its waits and the rest of the trace: the prompts
      are that question followed by the prompts of the rest. */
  lemma BlockPrompts(questions: seq<string>, k: nat, end: nat, await: seq<Emit>, tail: seq<Emit>)
    requires k < end <= |questions|
    requires Prompts(await) == [] && Prompts(tail) == Numbered(questions[k + 1..end], k + 2)
    ensures Prompts([Posted(k + 1, questions[k])] + await + tail) == Numbered(questions[k..end], k + 1)
  {
    var post := [Posted(k + 1, questions[k])];
    assert Prompts(post) == [Field(k + 1, questions[k])] by { assert post[1..] == []; }
    PromptsConcat(post, await);
    PromptsConcat(post + await, tail);
    NumberedCons(questions[k..end], k + 1);
    assert questions[k..end][1..] == questions[k + 1..end];
  }

  /** A question answered: the order of the rest of the run carries over. */
  lemma AnsweredPrompts(questions: seq<string>, k: nat, await: seq<Emit>, rest: (seq<Emit>, Stage))
    requires k < |questions| && Prompts(await) == []
    requires rest.1.Completed? || ((rest.1.Stuck? || rest.1.Awaiting?) && k + 1 < rest.1.at)
    requires PromptsInOrder(questions, k + 1, rest)
    ensures PromptsInOrder(questions, k, ([Posted(k + 1, questions[k])] + await + rest.0, rest.1))
  {
    var end := if rest.1.Completed? then |questions| else rest.1.at;
    BlockPrompts(questions, k, end, await, rest.0);
    assert rest.1.Completed? ==> questions[k..end] == questions[k..];
  }

  /** A question not answered: the run stops at it, with that question posted last. */
  lemma StoppedPrompts(questions: seq<string>, k: nat, await: seq<Emit>, tail: seq<Emit>, stage: Stage)
    requires k < |questions| && Prompts(await) == [] && Prompts(tail) == []
    requires stage == Stuck(k + 1) || stage == Awaiting(k + 1)
    ensures PromptsInOrder(questions, k, ([Posted(k + 1, questions[k])] + await + tail, stage))
  {
    BlockPrompts(questions, k, k + 1, await, tail);
  }

  /** The question at `k` answered: the order carries over from the rest of the run. */
  lemma AskPromptsAnswered(questions: seq<string>, k: nat, waits: seq<WaitEvent>, pos: nat, next: nat)
    requires k < |questions| && pos <= |waits|
    requires AwaitReply(k + 1, waits, pos, false).1 == Answered(next)
    requires PromptsInOrder(questions, k + 1, Ask(questions, k + 1, waits, next))
    ensures PromptsInOrder(questions, k, Ask(questions, k, waits, pos))
  {
    var await := AwaitReply(k + 1, waits, pos, false).0;
    AwaitReplyNoPrompts(k + 1, waits, pos, false);
    var rest := Ask(questions, k + 1, waits, next);
    assert Ask(questions, k, waits, pos) == ([Posted(k + 1, questions[k])] + await + rest.0, rest.1) by {
      AskStep(questions, k, waits, pos);
    }
    AskStage(questions, k + 1, waits, next);
    AnsweredPrompts(questions, k, await, rest);
  }

  /** The question at `k` not answered: the run stops with it posted last. */
  lemma AskPromptsStopped(questions: seq<string>, k: nat, waits: seq<WaitEvent>, pos: nat)
    requires k < |questions| && pos <= |waits|
    requires !AwaitReply(k + 1, waits, pos, false).1.Answered?
    ensures PromptsInOrder(questions, k, Ask(questions, k, waits, pos))
  {
    var await := AwaitReply(k + 1, waits, pos, false);
    AwaitReplyNoPrompts(k + 1, waits, pos, false);
    var block := [Posted(k + 1, questions[k])] + await.0;
    if await.1.Broken? {
      assert Ask(questions, k, waits, pos) == (block + [ChannelError], Stuck(k + 1)) by { AskStep(questions, k, waits, pos); }
      assert Prompts([ChannelError]) == [] by { assert [ChannelError][1..] == []; }
      StoppedPrompts(questions, k, await.0, [ChannelError], Stuck(k + 1));
    } else {
      assert Ask(questions, k, waits, pos) == (block + [], Awaiting(k + 1)) by {
        AskStep(questions, k, waits, pos);
        assert block + [] == block;
      }
      StoppedPrompts(questions, k, await.0, [], Awaiting(k + 1));
    }
  }

  lemma {:induction false} AskPrompts(questions: seq<string>, k: nat, waits: seq<WaitEvent>, pos: nat)
    requires k <= |questions| && pos <= |waits|
    ensures PromptsInOrder(questions, k, Ask(questions, k, waits, pos))
    decreases |questions| - k
  {
    if k == |questions| {
      assert Ask(questions, k, waits, pos).0 == [CompletionPosted];
      assert Prompts([CompletionPosted]) == [] by { assert [CompletionPosted][1..] == []; }
    } else if AwaitReply(k + 1, waits, pos, false).1.Answered? {
      var next := AwaitReply(k + 1, waits, pos, false).1.next;
      AskPrompts(questions, k + 1, waits, next);
      AskPromptsAnswered(questions, k, waits, pos, next);
    } else {
      AskPromptsStopped(questions, k, waits, pos);
    }
  }

  /** One step of the waits for an answer, as the method takes it. */
  lemma AwaitStep(number: nat, waits: seq<WaitEvent>, pos: nat, reminded: bool)
    requires pos < |waits|
    ensures var r := AwaitReply(number, waits, pos, reminded);
      var wait := [Waiting(number, !reminded)];
      match waits[pos]
      case Reply(_) => r == (wait, Answered(pos + 1))
      case Raised => r == (wait, Broken(pos))
      case TimedOut =>
        var rest := AwaitReply(number, waits, pos + 1, true);
        && r.1 == rest.1
        && r.0 == wait + (if reminded then [] else [Reminder(number)]) + rest.0
  {
  }

  /** One question of the loop, as the method takes it. */
  lemma AskStep(questions: seq<string>, k: nat, waits: seq<WaitEvent>, pos: nat)
    requires k < |questions| && pos <= |waits|
    ensures var await := AwaitReply(k + 1, waits, pos, false);
      var block := [Posted(k + 1, questions[k])] + await.0;
      var run := Ask(questions, k, waits, pos);
      match await.1
      case Answered(next) => run == (block + Ask(questions, k + 1, waits, next).0, Ask(questions, k + 1, waits, next).1)
      case Broken(_) => run == (block + [ChannelError], Stuck(k + 1))
      case Pending => run == (block, Awaiting(k + 1))
  {
  }

  /** The `while True` loop of lines 79-97 for question `number`, from event
      `pos` on: `reminder_sent` starts false, only a bounded wait can time out
      into the reminder, and the loop ends on a reply or an exception. */
  method AwaitAnswer(number: nat, waits: seq<WaitEvent>, pos: nat) returns (emitted: seq<Emit>, outcome: Wait)
    requires pos <= |waits|
    ensures (emitted, outcome) == AwaitReply(number, waits, pos, false)
  {
    var next := pos;
    var reminderSent := false;
    emitted := [];
    while true
      invariant pos <= next <= |waits|
      invariant AwaitReply(number, waits, pos, false).1 == AwaitReply(number, waits, next, reminderSent).1
      invariant AwaitReply(number, waits, pos, false).0 == emitted + AwaitReply(number, waits, next, reminderSent).0
      decreases |waits| - next
    {
      if next == |waits| {
        assert emitted + [] == emitted;
        return emitted, Pending;
      }
      var at := next;
      var wait := [Waiting(number, !reminderSent)];
      ghost var before := emitted;
      emitted := emitted + wait;
      match waits[at] {
        case Reply(_) =>
          assert AwaitReply(number, waits, at, reminderSent) == (wait, Answered(at + 1)) by {
            AwaitStep(number, waits, at, reminderSent);
          }
          return emitted, Answered(at + 1);
        case Raised =>
          assert AwaitReply(number, waits, at, reminderSent) == (wait, Broken(at)) by {
            AwaitStep(number, waits, at, reminderSent);
          }
          return emitted, Broken(at);
        case TimedOut =>
          var reminder := if reminderSent then [] else [Reminder(number)];
          ghost var rest := AwaitReply(number, waits, at + 1, true);
          assert AwaitReply(number, waits, at, reminderSent) == (wait + reminder + rest.0, rest.1) by {
            AwaitStep(number, waits, at, reminderSent);
          }
          emitted := emitted + reminder;
          ConcatAssoc(before, wait, reminder);
          ConcatAssoc(before + wait, reminder, rest.0);
          ConcatAssoc(before, wait + reminder, rest.0);
          next := at + 1;
          reminderSent := true;
      }
    }
  }

  /** The `for` loop of lines 67-106 over a non-empty question list and the
      completion post of lines 108-114. */
  method AskAll(questions: seq<string>, waits: seq<WaitEvent>) returns (stage: Stage, trace: seq<Emit>)
    ensures (trace, stage) == Ask(questions, 0, waits, 0)
  {
    trace := [];
    var k := 0;
    var pos := 0;
    while k < |questions|
      invariant 0 <= k <= |questions| && pos <= |waits|
      invariant Ask(questions, 0, waits, 0).0 == trace + Ask(questions, k, waits, pos).0
      invariant Ask(questions, 0, waits, 0).1 == Ask(questions, k, waits, pos).1
    {
      var number := k + 1;
      var emitted, outcome := AwaitAnswer(number, waits, pos);
      ghost var done := trace;
      trace := trace + ([Posted(number, questions[k])] + emitted);
      match outcome {
        case Answered(next) =>
          assert trace + Ask(questions, k + 1, waits, next).0 == done + Ask(questions, k, waits, pos).0
              && Ask(questions, k + 1, waits, next).1 == Ask(questions, k, waits, pos).1 by {
            AskStep(questions, k, waits, pos);
            ConcatAssoc(done, [Posted(number, questions[k])] + emitted, Ask(questions, k + 1, waits, next).0);
          }
          pos := next;
        case Broken(_) =>
          trace := trace + [ChannelError];
          assert trace == done + Ask(questions, k, waits, pos).0 && Ask(questions, k, waits, pos).1 == Stuck(number) by {
            AskStep(questions, k, waits, pos);
            ConcatAssoc(done, [Posted(number, questions[k])] + emitted, [ChannelError]);
          }
          return Stuck(number), trace;
        case Pending =>
          assert trace == done + Ask(questions, k, waits, pos).0 && Ask(questions, k, waits, pos).1 == Awaiting(number) by {
            AskStep(questions, k, waits, pos);
          }
          return Awaiting(number), trace;
      }
      k := k + 1;
    }
    trace := trace + [CompletionPosted];
    stage := Completed;
  }

  // ---------------------------------------------------------------------------
  // The button

  /** The "Start" / "View All Questions" view posted in an application channel. */
  class StartButton {
    const channel: ChannelId
    const user: User
    var questions: seq<string>
    var responses: map<nat, string>
    var started: bool

    function Fields(): Session
      reads this
    {
      Session(started, questions)
    }

    constructor (channel: ChannelId, user: User)
      ensures this.channel == channel && this.user == user
      ensures Fields() == Session(false, []) && responses == map[]
    {
      this.channel := channel;
      this.user := user;
      questions := [];
      responses := map[];
      started := false;
    }

    /** `StartButton.start_button`: the trace of what the bot sends, where the
        interview ends up, and on completion the Submit view it posts. */
    method Start(fetched: Option<seq<string>>, waits: seq<WaitEvent>)
      returns (stage: Stage, trace: seq<Emit>, submitView: SubmitButton?)
      modifies this
      ensures var run := StartClick(old(Fields()), fetched, waits);
        stage == run.stage && trace == run.trace && Fields() == run.after
      ensures responses == old(responses)
      ensures (submitView != null) <==> stage == Completed
      ensures submitView != null ==>
        && fresh(submitView)
        && submitView.questions == questions && submitView.responses == responses
        && submitView.user == user && submitView.channel == channel
    {
      submitView := null;
      if started {
        return Refused, [InProgressNotice], null;
      }
      started := true;
      if fetched.None? {
        started := false;
        return Failed, [FailureNotice], null;
      }
      questions := CollectQuestions(fetched.value);
      if questions == [] {
        return NoQuestions, [NoQuestionsNotice], null;
      }
      stage, trace := AskAll(questions, waits);
      if stage == Completed {
        submitView := new SubmitButton(questions, responses, user, channel);
      }
    }
  }
}
