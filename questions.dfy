/**
 The question list of an interview: the non-blank messages of the question
 channel, read newest first through a 100-message window and then reversed
 so that the interview asks them oldest first. `StartButton.start_button` and
 `StartButton.view_all_questions_button` build it with the same code.
 */
module Questions {
  import opened Platform
  import opened Lists

  /** The entries the loop keeps, in the order it visits them: those whose
      `strip()` is non-empty. */
  function NonBlankEntries(entries: seq<string>): seq<string>
  {
    Filter(entries, NonBlank)
  }

  /** The question list of the interview for a question-channel history given
      newest first: the non-blank entries of its 100-message window, reversed. */
  function QuestionList(history: seq<string>): (qs: seq<string>)
    ensures |qs| <= HistoryLimit
    ensures forall q :: q in qs <==> q in Window(history) && NonBlank(q)
  {
    FilterMembers(Window(history), NonBlank);
    ReverseMembers(NonBlankEntries(Window(history)));
    Reverse(NonBlankEntries(Window(history)))
  }

  /** Every question has a non-whitespace character. */
  lemma QuestionsNonBlank(history: seq<string>)
    ensures forall i :: 0 <= i < |QuestionList(history)| ==> NonBlank(QuestionList(history)[i])
  {
    var qs := QuestionList(history);
    forall i | 0 <= i < |qs| ensures NonBlank(qs[i]) {
      assert qs[i] in qs;
    }
  }

  /** The interview asks the non-blank entries of the window oldest first:
      the order in which they were posted. */
  lemma QuestionListOldestFirst(history: seq<string>)
    ensures QuestionList(history) == NonBlankEntries(Reverse(Window(history)))
  {
    FilterReverse(Window(history), NonBlank);
  }

  /** Lines 50-64: filter the window, then reverse it in place. */
  method CollectQuestions(history: seq<string>) returns (questions: seq<string>)
    ensures questions == QuestionList(history)
  {
    var kept := KeepNonBlank(Window(history));
    questions := ReverseInPlace(kept);
  }

  /** The loop of lines 50-53: append every entry whose `strip()` is non-empty. */
  method KeepNonBlank(window: seq<string>) returns (kept: seq<string>)
    ensures kept == NonBlankEntries(window)
  {
    kept := [];
    var i := 0;
    while i < |window|
      invariant 0 <= i <= |window|
      invariant kept == NonBlankEntries(window[..i])
    {
      var content := window[i];
      if NonBlank(content) {
        kept := kept + [content];
      }
      assert kept == NonBlankEntries(window[..i + 1]) by {
        FilterStep(window, i, NonBlank);
      }
      i := i + 1;
    }
    assert window[..i] == window;
  }

  /** What "View All Questions" answers with. */
  datatype QuestionsView =
    | Listed(fields: seq<Field>)   // one "Question i" field per question
    | NoQuestionsFound             // the "No questions found" notice
    | FetchFailed                  // the generic error notice

  /** `StartButton.view_all_questions_button`: `fetched` is the question
      channel's history, `None` when fetching it raised. */
  method ViewAllQuestions(fetched: Option<seq<string>>) returns (view: QuestionsView)
    ensures fetched.None? <==> view == FetchFailed
    ensures fetched.Some? ==> (view == NoQuestionsFound <==> QuestionList(fetched.value) == [])
    ensures view.Listed? ==> view.fields == Numbered(QuestionList(fetched.value), 1)
    ensures view.Listed? ==> 1 <= |view.fields| <= HistoryLimit
    ensures view.Listed? ==> forall i :: 0 <= i < |view.fields| ==> view.fields[i].number == i + 1
  {
    if fetched.None? {
      return FetchFailed;
    }
    var questions := CollectQuestions(fetched.value);
    if questions == [] {
      return NoQuestionsFound;
    }
    view := Listed(Numbered(questions, 1));
  }
}
