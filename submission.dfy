/**
 The submission: every message the submitter wrote in the application channel,
 read through a 100-message window, becomes one "Response i" field of the
 review artifact; then the registry forgets the application.
 */
module Submission {
  import opened Platform
  import opened Lists
  import opened Registry

  /** The test of line 183: the message was written by this user. */
  function WrittenBy(user: UserId): Message -> bool
  {
    (m: Message) => m.author == Person(user)
  }

  /** The contents of the messages, in order. */
  function Contents(messages: seq<Message>): seq<string>
  {
    seq(|messages|, i requires 0 <= i < |messages| => messages[i].content)
  }

  /** The contents of the user's messages, in the order of `messages`. */
  function AuthoredBy(messages: seq<Message>, user: UserId): seq<string>
  {
    Contents(Filter(messages, WrittenBy(user)))
  }

  /** The fields of the artifact AS WRITTEN: one field per message of the
      user in the window, numbered in the order the history yields them,
      newest first. `idx` lists the positions of those messages in the window. */
  function ResponseFields(history: seq<Message>, user: UserId): (fields: seq<Field>)
    ensures |fields| <= HistoryLimit
    ensures var w := Window(history);
      var idx := KeptIndices(w, WrittenBy(user));
      && |fields| == |idx|
      && (forall i :: 0 <= i < |fields| ==>
            idx[i] < |w| && w[idx[i]].author == Person(user) && fields[i] == Field(i + 1, w[idx[i]].content))
      && (forall i, j :: 0 <= i < j < |idx| ==> idx[i] < idx[j])
      && (forall k :: 0 <= k < |w| && w[k].author == Person(user) ==> k in idx)
  {
    FilterAtKeptIndices(Window(history), WrittenBy(user));
    Numbered(AuthoredBy(Window(history), user), 1)
  }

  /** The fields as evidently intended: the user's messages oldest first, so
      that "Response i" answers "Question i". */
  function ChronologicalFields(history: seq<Message>, user: UserId): seq<Field>
  {
    Numbered(Reverse(AuthoredBy(Window(history), user)), 1)
  }

  /** Reading the contents commutes with reversal. */
  lemma ContentsReverse(messages: seq<Message>)
    ensures Contents(Reverse(messages)) == Reverse(Contents(messages))
  {
  }

  /** The intended fields are the submitter's messages of the window taken
      oldest first: the order in which they were posted. */
  lemma ChronologicalFieldsOldestFirst(history: seq<Message>, user: UserId)
    ensures ChronologicalFields(history, user) == Numbered(AuthoredBy(Reverse(Window(history)), user), 1)
    ensures ChronologicalFields(history, user) == Numbered(Reverse(AuthoredBy(Window(history), user)), 1)
  {
    FilterReverse(Window(history), WrittenBy(user));
    ContentsReverse(Filter(Window(history), WrittenBy(user)));
  }

  /** The field lists as written and as intended hold the same answers in
      opposite orders. */
  lemma FieldOrdersOpposite(history: seq<Message>, user: UserId)
    ensures |ResponseFields(history, user)| == |ChronologicalFields(history, user)|
    ensures var n := |ResponseFields(history, user)|;
      forall i :: 0 <= i < n ==>
        ResponseFields(history, user)[i].value == ChronologicalFields(history, user)[n - 1 - i].value
  {
  }

  /** The two-question interview answered "Passion" then "Coding", as the
      channel history yields it: newest first. */
  function PassionCodingHistory(user: UserId): seq<Message>
  {
    [ Message(Person(user), None, "Coding"),
      Message(Bot, Some("Question 2"), ""),
      Message(Person(user), None, "Passion"),
      Message(Bot, Some("Question 1"), "") ]
  }

  /** The window is the whole history, and the user wrote its first and third messages. */
  lemma PassionCodingAnswers(user: UserId)
    ensures var h := PassionCodingHistory(user);
      Window(h) == h && Filter(h, WrittenBy(user)) == [h[0], h[2]]
  {
    var h := PassionCodingHistory(user);
    var p := WrittenBy(user);
    assert Window(h) == h;
    assert Filter(h, p) == [h[0], h[2]] by {
      assert h[..1][..0] == [];
      assert Filter(h[..1], p) == [h[0]];
      assert h[..2][..1] == h[..1];
      assert Filter(h[..2], p) == [h[0]];
      assert h[..3][..2] == h[..2];
      assert Filter(h[..3], p) == [h[0], h[2]];
      assert h[..4][..3] == h[..3];
    }
  }

  /** As written, "Response 1" holds the answer to the last question. */
  lemma ResponseFieldsNewestFirst(user: UserId)
    ensures ResponseFields(PassionCodingHistory(user), user) == [Field(1, "Coding"), Field(2, "Passion")]
  {
    PassionCodingAnswers(user);
  }

  /** As intended, "Response i" holds the answer to question i. */
  lemma ChronologicalFieldsInOrder(user: UserId)
    ensures ChronologicalFields(PassionCodingHistory(user), user) == [Field(1, "Passion"), Field(2, "Coding")]
  {
    PassionCodingAnswers(user);
  }

  /** The loop of lines 181-184 and the numbering of lines 191-196. */
  method CollectResponses(history: seq<Message>, user: UserId) returns (fields: seq<Field>)
    ensures fields == ResponseFields(history, user)
  {
    var window := Window(history);
    var messages := [];
    ghost var kept := [];
    var i := 0;
    while i < |window|
      invariant 0 <= i <= |window|
      invariant kept == Filter(window[..i], WrittenBy(user))
      invariant messages == Contents(kept)
    {
      var message := window[i];
      assert window[..i + 1][..i] == window[..i];
      if message.author == Person(user) {
        messages := messages + [message.content];
        kept := kept + [message];
      }
      i := i + 1;
    }
    assert window[..i] == window;
    fields := Numbered(messages, 1);
  }

  /** The correction of the order: the as-written fields of lines 181-196
      turned into the intended ones by reversing the collected values in place
      (the `messages.reverse()` that the loop lacks) and numbering them again. */
  method Chronological(fields: seq<Field>, ghost history: seq<Message>, ghost user: UserId) returns (r: seq<Field>)
    requires fields == ResponseFields(history, user)
    ensures r == ChronologicalFields(history, user)
  {
    NumberedValues(AuthoredBy(Window(history), user));
    var values := ReverseInPlace(Values(fields));
    r := Numbered(values, 1);
  }

  /** The values of the fields, in order. */
  function Values(fields: seq<Field>): (vs: seq<string>)
    ensures |vs| == |fields|
  {
    seq(|fields|, i requires 0 <= i < |fields| => fields[i].value)
  }

  /** Numbering keeps the values. */
  lemma NumberedValues(values: seq<string>)
    ensures Values(Numbered(values, 1)) == values
  {
  }

  /** What "Submit" ends with. */
  datatype SubmitResult =
    | Submitted(fields: seq<Field>)               // thread filed, confirmation posted, registry cleaned
    | SubmitFailed(filed: Option<seq<Field>>)     // the error notice; `filed` is the thread if one was made

  /** The "Submit" button that the interview posts when it is complete. */
  class SubmitButton {
    const questions: seq<string>
    const responses: map<nat, string>
    const user: User
    const channel: ChannelId

    constructor (questions: seq<string>, responses: map<nat, string>, user: User, channel: ChannelId)
      ensures this.questions == questions && this.responses == responses
      ensures this.user == user && this.channel == channel
    {
      this.questions := questions;
      this.responses := responses;
      this.user := user;
      this.channel := channel;
    }

    /** `SubmitButton.submit_button`, clicked by `clicker`. `history` is the
        application channel's history newest first, `None` when fetching the
        forum or the history raised; `threadCreated` says whether
        `create_thread` went through, and `confirmed` whether opening the
        channel to members and posting the confirmation then did. The
        artifact's fields are the corrected, oldest-first ones (see
        `ResponseFieldsNewestFirst` for the order as written). A failure after
        the thread was created reports the error with the thread already
        filed: `SubmitFailed(Some(fields))`. */
    method Submit(registry: ApplicationRegistry, clicker: UserId, history: Option<seq<Message>>,
                  threadCreated: bool, confirmed: bool)
      returns (r: SubmitResult)
      requires registry.Valid()
      modifies registry
      ensures registry.Valid()
      ensures history.None? || !threadCreated ==> r == SubmitFailed(None)
      ensures history.Some? && threadCreated && !confirmed ==>
        r == SubmitFailed(Some(ChronologicalFields(history.value, clicker)))
      ensures history.Some? && threadCreated && confirmed ==>
        var fields := ChronologicalFields(history.value, clicker);
        var release := ReleaseOf(old(registry.State()), channel, user);
        && (release.Released? ==> r == Submitted(fields) && registry.State() == release.tables)
        && (release.NotInChannel? ==> r == SubmitFailed(Some(fields)))
      ensures !r.Submitted? ==> registry.State() == old(registry.State())
    {
      if history.None? {
        return SubmitFailed(None);
      }
      var newestFirst := CollectResponses(history.value, clicker);
      var fields := Chronological(newestFirst, history.value, clicker);
      if !threadCreated {
        return SubmitFailed(None);
      }
      if !confirmed {
        return SubmitFailed(Some(fields));
      }
      var ok := registry.ReleaseOnSubmit(channel, user);
      if !ok {
        return SubmitFailed(Some(fields));
      }
      return Submitted(fields);
    }
  }
}
