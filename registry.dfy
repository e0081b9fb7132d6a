/**
 The application registry: the two module-level dictionaries
 `active_applications` (channel id to the set of applicant ids in it) and
 `active_channels` (user name to application channel), and the three handlers
 that change them in place: "Apply", the cleanup at the end of "Submit", and
 the 60-second countdown that deletes a channel nobody finished.
 */
module Registry {
  import opened Platform

  /** The contents of both dictionaries at one moment. */
  datatype Tables = Tables(applications: map<ChannelId, set<UserId>>, channels: map<string, ChannelId>)

  /** Every channel entry holds at least one applicant: an emptied set is
      deleted together with its key. */
  predicate NoEmptyEntries(t: Tables)
  {
    forall c :: c in t.applications ==> t.applications[c] != {}
  }

  /** The duplicate check of "Apply": some entry lists the user and its
      channel still exists in the guild. Entries of deleted channels do not count. */
  predicate HasLiveApplication(applications: map<ChannelId, set<UserId>>, live: set<ChannelId>, user: UserId)
  {
    exists c :: c in applications && user in applications[c] && c in live
  }

  /** The two assignments after the channel is created. */
  function Registered(t: Tables, channel: ChannelId, user: User): Tables
  {
    Tables(t.applications[channel := {user.id}], t.channels[user.name := channel])
  }

  /** The cleanup block: remove the user from the channel's set, drop the key
      once the set is empty, and forget the user's channel. `set.remove` raises
      when the key is present but the user is not in its set. */
  datatype Release = Released(tables: Tables) | NotInChannel

  function ReleaseOf(t: Tables, channel: ChannelId, user: User): Release
  {
    if channel in t.applications then
      if user.id !in t.applications[channel] then NotInChannel
      else
        var rest := t.applications[channel] - {user.id};
        var applications := if rest == {} then t.applications - {channel} else t.applications[channel := rest];
        Released(Tables(applications, t.channels - {user.name}))
    else
      Released(Tables(t.applications, t.channels - {user.name}))
  }

  /** Registering puts the user alone in the new channel's entry and points the
      user's name at it; every other key keeps its value. */
  lemma RegisteredEffect(t: Tables, channel: ChannelId, user: User)
    ensures var r := Registered(t, channel, user);
      && r.applications.Keys == t.applications.Keys + {channel}
      && r.applications[channel] == {user.id}
      && r.channels.Keys == t.channels.Keys + {user.name}
      && r.channels[user.name] == channel
      && (forall c :: c in t.applications && c != channel ==> r.applications[c] == t.applications[c])
      && (forall n :: n in t.channels && n != user.name ==> r.channels[n] == t.channels[n])
  {
  }

  /** The cleanup raises exactly when the channel has an entry without the
      user; otherwise afterwards the user is in neither dictionary's entry for
      it, the channel's other applicants stay, and no other key changes. */
  lemma ReleaseEffect(t: Tables, channel: ChannelId, user: User)
    ensures ReleaseOf(t, channel, user).NotInChannel? <==>
              channel in t.applications && user.id !in t.applications[channel]
    ensures ReleaseOf(t, channel, user).Released? ==>
      var r := ReleaseOf(t, channel, user).tables;
      && (channel in r.applications ==> r.applications[channel] == t.applications[channel] - {user.id})
      && (channel in t.applications && channel !in r.applications ==> t.applications[channel] == {user.id})
      && r.applications.Keys - {channel} == t.applications.Keys - {channel}
      && (forall c :: c in t.applications && c != channel ==> r.applications[c] == t.applications[c])
      && r.channels.Keys == t.channels.Keys - {user.name}
      && (forall n :: n in r.channels ==> r.channels[n] == t.channels[n])
    ensures ReleaseOf(t, channel, user).Released? && channel !in t.applications ==>
              ReleaseOf(t, channel, user).tables.applications == t.applications
  {
    if channel in t.applications && user.id in t.applications[channel] {
      var rest := t.applications[channel] - {user.id};
      if rest == {} {
        assert t.applications[channel] == {user.id};
      }
    }
  }

  /** Both updates keep every channel entry non-empty. */
  lemma {:induction false} TablesStayNonEmpty(t: Tables, channel: ChannelId, user: User)
    requires NoEmptyEntries(t)
    ensures NoEmptyEntries(Registered(t, channel, user))
    ensures ReleaseOf(t, channel, user).Released? ==> NoEmptyEntries(ReleaseOf(t, channel, user).tables)
  {
    var r := Registered(t, channel, user);
    assert forall c :: c in r.applications ==> user.id in r.applications[c] || r.applications[c] == t.applications[c];
  }

  /** A cleanup right after a registration in a fresh channel, for a user with
      no channel recorded, gives back the dictionaries as they were. */
  lemma ReleaseUndoesRegistered(t: Tables, channel: ChannelId, user: User)
    requires channel !in t.applications && user.name !in t.channels
    ensures ReleaseOf(Registered(t, channel, user), channel, user) == Released(t)
  {
    var r := Registered(t, channel, user);
    assert r.applications[channel] - {user.id} == {};
    assert r.applications - {channel} == t.applications;
    assert r.channels - {user.name} == t.channels;
  }

  /** After a registration in a channel that exists, the same user's next
      "Apply" is refused, and the refusal can point at that channel. */
  lemma SecondApplyRefused(t: Tables, channel: ChannelId, user: User, live: set<ChannelId>)
    requires channel in live
    ensures HasLiveApplication(Registered(t, channel, user).applications, live, user.id)
  {
    assert user.id in Registered(t, channel, user).applications[channel];
  }

  /** The loop of lines 242-252: look for an entry that lists the user and
      whose channel still exists. */
  method FindLiveApplication(applications: map<ChannelId, set<UserId>>, live: set<ChannelId>, user: UserId)
    returns (found: Option<ChannelId>)
    ensures found.None? <==> !HasLiveApplication(applications, live, user)
    ensures found.Some? ==> found.value in applications && user in applications[found.value] && found.value in live
  {
    var unvisited := applications.Keys;
    while unvisited != {}
      invariant unvisited <= applications.Keys
      invariant forall c :: c in applications && c !in unvisited ==> user !in applications[c] || c !in live
      decreases unvisited
    {
      var c :| c in unvisited;
      if user in applications[c] && c in live {
        return Some(c);
      }
      unvisited := unvisited - {c};
    }
    return None;
  }

  /** The title of the bot message that marks a finished interview. */
  const CompletionTitle: string := "Application Complete"

  /** A bot message whose first embed has the completion title. */
  predicate IsCompletionMarker(m: Message)
  {
    m.author == Bot && m.firstTitle == Some(CompletionTitle)
  }

  /** A bot message without an embed: `message.embeds[0]` raises on it. */
  predicate IsEmbedless(m: Message)
  {
    m.author == Bot && m.firstTitle.None?
  }

  /** Scanning `w` from its start meets a completion marker before any
      embedless bot message. */
  predicate MarkerFirst(w: seq<Message>)
  {
    exists i :: 0 <= i < |w| && IsCompletionMarker(w[i]) && forall j :: 0 <= j < i ==> !IsEmbedless(w[j])
  }

  /** Scanning `w` from its start meets an embedless bot message before any
      completion marker. */
  predicate EmbedlessFirst(w: seq<Message>)
  {
    exists i :: 0 <= i < |w| && IsEmbedless(w[i]) && forall j :: 0 <= j < i ==> !IsCompletionMarker(w[j])
  }

  /** `w` holds neither a completion marker nor an embedless bot message. */
  predicate Unmarked(w: seq<Message>)
  {
    forall i :: 0 <= i < |w| ==> !IsCompletionMarker(w[i]) && !IsEmbedless(w[i])
  }

  /** At most one of the three ways a scan can end describes a window. */
  lemma ScanCasesExclusive(w: seq<Message>)
    ensures MarkerFirst(w) ==> !EmbedlessFirst(w) && !Unmarked(w)
    ensures EmbedlessFirst(w) ==> !Unmarked(w)
  {
  }

  /** How the countdown's history scan ends. */
  datatype Scan =
    | MarkerFound   // returned early: the interview was finished
    | ScanRaised    // an embedless bot message came first; the handler swallows it
    | NoMarker      // the whole window holds no completion marker

  /** The scan of lines 337-340 over a channel history given newest first. */
  method ScanForCompletion(history: seq<Message>) returns (scan: Scan)
    ensures scan == MarkerFound <==> MarkerFirst(Window(history))
    ensures scan == ScanRaised <==> EmbedlessFirst(Window(history))
    ensures scan == NoMarker <==> Unmarked(Window(history))
  {
    var window := Window(history);
    ScanCasesExclusive(window);
    var i := 0;
    while i < |window|
      invariant 0 <= i <= |window|
      invariant forall j :: 0 <= j < i ==> !IsCompletionMarker(window[j]) && !IsEmbedless(window[j])
    {
      var message := window[i];
      if message.author == Bot {
        if message.firstTitle.None? {
          assert EmbedlessFirst(window) by { assert IsEmbedless(window[i]); }
          return ScanRaised;
        }
        if message.firstTitle.value == CompletionTitle {
          assert MarkerFirst(window) by { assert IsCompletionMarker(window[i]); }
          return MarkerFound;
        }
      }
      i := i + 1;
    }
    return NoMarker;
  }

  /** What "Apply" answers with. */
  datatype ApplyResult =
    | AlreadyActive(channel: ChannelId)               // "You already have an active application in ..."
    | MissingRole                                     // no "member" role
    | MissingCategory                                 // no "Apply" category
    | CreateFailed                                    // creating the channel raised
    | Opened(channel: ChannelId, countdown: bool)     // channel created and registered

  /** What the countdown did when it woke up. */
  datatype CountdownResult =
    | NotActive      // the user is no longer registered in the channel
    | ChannelGone    // reading the history raised NotFound: the channel was deleted
    | InterviewDone  // the completion marker was found
    | ScanAborted    // an embedless bot message raised; swallowed
    | Expired        // the user was unregistered and the channel deleted

  /** The two dictionaries, owned by the bot process. */
  class ApplicationRegistry {
    var applications: map<ChannelId, set<UserId>>
    var channels: map<string, ChannelId>

    function State(): Tables
      reads this
    {
      Tables(applications, channels)
    }

    ghost predicate Valid()
      reads this
    {
      NoEmptyEntries(State())
    }

    /** Both dictionaries start empty (lines 23-24). */
    constructor ()
      ensures Valid() && State() == Tables(map[], map[])
    {
      applications := map[];
      channels := map[];
    }

    /** `ApplyButton.apply_button`. `live` is the set of channels the guild
        still has, `hasMemberRole` and `hasApplyCategory` say whether the
        configuration exists, `created` is the id of the new channel (`None`
        when creating it raised) and `announced` whether the welcome message
        and the reply were sent, after which the countdown starts. */
    method Apply(user: User, live: set<ChannelId>, hasMemberRole: bool, hasApplyCategory: bool,
                 created: Option<ChannelId>, announced: bool) returns (r: ApplyResult)
      requires Valid()
      modifies this
      ensures Valid()
      ensures r.AlreadyActive? <==> HasLiveApplication(old(applications), live, user.id)
      ensures r.AlreadyActive? ==>
        r.channel in old(applications) && user.id in old(applications)[r.channel] && r.channel in live
      ensures r.MissingRole? <==> !HasLiveApplication(old(applications), live, user.id) && !hasMemberRole
      ensures r.MissingCategory? <==>
        !HasLiveApplication(old(applications), live, user.id) && hasMemberRole && !hasApplyCategory
      ensures r.CreateFailed? <==>
        !HasLiveApplication(old(applications), live, user.id) && hasMemberRole && hasApplyCategory && created.None?
      ensures r.Opened? ==> created == Some(r.channel) && r.countdown == announced
      ensures r.Opened? ==> State() == Registered(old(State()), r.channel, user)
      ensures !r.Opened? ==> State() == old(State())
    {
      var existing := FindLiveApplication(applications, live, user.id);
      if existing.Some? {
        return AlreadyActive(existing.value);
      }
      if !hasMemberRole {
        return MissingRole;
      }
      if !hasApplyCategory {
        return MissingCategory;
      }
      if created.None? {
        return CreateFailed;
      }
      var channel := created.value;
      TablesStayNonEmpty(State(), channel, user);
      applications := applications[channel := {user.id}];
      channels := channels[user.name := channel];
      return Opened(channel, announced);
    }

    /** The cleanup at the end of `SubmitButton.submit_button` (lines 216-221).
        `ok` is false when `set.remove` raised; then nothing changed. */
    method ReleaseOnSubmit(channel: ChannelId, user: User) returns (ok: bool)
      requires Valid()
      modifies this
      ensures Valid()
      ensures ok <==> ReleaseOf(old(State()), channel, user).Released?
      ensures ok ==> State() == ReleaseOf(old(State()), channel, user).tables
      ensures !ok ==> State() == old(State())
    {
      TablesStayNonEmpty(State(), channel, user);
      if channel in applications {
        if user.id !in applications[channel] {
          return false;
        }
        applications := applications[channel := applications[channel] - {user.id}];
        if applications[channel] == {} {
          applications := applications - {channel};
        }
      }
      if user.name in channels {
        channels := channels - {user.name};
      }
      ok := true;
    }

    /** `ApplyButton.start_countdown` once its 60 seconds are over. `history`
        is the channel's history newest first, `None` when the channel is gone. */
    method Countdown(channel: ChannelId, user: User, history: Option<seq<Message>>)
      returns (r: CountdownResult)
      requires Valid()
      modifies this
      ensures Valid()
      ensures r == NotActive <==> !(channel in old(applications) && user.id in old(applications)[channel])
      ensures r != NotActive ==> (r == ChannelGone <==> history.None?)
      ensures r == InterviewDone <==> r != NotActive && history.Some? && MarkerFirst(Window(history.value))
      ensures r == ScanAborted <==> r != NotActive && history.Some? && EmbedlessFirst(Window(history.value))
      ensures r == Expired <==> r != NotActive && history.Some? && Unmarked(Window(history.value))
      ensures r == Expired ==>
                && ReleaseOf(old(State()), channel, user).Released?
                && State() == ReleaseOf(old(State()), channel, user).tables
      ensures r != Expired ==> State() == old(State())
    {
      if !(channel in applications && user.id in applications[channel]) {
        return NotActive;
      }
      if history.None? {
        return ChannelGone;
      }
      var scan := ScanForCompletion(history.value);
      if scan == MarkerFound {
        return InterviewDone;
      }
      if scan == ScanRaised {
        return ScanAborted;
      }
      var ok := ReleaseOnSubmit(channel, user);
      return Expired;
    }
  }

  /** An applicant opens an application in an empty registry and never
      answers; when the countdown fires, the channel is deleted and the
      registry is empty again. */
  method NeverStartedScenario(user: User, channel: ChannelId) returns (applied: ApplyResult, outcome: CountdownResult, after: Tables)
    ensures applied == Opened(channel, true)
    ensures outcome == Expired && after == Tables(map[], map[])
  {
    var registry := new ApplicationRegistry();
    applied := registry.Apply(user, {}, true, true, Some(channel), true);
    assert applied == Opened(channel, true);
    var welcome := Message(Bot, Some("Welcome!"), "");
    assert welcome.firstTitle.value[0] != CompletionTitle[0];
    assert !IsCompletionMarker(welcome) && !IsEmbedless(welcome);
    outcome := registry.Countdown(channel, user, Some([welcome]));
    ReleaseUndoesRegistered(Tables(map[], map[]), channel, user);
    after := registry.State();
  }
}
