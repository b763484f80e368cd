/** When the end of a task is reported to the platform.  The exit callback reports only what
    taskMeta holds when it looks, and a launch stores that only after Connect: a task stopped
    before may end without any report. */
module TaskReports {
  import opened TaskPool
  import opened TaskPoolRuns

  /** The launch of this id stores its meta. */
  predicate Stores(s: Pool, e: Event, id: string) {
    e.StoreMeta? && e.instance in s.launching && s.launching[e.instance].item.sessionID == id
  }

  /** StartTaskSession fails for this id, before registration or in Connect. */
  predicate LaunchFails(s: Pool, e: Event, id: string) {
    || (e.StartRefused? && e.item.sessionID == id)
    || (e.ConnectFailed? && e.instance in s.launching && s.launching[e.instance].item.sessionID == id)
  }

  /** The session of this id is stopped, its exit callback started. */
  predicate Stops(s: Pool, e: Event, id: string) {
    && id in s.sessions
    && (e == StopSession(id) ||
        (e.PromptFailed? && e.instance in s.launching && s.launching[e.instance].item.sessionID == id))
  }

  /** StopDead removes the session of this id. */
  predicate RemovesDead(e: Event, id: string) {
    e.StopDeadSessions? && id in e.ids
  }

  /** No meta of this id was stored by the first k steps. */
  ghost predicate NotStoredBefore(states: seq<Pool>, events: seq<Event>, k: nat, id: string)
    requires k <= |events| < |states|
  {
    forall j | 0 <= j < k :: !Stores(states[j], events[j], id)
  }

  /** Step k is the exit callback of this id looking before any meta of it was stored. */
  ghost predicate LooksTooEarly(states: seq<Pool>, events: seq<Event>, k: nat, id: string)
    requires k < |events| < |states|
  {
    events[k] == ExitLookup(id) && NotStoredBefore(states, events, k, id)
  }

  /** No exit callback of this id still has to look, and no launch of it is in Connect. */
  predicate Settled(s: Pool, id: string) {
    s.exiting[id] == 0 && !Connects(s, id)
  }

  /** Ended, and no report made or to come. */
  predicate Unreported(s: Pool, id: string) {
    id in s.dispatched && Ended(s, id) == 1 && Settled(s, id) && Reported(s, id) == 0
  }

  // ----- the history behind the counters ------------------------------------------------------------------

  function Callbacks(s: Pool, id: string): nat {
    s.exiting[id] + s.found[id] + s.skipped[id] + s.results[id]
  }

  /** What a step adds to the history of an id. */
  predicate Counted(s: Pool, e: Event, s': Pool, id: string) {
    && (id in s'.stored <==> id in s.stored || Stores(s, e, id))
    && s'.errors[id] == s.errors[id] + Here(LaunchFails(s, e, id))
    && s'.skipped[id] == s.skipped[id] + Here(e == ExitLookup(id) && id !in s.meta)
    && Callbacks(s', id) == Callbacks(s, id) + Here(Stops(s, e, id) && IsTask(s.sessions[id]))
  }

  lemma StepCounted(s: Pool, e: Event, max: nat, id: string)
    requires Enabled(s, e)
    ensures Counted(s, e, After(s, e, max), id)
  {
    if OfLaunch(e) {
      LaunchCounted(s, e, max, id);
    } else if OfSession(e) {
      SessionCounted(s, e, max, id);
    } else if Passing(e) {
      PassingCounted(s, e, max, id);
    } else {
      match e
      case Assign(item) => AssignCounted(s, item, max, id);
      case StartRefused(item) => RefusedCounted(s, item, max, id);
      case StartTask(item, existing) => StartCounted(s, item, existing, max, id);
    }
  }

  lemma LaunchCounted(s: Pool, e: Event, max: nat, id: string)
    requires Enabled(s, e) && OfLaunch(e)
    ensures Counted(s, e, After(s, e, max), id)
  {
    match e
    case Connected(_) =>
    case ConnectFailed(i) => FailedCounted(s, i, max, id);
    case StoreMeta(_) =>
    case PromptSent(_) =>
    case PromptFailed(i) => StoppedCounted(s.(launching := s.launching - {i}), s.launching[i].item.sessionID, id);
  }

  lemma FailedCounted(s: Pool, i: nat, max: nat, id: string)
    requires Enabled(s, ConnectFailed(i))
    ensures Counted(s, ConnectFailed(i), After(s, ConnectFailed(i), max), id)
  {
  }

  lemma StoppedCounted(s: Pool, gone: string, id: string)
    ensures var s' := Stopped(s, gone);
            && s'.stored == s.stored && s'.errors == s.errors && s'.skipped == s.skipped
            && Callbacks(s', id) == Callbacks(s, id) + Here(gone == id && id in s.sessions && IsTask(s.sessions[id]))
  {
  }

  lemma SessionCounted(s: Pool, e: Event, max: nat, id: string)
    requires Enabled(s, e) && OfSession(e)
    ensures Counted(s, e, After(s, e, max), id)
  {
    match e
    case StartChat(chat, existing) => ChatCounted(s, chat, existing, max, id);
    case ChatConnected(_) =>
    case StopSession(gone) => StoppedCounted(s, gone, id);
    case StopDeadSessions(ids) => DeadCounted(s, ids, max, id);
    case ExitLookup(x) => LookupCounted(s, x, max, id);
    case ExitForget(x) => ForgetCounted(s, x, max, id);
    case SendReport(_) =>
  }

  lemma ChatCounted(s: Pool, chat: string, existing: Existing, max: nat, id: string)
    ensures var e := StartChat(chat, existing); Counted(s, e, After(s, e, max), id)
  {
  }

  lemma DeadCounted(s: Pool, ids: set<string>, max: nat, id: string)
    requires Enabled(s, StopDeadSessions(ids))
    ensures var e := StopDeadSessions(ids); Counted(s, e, After(s, e, max), id)
  {
  }

  lemma LookupCounted(s: Pool, x: string, max: nat, id: string)
    requires Enabled(s, ExitLookup(x))
    ensures Counted(s, ExitLookup(x), After(s, ExitLookup(x), max), id)
  {
    if x == id {
      LookupHere(s, id, max);
    } else {
      LookupElsewhere(s, x, max, id);
    }
  }

  lemma LookupHere(s: Pool, id: string, max: nat)
    requires Enabled(s, ExitLookup(id))
    ensures Counted(s, ExitLookup(id), After(s, ExitLookup(id), max), id)
  {
  }

  lemma LookupElsewhere(s: Pool, x: string, max: nat, id: string)
    requires Enabled(s, ExitLookup(x)) && x != id
    ensures Counted(s, ExitLookup(x), After(s, ExitLookup(x), max), id)
  {
  }

  lemma ForgetCounted(s: Pool, x: string, max: nat, id: string)
    requires Enabled(s, ExitForget(x))
    ensures Counted(s, ExitForget(x), After(s, ExitForget(x), max), id)
  {
  }

  lemma AssignCounted(s: Pool, item: Item, max: nat, id: string)
    ensures Counted(s, Assign(item), After(s, Assign(item), max), id)
  {
  }

  lemma RefusedCounted(s: Pool, item: Item, max: nat, id: string)
    requires Enabled(s, StartRefused(item))
    ensures Counted(s, StartRefused(item), After(s, StartRefused(item), max), id)
  {
  }

  predicate SameHistory(s: Pool, s': Pool) {
    && s'.stored == s.stored && s'.errors == s.errors && s'.skipped == s.skipped
    && s'.exiting == s.exiting && s'.found == s.found && s'.results == s.results
  }

  lemma StartTaskCounted(s: Pool, item: Item, existing: Existing, max: nat)
    ensures SameHistory(s, StartTaskStep(s, item, existing, max))
  {
    if !(item.sessionID in s.sessions && existing == Resumable) {
      if HasRoom(s.sessions, item.sessionID, max) {
      } else {
      }
    }
  }

  lemma SameHistoryCounted(s: Pool, e: Event, s': Pool, id: string)
    requires e.StartTask? && SameHistory(s, s')
    ensures Counted(s, e, s', id)
  {
  }

  lemma StartCounted(s: Pool, item: Item, existing: Existing, max: nat, id: string)
    requires Enabled(s, StartTask(item, existing))
    ensures Counted(s, StartTask(item, existing), After(s, StartTask(item, existing), max), id)
  {
    StartTaskCounted(s, item, existing, max);
    SameHistoryCounted(s, StartTask(item, existing), StartTaskStep(s, item, existing, max), id);
  }

  lemma PassingCounted(s: Pool, e: Event, max: nat, id: string)
    requires Enabled(s, e) && Passing(e)
    ensures Counted(s, e, After(s, e, max), id)
  {
    PassingKeepsRest(s, e, max);
    SameRestCounted(s, e, After(s, e, max), id);
  }

  lemma SameRestCounted(s: Pool, e: Event, s': Pool, id: string)
    requires Passing(e)
    requires s' == s.(arriving := s'.arriving, toQueue := s'.toQueue, toStart := s'.toStart, queue := s'.queue)
    ensures Counted(s, e, s', id)
  {
  }

  lemma RunCounted(max: nat, states: seq<Pool>, events: seq<Event>, k: nat, id: string)
    requires Run(max, states, events) && k < |events|
    ensures Counted(states[k], events[k], states[k + 1], id)
  {
    StepCounted(states[k], events[k], max, id);
  }

  lemma {:induction false} StoredIff(max: nat, states: seq<Pool>, events: seq<Event>, i: nat, id: string)
    requires Run(max, states, events) && i < |states|
    ensures id in states[i].stored <==> !NotStoredBefore(states, events, i, id)
  {
    if i > 0 {
      StoredIff(max, states, events, i - 1, id);
      RunCounted(max, states, events, i - 1, id);
    }
  }

  lemma {:induction false} ErrorsIff(max: nat, states: seq<Pool>, events: seq<Event>, i: nat, id: string)
    requires Run(max, states, events) && i < |states|
    ensures states[i].errors[id] > 0 <==> exists k | 0 <= k < i :: LaunchFails(states[k], events[k], id)
  {
    if i > 0 {
      ErrorsIff(max, states, events, i - 1, id);
      RunCounted(max, states, events, i - 1, id);
      assert LaunchFails(states[i - 1], events[i - 1], id) ==>
             exists k | 0 <= k < i :: LaunchFails(states[k], events[k], id);
    }
  }

  lemma DeadStep(s: Pool, e: Event, max: nat, id: string)
    requires Enabled(s, e)
    ensures After(s, e, max).dead[id] == s.dead[id] + Here(RemovesDead(e, id))
  {
    if e.StopDeadSessions? {
      RemovedAreDead(s, e.ids, max, id);
    } else if OfLaunch(e) {
      LaunchLeavesDead(s, e, max);
    } else if OfSession(e) {
      SessionLeavesDead(s, e, max);
    } else if Passing(e) {
      PassingKeepsRest(s, e, max);
    } else {
      HandsLeaveDead(s, e, max);
    }
  }

  lemma RemovedAreDead(s: Pool, ids: set<string>, max: nat, id: string)
    requires Enabled(s, StopDeadSessions(ids))
    ensures After(s, StopDeadSessions(ids), max).dead[id] == s.dead[id] + Here(id in ids)
  {
  }

  lemma LaunchLeavesDead(s: Pool, e: Event, max: nat)
    requires Enabled(s, e) && OfLaunch(e)
    ensures After(s, e, max).dead == s.dead
  {
    match e
    case Connected(_) =>
    case ConnectFailed(_) =>
    case StoreMeta(_) =>
    case PromptSent(_) =>
    case PromptFailed(_) =>
  }

  lemma SessionLeavesDead(s: Pool, e: Event, max: nat)
    requires Enabled(s, e) && OfSession(e) && !e.StopDeadSessions?
    ensures After(s, e, max).dead == s.dead
  {
    match e
    case StartChat(_, _) =>
    case ChatConnected(_) =>
    case StopSession(_) =>
    case ExitLookup(_) =>
    case ExitForget(_) =>
    case SendReport(_) =>
  }

  lemma HandsLeaveDead(s: Pool, e: Event, max: nat)
    requires Enabled(s, e) && (e.Assign? || e.StartRefused? || e.StartTask?)
    ensures After(s, e, max).dead == s.dead
  {
    match e
    case Assign(_) =>
    case StartRefused(_) =>
    case StartTask(item, existing) => StartLeavesDead(s, item, existing, max);
  }

  lemma StartLeavesDead(s: Pool, item: Item, existing: Existing, max: nat)
    ensures StartTaskStep(s, item, existing, max).dead == s.dead
  {
    if !(item.sessionID in s.sessions && existing == Resumable) {
      if HasRoom(s.sessions, item.sessionID, max) {
      } else {
      }
    }
  }

  lemma {:induction false} DeadIff(max: nat, states: seq<Pool>, events: seq<Event>, i: nat, id: string)
    requires Run(max, states, events) && i < |states|
    ensures states[i].dead[id] > 0 <==> exists k | 0 <= k < i :: RemovesDead(events[k], id)
  {
    if i > 0 {
      DeadIff(max, states, events, i - 1, id);
      DeadStep(states[i - 1], events[i - 1], max, id);
      assert RemovesDead(events[i - 1], id) ==> exists k | 0 <= k < i :: RemovesDead(events[k], id);
    }
  }

  /** The look-up finds meta if and only if it was stored before: only this callback takes it. */
  lemma LookupFinds(max: nat, states: seq<Pool>, events: seq<Event>, k: nat, id: string)
    requires FairRun(max, states, events) && k < |events| && events[k] == ExitLookup(id)
    ensures id in states[k].meta <==> !NotStoredBefore(states, events, k, id)
  {
    RunKeeps(max, states, events, k);
    StoredIff(max, states, events, k, id);
    assert AtId(states[k], id);
  }

  lemma SkippedStep(max: nat, states: seq<Pool>, events: seq<Event>, k: nat, id: string)
    requires FairRun(max, states, events) && k < |events|
    ensures states[k + 1].skipped[id] == states[k].skipped[id] + Here(LooksTooEarly(states, events, k, id))
  {
    RunCounted(max, states, events, k, id);
    if events[k] == ExitLookup(id) {
      LookupFinds(max, states, events, k, id);
    }
  }

  lemma {:induction false} SkippedIff(max: nat, states: seq<Pool>, events: seq<Event>, i: nat, id: string)
    requires FairRun(max, states, events) && i < |states|
    ensures states[i].skipped[id] > 0 <==> exists k | 0 <= k < i :: LooksTooEarly(states, events, k, id)
  {
    if i > 0 {
      SkippedIff(max, states, events, i - 1, id);
      SkippedStep(max, states, events, i - 1, id);
      assert LooksTooEarly(states, events, i - 1, id) ==>
             exists k | 0 <= k < i :: LooksTooEarly(states, events, k, id);
    }
  }

  // ----- the theorems ---------------------------------------------------------------------------------------

  /** An ended task has exactly one report, being prepared, about to be sent or sent, if and only
      if StopDead did not remove it and its launch failed, or it has a job and no exit callback
      of it looked before its meta was stored. */
  lemma EndedTaskIsReportedIff(max: nat, states: seq<Pool>, events: seq<Event>, i: nat, id: string)
    requires FairRun(max, states, events) && i < |states|
    requires id in states[i].dispatched && Ended(states[i], id) == 1 && Settled(states[i], id)
    ensures Reported(states[i], id) == 1 <==>
            && (forall k | 0 <= k < i :: !RemovesDead(events[k], id))
            && (|| (exists k | 0 <= k < i :: LaunchFails(states[k], events[k], id))
                || (&& states[i].dispatched[id].jobID != ""
                    && forall k | 0 <= k < i :: !LooksTooEarly(states, events, k, id)))
  {
    RunKeeps(max, states, events, i);
    RunSilent(max, states, events, i, id);
    ErrorsIff(max, states, events, i, id);
    SkippedIff(max, states, events, i, id);
    DeadIff(max, states, events, i, id);
    ReportsAdd(states[i], id);
  }

  /** The same on the counters. */
  lemma ReportsAdd(s: Pool, id: string)
    requires Inv(s) && DeadIsSilent(s, id) && id in s.dispatched && Ended(s, id) == 1 && Settled(s, id)
    ensures Reported(s, id) == 1 <==>
            s.dead[id] == 0 && (s.errors[id] > 0 || (s.dispatched[id].jobID != "" && s.skipped[id] == 0))
    ensures Reported(s, id) <= 1
  {
    assert AtId(s, id);
  }

  /** A callback still to look up was started by a stop. */
  lemma {:induction false} CallbackWasStarted(max: nat, states: seq<Pool>, events: seq<Event>, i: nat, id: string)
    requires Run(max, states, events) && i < |states|
    ensures Callbacks(states[i], id) > 0 ==> exists j | 0 <= j < i :: Stops(states[j], events[j], id)
  {
    if i > 0 {
      CallbackWasStarted(max, states, events, i - 1, id);
      RunCounted(max, states, events, i - 1, id);
      assert Stops(states[i - 1], events[i - 1], id) ==> exists j | 0 <= j < i :: Stops(states[j], events[j], id);
    }
  }

  /** The only ways to lose the report of a task with a job: StopDead removed it, or it was
      stopped after its registration and before its meta was stored. */
  lemma LostOnlyIfRemovedOrStoppedEarly(max: nat, states: seq<Pool>, events: seq<Event>, i: nat, id: string)
    requires FairRun(max, states, events) && i < |states|
    requires id in states[i].dispatched && states[i].dispatched[id].jobID != ""
    requires Ended(states[i], id) == 1 && Settled(states[i], id) && Reported(states[i], id) == 0
    ensures || (exists j | 0 <= j < i :: RemovesDead(events[j], id))
            || (exists j | 0 <= j < i :: Stops(states[j], events[j], id) && NotStoredBefore(states, events, j, id))
  {
    EndedTaskIsReportedIff(max, states, events, i, id);
    if forall k | 0 <= k < i :: !RemovesDead(events[k], id) {
      var k :| 0 <= k < i && LooksTooEarly(states, events, k, id);
      CallbackWasStarted(max, states, events, k, id);
      var j :| 0 <= j < k && Stops(states[j], events[j], id);
      assert NotStoredBefore(states, events, j, id);
    }
  }

  /** StopDead always does: whoever it removes is not reported. */
  lemma RemovedIsUnreported(max: nat, states: seq<Pool>, events: seq<Event>, k: nat, i: nat, id: string)
    requires FairRun(max, states, events) && k < i < |states| && RemovesDead(events[k], id)
    requires id in states[i].dispatched
    ensures Unreported(states[i], id)
  {
    RunKeeps(max, states, events, i);
    RunSilent(max, states, events, i, id);
    DeadIff(max, states, events, i, id);
    assert AtId(states[i], id);
  }

  // ----- a lost report stays lost ---------------------------------------------------------------------------

  lemma HandsKeepUnreported(s: Pool, e: Event, max: nat, id: string)
    requires Enabled(s, e) && Fair(s, e) && !OfLaunch(e) && !OfSession(e) && AtId(s, id) && Unreported(s, id)
    requires (e.StartRefused? || e.StartTask?) ==> OnlyDispatched(s, e.item)
    ensures Unreported(After(s, e, max), id)
  {
    match e
    case Assign(_) =>
    case PoolCheck(_) =>
    case EnqueueTask(_) =>
    case DequeueTask =>
    case StartRefused(_) =>
    case StartTask(item, existing) => StartKeepsUnreported(s, item, existing, max, id);
  }

  lemma StartKeepsUnreported(s: Pool, item: Item, existing: Existing, max: nat, id: string)
    requires item in s.toStart && OnlyDispatched(s, item) && AtId(s, id) && Unreported(s, id)
    ensures Unreported(StartTaskStep(s, item, existing, max), id)
  {
    assert item.sessionID != id;
    if !(item.sessionID in s.sessions && existing == Resumable) {
      if HasRoom(s.sessions, item.sessionID, max) {
      } else {
      }
    }
  }

  lemma LaunchKeepsUnreported(s: Pool, e: Event, max: nat, id: string)
    requires Enabled(s, e) && OfLaunch(e) && AtId(s, id) && Launches(s, e.instance) && Unreported(s, id)
    ensures Unreported(After(s, e, max), id)
  {
    match e
    case Connected(_) =>
    case ConnectFailed(_) =>
    case StoreMeta(_) =>
    case PromptSent(_) =>
    case PromptFailed(_) =>
  }

  lemma SessionKeepsUnreported(s: Pool, e: Event, max: nat, id: string)
    requires Enabled(s, e) && Fair(s, e) && OfSession(e) && AtId(s, id) && Unreported(s, id)
    ensures Unreported(After(s, e, max), id)
  {
    match e
    case StartChat(_, _) =>
    case ChatConnected(_) =>
    case StopSession(_) =>
    case StopDeadSessions(_) =>
    case ExitLookup(_) =>
    case ExitForget(_) =>
    case SendReport(_) =>
  }

  lemma StepKeepsUnreported(s: Pool, e: Event, max: nat, id: string)
    requires Inv(s) && Enabled(s, e) && Fair(s, e) && Unreported(s, id)
    ensures Unreported(After(s, e, max), id)
  {
    assert AtId(s, id);
    if OfLaunch(e) {
      assert Launches(s, e.instance);
      LaunchKeepsUnreported(s, e, max, id);
    } else if OfSession(e) {
      SessionKeepsUnreported(s, e, max, id);
    } else {
      assert (e.StartRefused? || e.StartTask?) ==> OnlyDispatched(s, e.item);
      HandsKeepUnreported(s, e, max, id);
    }
  }

  /** A task that ended unreported, removed by StopDead included, is not reported later either. */
  lemma {:induction false} UnreportedForEver(max: nat, states: seq<Pool>, events: seq<Event>, i: nat, j: nat,
                                             id: string)
    requires FairRun(max, states, events) && i <= j < |states| && Unreported(states[i], id)
    ensures Unreported(states[j], id)
  {
    if i < j {
      UnreportedForEver(max, states, events, i, j - 1, id);
      RunKeeps(max, states, events, j - 1);
      StepKeepsUnreported(states[j - 1], events[j - 1], max, id);
    }
  }

  // ----- a run that loses a report --------------------------------------------------------------------------

  function InHand(item: Item): Pool {
    EMPTY.(dispatched := map[item.sessionID := item], toStart := multiset{item})
  }

  function InConnect(item: Item): Pool {
    EMPTY.(dispatched := map[item.sessionID := item], nextInstance := 1,
           sessions := map[item.sessionID := Session(0, item.jobID, true, true)],
           launching := map[0 := Launch(item, Connecting)], launchOf := map[item.sessionID := 0])
  }

  function Gone(item: Item): Pool {
    InConnect(item).(sessions := map[], stopped := multiset{item.sessionID}, exiting := multiset{item.sessionID})
  }

  function TooEarly(item: Item): Pool {
    Gone(item).(exiting := multiset{}, skipped := multiset{item.sessionID})
  }

  function NowLive(item: Item): Pool {
    TooEarly(item).(launching := map[0 := Launch(item, Live)])
  }

  function NowStored(item: Item): Pool {
    TooEarly(item).(launching := map[0 := Launch(item, Stored)], meta := {item.sessionID}, stored := {item.sessionID})
  }

  function Prompted(item: Item): Pool {
    NowStored(item).(launching := map[])
  }

  predicate Goes(s: Pool, e: Event, s': Pool, max: nat) {
    Enabled(s, e) && Fair(s, e) && s' == After(s, e, max)
  }

  function JustAssigned(item: Item): Pool {
    EMPTY.(dispatched := map[item.sessionID := item], arriving := multiset{item})
  }

  lemma Assigned(item: Item, max: nat)
    ensures Goes(EMPTY, Assign(item), JustAssigned(item), max)
  {
  }

  lemma Checked(item: Item, max: nat)
    requires max > 0
    ensures Goes(JustAssigned(item), PoolCheck(item), InHand(item), max)
  {
    assert ActiveTasks(JustAssigned(item).sessions, "") == {};
  }

  lemma Launching(item: Item, max: nat)
    requires max > 0
    ensures Goes(InHand(item), StartTask(item, Replaceable), InConnect(item), max)
  {
    assert ActiveTasks(InHand(item).sessions, item.sessionID) == {};
  }

  lemma StoppedThen(item: Item, max: nat)
    requires item.jobID != ""
    ensures Goes(InConnect(item), StopSession(item.sessionID), Gone(item), max)
  {
    assert Remove(InConnect(item).sessions, item.sessionID) == map[];
  }

  lemma LookedUp(item: Item, max: nat)
    ensures Goes(Gone(item), ExitLookup(item.sessionID), TooEarly(item), max)
  {
  }

  lemma ConnectedThen(item: Item, max: nat)
    ensures Goes(TooEarly(item), Connected(0), NowLive(item), max)
  {
  }

  lemma StoredThen(item: Item, max: nat)
    ensures Goes(NowLive(item), StoreMeta(0), NowStored(item), max)
  {
  }

  lemma PromptedThen(item: Item, max: nat)
    ensures Goes(NowStored(item), PromptSent(0), Prompted(item), max)
  {
  }

  lemma PromptedIsUnreported(item: Item)
    ensures Unreported(Prompted(item), item.sessionID)
  {
  }

  function StateAfter(item: Item, k: nat): Pool {
    match k
    case 0 => EMPTY
    case 1 => JustAssigned(item)
    case 2 => InHand(item)
    case 3 => InConnect(item)
    case 4 => Gone(item)
    case 5 => TooEarly(item)
    case 6 => NowLive(item)
    case 7 => NowStored(item)
    case _ => Prompted(item)
  }

  /** Stopped in Connect, looked up at once, connected all the same. */
  function StoppedInConnect(item: Item, k: nat): Event {
    match k
    case 0 => Assign(item)
    case 1 => PoolCheck(item)
    case 2 => StartTask(item, Replaceable)
    case 3 => StopSession(item.sessionID)
    case 4 => ExitLookup(item.sessionID)
    case 5 => Connected(0)
    case 6 => StoreMeta(0)
    case _ => PromptSent(0)
  }

  lemma StoppedInConnectGoes(item: Item, max: nat, k: nat)
    requires item.jobID != "" && max > 0 && k < 8
    ensures Goes(StateAfter(item, k), StoppedInConnect(item, k), StateAfter(item, k + 1), max)
  {
    match k
    case 0 => Assigned(item, max);
    case 1 => Checked(item, max);
    case 2 => Launching(item, max);
    case 3 => StoppedThen(item, max);
    case 4 => LookedUp(item, max);
    case 5 => ConnectedThen(item, max);
    case 6 => StoredThen(item, max);
    case 7 => PromptedThen(item, max);
  }

  lemma StepsMakeRun(max: nat, states: seq<Pool>, events: seq<Event>)
    requires |states| == |events| + 1 && states[0] == EMPTY
    requires forall i | 0 <= i < |events| :: Goes(states[i], events[i], states[i + 1], max)
    ensures FairRun(max, states, events)
  {
    forall i | 0 <= i < |events|
      ensures Enabled(states[i], events[i]) && Fair(states[i], events[i])
      ensures states[i + 1] == After(states[i], events[i], max)
    {
      assert Goes(states[i], events[i], states[i + 1], max);
    }
  }

  function LosingStates(item: Item): seq<Pool> {
    seq(9, k requires k >= 0 => StateAfter(item, k))
  }

  function LosingEvents(item: Item): seq<Event> {
    seq(8, k requires k >= 0 => StoppedInConnect(item, k))
  }

  /** Whatever the pool size and the task, as long as it has a job. */
  lemma ReportCanBeLost(item: Item, max: nat)
    requires item.jobID != "" && max > 0
    ensures FairRun(max, LosingStates(item), LosingEvents(item))
    ensures Unreported(LosingStates(item)[8], item.sessionID)
  {
    forall k | 0 <= k < 8 ensures Goes(StateAfter(item, k), StoppedInConnect(item, k), StateAfter(item, k + 1), max) {
      StoppedInConnectGoes(item, max, k);
    }
    StepsMakeRun(max, LosingStates(item), LosingEvents(item));
    PromptedIsUnreported(item);
  }
}
