/** What the task pool keeps over every interleaving of dispatch, drain, connect success and
    failure, replacement, stop, exit callback and report. */
module TaskPoolRuns {
  import opened TaskPool

  // ----- the bound -------------------------------------------------------------------------------

  predicate WithinBound(s: Pool, max: nat) {
    |ActiveTasks(s.sessions, "")| <= max
  }

  lemma Fewer(sessions: Sessions, sessions': Sessions)
    requires ActiveTasks(sessions', "") <= ActiveTasks(sessions, "")
    ensures |ActiveTasks(sessions', "")| <= |ActiveTasks(sessions, "")|
  {
    var a, b := ActiveTasks(sessions', ""), ActiveTasks(sessions, "");
    assert b == a + (b - a);
  }

  lemma RegisteredBound(s: Pool, item: Item, max: nat)
    requires HasRoom(s.sessions, item.sessionID, max)
    ensures |ActiveTasks(Registered(s, item).sessions, "")| <= max
  {
    var after := ActiveTasks(Registered(s, item).sessions, "");
    var others := ActiveTasks(s.sessions, item.sessionID);
    assert after <= others + {item.sessionID};
    assert |others + {item.sessionID}| <= |others| + 1;
    SubsetSmaller(after, others + {item.sessionID});
  }

  lemma SubsetSmaller<T>(a: set<T>, b: set<T>)
    requires a <= b
    ensures |a| <= |b|
  {
    assert b == a + (b - a);
  }

  lemma StartTaskBound(s: Pool, item: Item, existing: Existing, max: nat)
    requires WithinBound(s, max)
    ensures WithinBound(StartTaskStep(s, item, existing, max), max)
  {
    if !(item.sessionID in s.sessions && existing == Resumable) && HasRoom(s.sessions, item.sessionID, max) {
      RegisteredBound(s, item, max);
    } else {
      Fewer(s.sessions, StartTaskStep(s, item, existing, max).sessions);
    }
  }

  predicate ChangesSessions(e: Event) {
    e.StartChat? || e.ChatConnected? || e.Connected? || e.ConnectFailed? || e.PromptFailed? || e.StopSession? ||
    e.StopDeadSessions?
  }

  lemma BoundKeeps(s: Pool, e: Event, max: nat)
    requires WithinBound(s, max) && Enabled(s, e)
    ensures WithinBound(After(s, e, max), max)
  {
    if e.StartTask? {
      StartTaskBound(s, e.item, e.existing, max);
    } else if ChangesSessions(e) {
      NoNewTask(s, e, max);
      Fewer(s.sessions, After(s, e, max).sessions);
    } else {
      SessionsStay(s, e, max);
    }
  }

  lemma NoNewTask(s: Pool, e: Event, max: nat)
    requires Enabled(s, e) && ChangesSessions(e)
    ensures ActiveTasks(After(s, e, max).sessions, "") <= ActiveTasks(s.sessions, "")
  {
  }

  lemma SessionsStay(s: Pool, e: Event, max: nat)
    requires Enabled(s, e) && !e.StartTask? && !ChangesSessions(e)
    ensures After(s, e, max).sessions == s.sessions
  {
    if e.PoolCheck? {
      CheckLeavesSessions(s, e.item, max);
    } else {
      match e
      case Assign(_) =>
      case EnqueueTask(_) =>
      case DequeueTask =>
      case StartRefused(_) =>
      case StoreMeta(_) =>
      case PromptSent(_) =>
      case ExitLookup(_) =>
      case ExitForget(_) =>
      case SendReport(_) =>
    }
  }

  lemma CheckLeavesSessions(s: Pool, item: Item, max: nat)
    requires Enabled(s, PoolCheck(item))
    ensures After(s, PoolCheck(item), max).sessions == s.sessions
  {
  }

  // ----- where a task is ---------------------------------------------------------------------------

  function InQueue(queue: seq<Item>, item: Item): nat {
    if queue == [] then 0 else (if queue[0] == item then 1 else 0) + InQueue(queue[1..], item)
  }

  lemma {:induction false} InQueueAppend(queue: seq<Item>, x: Item, item: Item)
    ensures InQueue(queue + [x], item) == InQueue(queue, item) + (if x == item then 1 else 0)
  {
    if queue == [] {
      assert queue + [x] == [x];
    } else {
      InQueueAppend(queue[1..], x, item);
      assert (queue + [x])[1..] == queue[1..] + [x];
    }
  }

  function Held(s: Pool, item: Item): nat {
    s.arriving[item] + s.toQueue[item] + s.toStart[item] + InQueue(s.queue, item)
  }

  function Here(b: bool): nat {
    if b then 1 else 0
  }

  function Ended(s: Pool, id: string): nat {
    s.stopped[id] + s.dead[id] + s.failed[id]
  }

  /** Terminal reports of a task: being prepared, about to be sent, or sent. */
  function Reported(s: Pool, id: string): nat {
    s.found[id] + s.sending[id] + s.reports[id]
  }

  /** A dispatched task is in exactly one place: in a dispatcher's or drainer's hand or the
      queue, registered, or ended; and its session carries its job. */
  predicate OnePlace(s: Pool, id: string) {
    id in s.dispatched ==>
      var item := s.dispatched[id];
      && item.sessionID == id
      && Held(s, item) + Here(id in s.sessions) + Ended(s, id) == 1
      && (id in s.sessions ==> s.sessions[id].jobID == item.jobID)
  }

  /** Ids of tasks and of chats are apart, and of other ids there is no trace. */
  predicate KnownId(s: Pool, id: string) {
    && (id in s.sessions ==> id in s.dispatched || id in s.chats)
    && !(id in s.dispatched && id in s.chats)
    && (id !in s.dispatched && id !in s.chats ==> Ended(s, id) == 0)
    && (id !in s.dispatched ==> NoTrace(s, id))
  }

  predicate NoTrace(s: Pool, id: string) {
    && (id in s.sessions ==> s.sessions[id].jobID == "")
    && s.failed[id] == s.exiting[id] == s.found[id] == s.skipped[id] == s.results[id] == s.errors[id] == 0
    && s.sending[id] == s.reports[id] == 0
    && id !in s.meta && id !in s.stored && id !in s.launchOf
  }

  /** Each stop of a task with a job started one exit callback, each launch error and each meta
      taken made one report, and nothing else did. */
  predicate Reports(s: Pool, id: string) {
    id in s.dispatched ==>
      && s.exiting[id] + s.found[id] + s.skipped[id] + s.results[id]
         == (if s.dispatched[id].jobID != "" then s.stopped[id] else 0)
      && s.sending[id] + s.reports[id] == s.errors[id] + s.results[id]
      && s.failed[id] <= s.errors[id] <= 1
      && (s.errors[id] == 1 ==> id !in s.stored && Ended(s, id) == 1)
      && (s.found[id] + s.results[id] > 0 ==> id in s.stored)
      && (id in s.meta <==> id in s.stored && s.results[id] == 0)
  }

  /** A task is launched once, when it leaves the hands for the map. */
  predicate Launched(s: Pool, id: string) {
    id in s.dispatched ==>
      && (Held(s, s.dispatched[id]) > 0 ==> id !in s.launchOf)
      && (id in s.sessions ==> id in s.launchOf)
      && (id in s.launchOf ==> s.launchOf[id] < s.nextInstance)
      && (id !in s.launchOf ==> id !in s.stored && s.stopped[id] == s.dead[id] == 0)
  }

  predicate AtId(s: Pool, id: string) {
    OnePlace(s, id) && KnownId(s, id) && Reports(s, id) && Launched(s, id)
  }

  /** Tasks never dispatched are in nobody's hand. */
  predicate OnlyDispatched(s: Pool, item: Item) {
    Held(s, item) > 0 ==> item.sessionID in s.dispatched && s.dispatched[item.sessionID] == item
  }

  predicate Launches(s: Pool, i: nat) {
    i in s.launching ==>
      var item := s.launching[i].item;
      var id := item.sessionID;
      && i < s.nextInstance
      && id in s.dispatched && s.dispatched[id] == item && id in s.launchOf && s.launchOf[id] == i
      && (s.launching[i].phase == Stored <==> id in s.stored)
      && s.errors[id] == 0
  }

  ghost predicate Inv(s: Pool) {
    && (forall id :: AtId(s, id))
    && (forall item :: OnlyDispatched(s, item))
    && (forall i: nat :: Launches(s, i))
  }

  /** Task ids are new and not used by chats. */
  predicate Fair(s: Pool, e: Event) {
    match e
    case Assign(item) => item.sessionID !in s.dispatched && item.sessionID !in s.chats
    case StartChat(id, _) => id !in s.dispatched
    case _ => true
  }

  // ----- passing a task between hands and queue -------------------------------------------------------

  predicate Passing(e: Event) {
    e.PoolCheck? || e.EnqueueTask? || e.DequeueTask?
  }

  lemma PassingKeepsHeld(s: Pool, e: Event, max: nat, item: Item)
    requires Enabled(s, e) && Passing(e)
    ensures Held(After(s, e, max), item) == Held(s, item)
  {
    match e
    case EnqueueTask(x) => EnqueueKeepsHeld(s, max, x, item);
    case DequeueTask => DequeueKeepsHeld(s, max, item);
    case PoolCheck(x) => CheckKeepsHeld(s, max, x, item);
  }

  lemma EnqueueKeepsHeld(s: Pool, max: nat, x: Item, item: Item)
    requires Enabled(s, EnqueueTask(x))
    ensures Held(After(s, EnqueueTask(x), max), item) == Held(s, item)
  {
    InQueueAppend(s.queue, x, item);
  }

  lemma CheckKeepsHeld(s: Pool, max: nat, x: Item, item: Item)
    requires Enabled(s, PoolCheck(x))
    ensures Held(After(s, PoolCheck(x), max), item) == Held(s, item)
  {
  }

  lemma DequeueKeepsHeld(s: Pool, max: nat, item: Item)
    requires Enabled(s, DequeueTask)
    ensures Held(After(s, DequeueTask, max), item) == Held(s, item)
  {
  }

  lemma PassingKeepsRest(s: Pool, e: Event, max: nat)
    requires Enabled(s, e) && Passing(e)
    ensures var s' := After(s, e, max);
            s' == s.(arriving := s'.arriving, toQueue := s'.toQueue, toStart := s'.toStart, queue := s'.queue)
  {
  }

  /** The invariant looks at hands and queue only through Held. */
  lemma SameHeld(s: Pool, s': Pool)
    requires Inv(s) && forall item :: Held(s', item) == Held(s, item)
    requires s' == s.(arriving := s'.arriving, toQueue := s'.toQueue, toStart := s'.toStart, queue := s'.queue)
    ensures Inv(s')
  {
    forall id ensures AtId(s', id) {
      SameHeldAt(s, s', id);
    }
    forall item ensures OnlyDispatched(s', item) {
      assert OnlyDispatched(s, item);
    }
    forall i: nat ensures Launches(s', i) {
      assert Launches(s, i);
    }
  }

  lemma SameHeldAt(s: Pool, s': Pool, id: string)
    requires AtId(s, id) && (id in s.dispatched ==> Held(s', s.dispatched[id]) == Held(s, s.dispatched[id]))
    requires s' == s.(arriving := s'.arriving, toQueue := s'.toQueue, toStart := s'.toStart, queue := s'.queue)
    ensures AtId(s', id)
  {
  }

  lemma PassingKeeps(s: Pool, e: Event, max: nat)
    requires Inv(s) && Enabled(s, e) && Passing(e)
    ensures Inv(After(s, e, max))
  {
    var s' := After(s, e, max);
    forall item ensures Held(s', item) == Held(s, item) {
      PassingKeepsHeld(s, e, max, item);
    }
    PassingKeepsRest(s, e, max);
    SameHeld(s, s');
  }

  // ----- assignment, refusal, registration ---------------------------------------------------------------

  lemma AssignKeeps(s: Pool, item: Item, max: nat)
    requires Inv(s) && Fair(s, Assign(item))
    ensures Inv(After(s, Assign(item), max))
  {
    var s' := After(s, Assign(item), max);
    forall x ensures OnlyDispatched(s', x) {
      assert OnlyDispatched(s, x);
    }
    forall id ensures AtId(s', id) {
      assert AtId(s, id) && OnlyDispatched(s, item);
      AssignAt(s, item, max, id);
    }
    forall i: nat ensures Launches(s', i) {
      assert Launches(s, i);
    }
  }

  lemma AssignAt(s: Pool, item: Item, max: nat, id: string)
    requires AtId(s, id) && Fair(s, Assign(item)) && OnlyDispatched(s, item)
    ensures AtId(After(s, Assign(item), max), id)
  {
  }

  lemma RefusedKeeps(s: Pool, item: Item, max: nat)
    requires Inv(s) && item in s.toStart
    ensures Inv(After(s, StartRefused(item), max))
  {
    var s' := After(s, StartRefused(item), max);
    assert OnlyDispatched(s, item);
    forall x ensures OnlyDispatched(s', x) {
      assert OnlyDispatched(s, x);
    }
    forall id ensures AtId(s', id) {
      assert AtId(s, id);
      RefusedAt(s, item, max, id);
    }
    forall i: nat ensures Launches(s', i) {
      assert Launches(s, i) && AtId(s, item.sessionID);
    }
  }

  lemma RefusedAt(s: Pool, item: Item, max: nat, id: string)
    requires AtId(s, id) && item in s.toStart && OnlyDispatched(s, item)
    ensures AtId(After(s, StartRefused(item), max), id)
  {
  }

  /** With distinct ids StartTask finds no session of its id: it registers one, or hands the
      task back for the queue. */
  lemma StartTaskMeaning(s: Pool, item: Item, existing: Existing, max: nat)
    requires Inv(s) && item in s.toStart
    ensures item.sessionID in s.dispatched && s.dispatched[item.sessionID] == item && item.sessionID !in s.sessions
    ensures var s' := StartTaskStep(s, item, existing, max);
            s' == if HasRoom(s.sessions, item.sessionID, max) then WithTask(s, item)
                  else s.(toStart := s.toStart - multiset{item}, toQueue := s.toQueue + multiset{item})
  {
    assert OnlyDispatched(s, item);
    assert AtId(s, item.sessionID);
    var s1 := s.(toStart := s.toStart - multiset{item});
    if HasRoom(s.sessions, item.sessionID, max) {
      NewTaskIsRegistered(s1, item);
    } else {
      NewTaskIsQueued(s1, item);
    }
  }

  lemma NewTaskIsQueued(s: Pool, item: Item)
    requires item.sessionID !in s.sessions
    ensures PoolFull(s, item) == s.(toQueue := s.toQueue + multiset{item})
  {
    assert Remove(s.sessions, item.sessionID) == s.sessions;
    assert s.stopped + multiset{} == s.stopped;
  }

  lemma NewTaskIsRegistered(s: Pool, item: Item)
    requires item.sessionID !in s.sessions
    ensures Registered(s, item) ==
            s.(nextInstance := s.nextInstance + 1,
               sessions := s.sessions[item.sessionID := Session(s.nextInstance, item.jobID, true, true)],
               launching := s.launching[s.nextInstance := Launch(item, Connecting)],
               launchOf := s.launchOf[item.sessionID := s.nextInstance])
  {
    assert s.stopped + multiset{} == s.stopped;
  }

  /** The task has left the hand for the map, and its launch is in Connect. */
  function WithTask(s: Pool, item: Item): Pool {
    s.(toStart := s.toStart - multiset{item}, nextInstance := s.nextInstance + 1,
       sessions := s.sessions[item.sessionID := Session(s.nextInstance, item.jobID, true, true)],
       launching := s.launching[s.nextInstance := Launch(item, Connecting)],
       launchOf := s.launchOf[item.sessionID := s.nextInstance])
  }

  lemma RegisteredKeeps(s: Pool, item: Item)
    requires Inv(s) && item in s.toStart && item.sessionID in s.dispatched && s.dispatched[item.sessionID] == item
    requires item.sessionID !in s.sessions
    ensures Inv(WithTask(s, item))
  {
    var s' := WithTask(s, item);
    forall x ensures OnlyDispatched(s', x) {
      assert OnlyDispatched(s, x);
    }
    forall id ensures AtId(s', id) {
      assert AtId(s, id);
      RegisteredAt(s, item, id);
    }
    forall i: nat ensures Launches(s', i) {
      assert Launches(s, i) && AtId(s, item.sessionID);
    }
  }

  lemma RegisteredAt(s: Pool, item: Item, id: string)
    requires AtId(s, id) && item in s.toStart && item.sessionID !in s.sessions
    requires item.sessionID in s.dispatched && s.dispatched[item.sessionID] == item
    ensures AtId(WithTask(s, item), id)
  {
  }

  lemma StartTaskKeeps(s: Pool, item: Item, existing: Existing, max: nat)
    requires Inv(s) && item in s.toStart
    ensures Inv(StartTaskStep(s, item, existing, max))
  {
    StartTaskMeaning(s, item, existing, max);
    if HasRoom(s.sessions, item.sessionID, max) {
      RegisteredKeeps(s, item);
    } else {
      var s' := s.(toStart := s.toStart - multiset{item}, toQueue := s.toQueue + multiset{item});
      assert forall x :: Held(s', x) == Held(s, x);
      SameHeld(s, s');
    }
  }

  // ----- the steps that leave hands and queue alone ------------------------------------------------------

  /** What is left to prove for a step that touches neither hands nor queue. */
  lemma HandsStay(s: Pool, s': Pool)
    requires Inv(s) && (forall id :: AtId(s', id)) && (forall i: nat :: Launches(s', i))
    requires SameHands(s, s')
    ensures Inv(s')
  {
    forall x ensures OnlyDispatched(s', x) {
      assert OnlyDispatched(s, x);
    }
  }

  predicate OfLaunch(e: Event) {
    e.Connected? || e.ConnectFailed? || e.StoreMeta? || e.PromptSent? || e.PromptFailed?
  }

  predicate OfSession(e: Event) {
    e.StartChat? || e.ChatConnected? || e.StopSession? || e.StopDeadSessions? || e.ExitLookup? || e.ExitForget? ||
    e.SendReport?
  }

  lemma LaunchStepAt(s: Pool, e: Event, max: nat, id: string)
    requires OfLaunch(e) && Enabled(s, e) && AtId(s, id) && Launches(s, e.instance)
    ensures AtId(After(s, e, max), id)
  {
    match e
    case Connected(i) => ConnectedAt(s, i, max, id);
    case ConnectFailed(i) => ConnectFailedAt(s, i, max, id);
    case StoreMeta(i) => StoreMetaAt(s, i, max, id);
    case PromptSent(_) =>
    case PromptFailed(i) => StoppedAt(s.(launching := s.launching - {i}), s.launching[i].item.sessionID, id);
  }

  lemma ConnectedAt(s: Pool, i: nat, max: nat, id: string)
    requires Enabled(s, Connected(i)) && AtId(s, id) && Launches(s, i)
    ensures AtId(After(s, Connected(i), max), id)
  {
  }

  lemma ConnectFailedAt(s: Pool, i: nat, max: nat, id: string)
    requires Enabled(s, ConnectFailed(i)) && AtId(s, id) && Launches(s, i)
    ensures AtId(After(s, ConnectFailed(i), max), id)
  {
  }

  lemma StoreMetaAt(s: Pool, i: nat, max: nat, id: string)
    requires Enabled(s, StoreMeta(i)) && AtId(s, id) && Launches(s, i)
    ensures AtId(After(s, StoreMeta(i), max), id)
  {
  }

  lemma StoppedAt(s: Pool, gone: string, id: string)
    requires AtId(s, id)
    ensures AtId(Stopped(s, gone), id)
  {
  }

  lemma SessionStepAt(s: Pool, e: Event, max: nat, id: string)
    requires OfSession(e) && Enabled(s, e) && Fair(s, e) && AtId(s, id)
    ensures AtId(After(s, e, max), id)
  {
    match e
    case StartChat(chat, existing) => ChatAt(s, chat, existing, max, id);
    case ChatConnected(_) =>
    case StopSession(gone) => StoppedAt(s, gone, id);
    case StopDeadSessions(ids) => DeadAt(s, ids, max, id);
    case ExitLookup(x) => LookupAt(s, x, max, id);
    case ExitForget(x) => ForgetAt(s, x, max, id);
    case SendReport(_) =>
  }

  lemma ChatAt(s: Pool, chat: string, existing: Existing, max: nat, id: string)
    requires Fair(s, StartChat(chat, existing)) && AtId(s, id)
    ensures AtId(After(s, StartChat(chat, existing), max), id)
  {
  }

  lemma DeadAt(s: Pool, ids: set<string>, max: nat, id: string)
    requires Enabled(s, StopDeadSessions(ids)) && AtId(s, id)
    ensures AtId(After(s, StopDeadSessions(ids), max), id)
  {
  }

  lemma LookupAt(s: Pool, x: string, max: nat, id: string)
    requires Enabled(s, ExitLookup(x)) && AtId(s, id)
    ensures AtId(After(s, ExitLookup(x), max), id)
  {
  }

  lemma ForgetAt(s: Pool, x: string, max: nat, id: string)
    requires Enabled(s, ExitForget(x)) && AtId(s, id)
    ensures AtId(After(s, ExitForget(x), max), id)
  {
  }

  lemma LaunchStepLaunches(s: Pool, e: Event, max: nat, i: nat)
    requires OfLaunch(e) && Enabled(s, e) && Launches(s, i) && Launches(s, e.instance)
    ensures Launches(After(s, e, max), i)
  {
    match e
    case Connected(_) =>
    case ConnectFailed(_) =>
    case StoreMeta(_) =>
    case PromptSent(_) =>
    case PromptFailed(_) =>
  }

  lemma SessionStepLaunches(s: Pool, e: Event, max: nat, i: nat)
    requires OfSession(e) && Enabled(s, e) && Launches(s, i)
    ensures Launches(After(s, e, max), i)
  {
    match e
    case StartChat(_, _) =>
    case ChatConnected(_) =>
    case StopSession(_) =>
    case StopDeadSessions(_) =>
    case ExitLookup(_) =>
    case ExitForget(_) =>
    case SendReport(_) =>
  }

  lemma RestKeeps(s: Pool, e: Event, max: nat)
    requires Inv(s) && Enabled(s, e) && Fair(s, e) && (OfLaunch(e) || OfSession(e))
    ensures Inv(After(s, e, max))
  {
    var s' := After(s, e, max);
    assert OfLaunch(e) ==> Launches(s, e.instance);
    forall id ensures AtId(s', id) {
      assert AtId(s, id);
      if OfLaunch(e) {
        LaunchStepAt(s, e, max, id);
      } else {
        SessionStepAt(s, e, max, id);
      }
    }
    forall i: nat ensures Launches(s', i) {
      assert Launches(s, i);
      if OfLaunch(e) {
        LaunchStepLaunches(s, e, max, i);
      } else {
        SessionStepLaunches(s, e, max, i);
      }
    }
    if OfLaunch(e) {
      LaunchLeavesHands(s, e, max);
    } else {
      SessionLeavesHands(s, e, max);
    }
    HandsStay(s, s');
  }

  predicate SameHands(s: Pool, s': Pool) {
    && s'.arriving == s.arriving && s'.toQueue == s.toQueue && s'.toStart == s.toStart && s'.queue == s.queue
    && s'.dispatched == s.dispatched
  }

  lemma LaunchLeavesHands(s: Pool, e: Event, max: nat)
    requires OfLaunch(e) && Enabled(s, e)
    ensures SameHands(s, After(s, e, max))
  {
    match e
    case Connected(_) =>
    case ConnectFailed(_) =>
    case StoreMeta(_) =>
    case PromptSent(_) =>
    case PromptFailed(_) =>
  }

  lemma SessionLeavesHands(s: Pool, e: Event, max: nat)
    requires OfSession(e) && Enabled(s, e)
    ensures SameHands(s, After(s, e, max))
  {
    match e
    case StartChat(_, _) =>
    case ChatConnected(_) =>
    case StopSession(_) =>
    case StopDeadSessions(_) =>
    case ExitLookup(_) =>
    case ExitForget(_) =>
    case SendReport(_) =>
  }

  lemma StepKeeps(s: Pool, e: Event, max: nat)
    requires Inv(s) && Enabled(s, e) && Fair(s, e)
    ensures Inv(After(s, e, max))
  {
    if OfLaunch(e) || OfSession(e) {
      RestKeeps(s, e, max);
    } else if Passing(e) {
      PassingKeeps(s, e, max);
    } else {
      match e
      case Assign(item) => AssignKeeps(s, item, max);
      case StartRefused(item) => RefusedKeeps(s, item, max);
      case StartTask(item, existing) => StartTaskKeeps(s, item, existing, max);
    }
  }

  // ----- runs ------------------------------------------------------------------------------------------

  ghost predicate Run(max: nat, states: seq<Pool>, events: seq<Event>) {
    && |states| == |events| + 1 && states[0] == EMPTY
    && forall i | 0 <= i < |events| ::
         Enabled(states[i], events[i]) && states[i + 1] == After(states[i], events[i], max)
  }

  ghost predicate FairRun(max: nat, states: seq<Pool>, events: seq<Event>) {
    Run(max, states, events) && forall k | 0 <= k < |events| :: Fair(states[k], events[k])
  }

  /** In every reachable state, replacements and re-used ids included, the task sessions in the
      map never exceed the pool size. */
  lemma {:induction false} PoolNeverOverfull(max: nat, states: seq<Pool>, events: seq<Event>, i: nat)
    requires Run(max, states, events) && i < |states|
    ensures |ActiveTasks(states[i].sessions, "")| <= max
  {
    if i > 0 {
      PoolNeverOverfull(max, states, events, i - 1);
      BoundKeeps(states[i - 1], events[i - 1], max);
    }
  }

  lemma {:induction false} RunKeeps(max: nat, states: seq<Pool>, events: seq<Event>, i: nat)
    requires FairRun(max, states, events) && i < |states|
    ensures Inv(states[i])
  {
    if i > 0 {
      RunKeeps(max, states, events, i - 1);
      StepKeeps(states[i - 1], events[i - 1], max);
    }
  }

  // ----- removal by StopDead -----------------------------------------------------------------------------

  predicate Connects(s: Pool, id: string) {
    id in s.launchOf && InLaunch(s, s.launchOf[id], Connecting)
  }

  /** The session of a task whose launch is in Connect is marked connecting, so StopDead takes
      none of those; and one it took has no launch error, nor will have one. */
  predicate DeadIsSilent(s: Pool, id: string) {
    id in s.dispatched ==>
      && (id in s.sessions && id in s.launchOf ==> s.sessions[id].instance == s.launchOf[id])
      && (id in s.sessions && Connects(s, id) ==> s.sessions[id].connecting)
      && (s.dead[id] > 0 ==> s.errors[id] == 0 && !Connects(s, id))
  }

  lemma LaunchStepSilent(s: Pool, e: Event, max: nat, id: string)
    requires OfLaunch(e) && Enabled(s, e) && AtId(s, id) && Launches(s, e.instance) && DeadIsSilent(s, id)
    ensures DeadIsSilent(After(s, e, max), id)
  {
    match e
    case Connected(_) =>
    case ConnectFailed(_) =>
    case StoreMeta(_) =>
    case PromptSent(_) =>
    case PromptFailed(_) =>
  }

  lemma SessionStepSilent(s: Pool, e: Event, max: nat, id: string)
    requires OfSession(e) && Enabled(s, e) && Fair(s, e) && AtId(s, id) && DeadIsSilent(s, id)
    ensures DeadIsSilent(After(s, e, max), id)
  {
    match e
    case StartChat(_, _) =>
    case ChatConnected(_) =>
    case StopSession(_) =>
    case StopDeadSessions(ids) => StopDeadSilent(s, ids, max, id);
    case ExitLookup(_) =>
    case ExitForget(_) =>
    case SendReport(_) =>
  }

  lemma StopDeadSilent(s: Pool, ids: set<string>, max: nat, id: string)
    requires Enabled(s, StopDeadSessions(ids)) && AtId(s, id) && DeadIsSilent(s, id)
    ensures DeadIsSilent(After(s, StopDeadSessions(ids), max), id)
  {
  }

  lemma PassingSilent(s: Pool, e: Event, max: nat, id: string)
    requires Passing(e) && Enabled(s, e) && DeadIsSilent(s, id)
    ensures DeadIsSilent(After(s, e, max), id)
  {
    PassingKeepsRest(s, e, max);
  }

  lemma AssignSilent(s: Pool, item: Item, max: nat, id: string)
    requires Fair(s, Assign(item)) && AtId(s, id) && OnlyDispatched(s, item) && DeadIsSilent(s, id)
    ensures DeadIsSilent(After(s, Assign(item), max), id)
  {
    AssignAt(s, item, max, id);
  }

  lemma RefusedSilent(s: Pool, item: Item, max: nat, id: string)
    requires item in s.toStart && OnlyDispatched(s, item) && AtId(s, id) && DeadIsSilent(s, id)
    ensures DeadIsSilent(After(s, StartRefused(item), max), id)
  {
  }

  lemma StartTaskSilent(s: Pool, item: Item, existing: Existing, max: nat, id: string)
    requires Inv(s) && item in s.toStart && DeadIsSilent(s, id)
    ensures DeadIsSilent(StartTaskStep(s, item, existing, max), id)
  {
    StartTaskMeaning(s, item, existing, max);
    assert AtId(s, id);
    if HasRoom(s.sessions, item.sessionID, max) {
      WithTaskSilent(s, item, id);
    }
  }

  lemma WithTaskSilent(s: Pool, item: Item, id: string)
    requires AtId(s, id) && item in s.toStart && item.sessionID !in s.sessions && DeadIsSilent(s, id)
    requires item.sessionID in s.dispatched && s.dispatched[item.sessionID] == item
    ensures DeadIsSilent(WithTask(s, item), id)
  {
  }

  lemma StepSilent(s: Pool, e: Event, max: nat, id: string)
    requires Inv(s) && Enabled(s, e) && Fair(s, e) && DeadIsSilent(s, id)
    ensures DeadIsSilent(After(s, e, max), id)
  {
    assert AtId(s, id);
    if OfLaunch(e) {
      assert Launches(s, e.instance);
      LaunchStepSilent(s, e, max, id);
    } else if OfSession(e) {
      SessionStepSilent(s, e, max, id);
    } else if Passing(e) {
      PassingSilent(s, e, max, id);
    } else {
      match e
      case Assign(item) => assert OnlyDispatched(s, item); AssignSilent(s, item, max, id);
      case StartRefused(item) => assert OnlyDispatched(s, item); RefusedSilent(s, item, max, id);
      case StartTask(item, existing) => StartTaskSilent(s, item, existing, max, id);
    }
  }

  lemma {:induction false} RunSilent(max: nat, states: seq<Pool>, events: seq<Event>, i: nat, id: string)
    requires FairRun(max, states, events) && i < |states|
    ensures DeadIsSilent(states[i], id)
  {
    if i > 0 {
      RunSilent(max, states, events, i - 1, id);
      RunKeeps(max, states, events, i - 1);
      StepSilent(states[i - 1], events[i - 1], max, id);
    }
  }

  /** With distinct task ids no task is ever lost or duplicated: each dispatched one is held by
      exactly one of dispatcher, drainer and queue, or registered with its own job, or ended;
      it is reported at most once, not before it ended, and not if StopDead removed it. */
  lemma EveryTaskInOnePlace(max: nat, states: seq<Pool>, events: seq<Event>, i: nat, id: string)
    requires FairRun(max, states, events) && i < |states|
    requires id in states[i].dispatched
    ensures var s, item := states[i], states[i].dispatched[id];
            && Held(s, item) + Here(id in s.sessions) + Ended(s, id) == 1
            && (id in s.sessions ==> s.sessions[id].jobID == item.jobID)
            && Reported(s, id) + s.dead[id] <= Ended(s, id)
  {
    RunKeeps(max, states, events, i);
    RunSilent(max, states, events, i, id);
    assert AtId(states[i], id);
  }
}
