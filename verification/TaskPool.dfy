/** internal/session (manager.go, manager_new.go) and the dispatch side of
    internal/bridge/bridge.go: the session map with its task-pool admission check, the
    overflow queue, the ways a task session ends, and how its end is reported to the platform.
    One step is one critical section, or one action between two of them. */
module TaskPool {
  import opened Text

  /** A registered session; a task session has a job.  active: Status is "active". */
  datatype Session = Session(instance: nat, jobID: string, connecting: bool, active: bool)

  datatype Item = Item(sessionID: string, jobID: string, attempt: int)

  type Sessions = map<string, Session>

  /** IsTaskSession: the task id of a task session is its session id. */
  predicate IsTask(s: Session) {
    s.jobID != ""
  }

  function ActiveTasks(sessions: Sessions, excludeID: string): set<string> {
    set id | id in sessions && id != excludeID && sessions[id].active && IsTask(sessions[id])
  }

  /** Where launchTaskSession is: in Connect, past it, or past the storing of the task's meta. */
  datatype Phase = Connecting | Live | Stored

  datatype Launch = Launch(item: Item, phase: Phase)

  /** The hands and the pool.  arriving: dispatchers before their pool check; toQueue, toStart:
      tasks in the hand of a dispatcher or drainer on the way to Enqueue or StartTaskSession;
      launching: launches under way, by instance; meta: keys of taskMeta; exiting: exit callbacks
      before their look-up; found: those that found meta; sending: terminal reports about to be
      sent; reports: terminal reports sent.

      The history: how often an id was stopped, removed by StopDead, or failed to launch; errors:
      its launch errors; results, skipped: its exit callbacks that found meta and took it, and
      those that found none; stored: ids whose meta was stored; launchOf: the latest launch. */
  datatype Pool = Pool(
    sessions: Sessions, queue: seq<Item>, nextInstance: nat,
    arriving: multiset<Item>, toQueue: multiset<Item>, toStart: multiset<Item>, launching: map<nat, Launch>,
    meta: set<string>, exiting: multiset<string>, found: multiset<string>,
    sending: multiset<string>, reports: multiset<string>,
    stopped: multiset<string>, dead: multiset<string>, failed: multiset<string>,
    errors: multiset<string>, results: multiset<string>, skipped: multiset<string>,
    stored: set<string>, launchOf: map<string, nat>, dispatched: map<string, Item>, chats: set<string>)

  const EMPTY := Pool(map[], [], 0, multiset{}, multiset{}, multiset{}, map[],
                      {}, multiset{}, multiset{}, multiset{}, multiset{},
                      multiset{}, multiset{}, multiset{}, multiset{}, multiset{}, multiset{},
                      {}, map[], map[], {})

  /** What createSession finds under the lock for an id that is already registered. */
  datatype Existing = Resumable | Replaceable

  datatype Event =
    | Assign(item: Item)
    | PoolCheck(item: Item)
    | EnqueueTask(item: Item)
    | DequeueTask
    | StartRefused(item: Item)
    | StartTask(item: Item, existing: Existing)
    | StartChat(id: string, existing: Existing)
    | ChatConnected(id: string)
    | Connected(instance: nat)
    | ConnectFailed(instance: nat)
    | StoreMeta(instance: nat)
    | PromptSent(instance: nat)
    | PromptFailed(instance: nat)
    | StopSession(id: string)
    | StopDeadSessions(ids: set<string>)
    | ExitLookup(id: string)
    | ExitForget(id: string)
    | SendReport(id: string)

  predicate InLaunch(s: Pool, i: nat, phase: Phase) {
    i in s.launching && s.launching[i].phase == phase
  }

  predicate Enabled(s: Pool, e: Event) {
    match e
    case Assign(_) => true
    case PoolCheck(item) => item in s.arriving
    case EnqueueTask(item) => item in s.toQueue
    case DequeueTask => s.queue != []
    case StartRefused(item) => item in s.toStart
    case StartTask(item, existing) => item in s.toStart
    case StartChat(_, _) => true
    case ChatConnected(id) => id in s.chats && id in s.sessions
    case Connected(i) => InLaunch(s, i, Connecting)
    case ConnectFailed(i) => InLaunch(s, i, Connecting)
    case StoreMeta(i) => InLaunch(s, i, Live)
    case PromptSent(i) => InLaunch(s, i, Stored)
    case PromptFailed(i) => InLaunch(s, i, Stored)
    case StopSession(_) => true
    case StopDeadSessions(ids) => forall id | id in ids :: id in s.sessions && !s.sessions[id].connecting
    case ExitLookup(id) => id in s.exiting
    case ExitForget(id) => id in s.found
    case SendReport(id) => id in s.sending
  }

  /** createSession's admission check; a session of the same id does not count. */
  predicate HasRoom(sessions: Sessions, id: string, max: nat) {
    |ActiveTasks(sessions, id)| < max
  }

  function Remove(sessions: Sessions, id: string): Sessions {
    sessions - {id}
  }

  function One<T(==)>(here: bool, x: T): multiset<T> {
    if here then multiset{x} else multiset{}
  }

  /** An existing session that cannot be resumed is removed before the pool decides. */
  function StartTaskStep(s: Pool, item: Item, existing: Existing, max: nat): Pool {
    var s1 := s.(toStart := s.toStart - multiset{item});
    if item.sessionID in s.sessions && existing == Resumable then s1
    else if HasRoom(s.sessions, item.sessionID, max) then Registered(s1, item)
    else PoolFull(s1, item)
  }

  function Registered(s: Pool, item: Item): Pool {
    var id := item.sessionID;
    s.(sessions := s.sessions[id := Session(s.nextInstance, item.jobID, true, true)],
       stopped := s.stopped + One(id in s.sessions, id), nextInstance := s.nextInstance + 1,
       launching := s.launching[s.nextInstance := Launch(item, Connecting)],
       launchOf := s.launchOf[id := s.nextInstance])
  }

  function PoolFull(s: Pool, item: Item): Pool {
    var id := item.sessionID;
    s.(sessions := Remove(s.sessions, id), stopped := s.stopped + One(id in s.sessions, id),
       toQueue := s.toQueue + multiset{item})
  }

  /** StopWithExitCode: the exit callback is called for a task session only. */
  function Stopped(s: Pool, id: string): Pool {
    if id !in s.sessions then s
    else
      s.(sessions := Remove(s.sessions, id), stopped := s.stopped + multiset{id},
         exiting := s.exiting + One(IsTask(s.sessions[id]), id))
  }

  function InPhase(s: Pool, i: nat, phase: Phase): Pool
    requires i in s.launching
  {
    s.(launching := s.launching[i := s.launching[i].(phase := phase)])
  }

  /** connecting is cleared on the session object, which may have left the map. */
  function ConnectedIn(sessions: Sessions, id: string, i: nat): Sessions {
    if id in sessions && sessions[id].instance == i then sessions[id := sessions[id].(connecting := false)]
    else sessions
  }

  /** The error branch of launchTaskSession: a task_error report is about to be sent. */
  function LaunchError(s: Pool, id: string): Pool {
    s.(errors := s.errors + multiset{id}, sending := s.sending + multiset{id})
  }

  function After(s: Pool, e: Event, max: nat): Pool
    requires Enabled(s, e)
  {
    match e
    case Assign(item) =>
      s.(arriving := s.arriving + multiset{item}, dispatched := s.dispatched[item.sessionID := item])
    case PoolCheck(item) =>
      var full := |ActiveTasks(s.sessions, "")| >= max;
      s.(arriving := s.arriving - multiset{item},
         toQueue := s.toQueue + One(full, item), toStart := s.toStart + One(!full, item))
    case EnqueueTask(item) => s.(toQueue := s.toQueue - multiset{item}, queue := s.queue + [item])
    case DequeueTask => s.(queue := s.queue[1..], toStart := s.toStart + multiset{s.queue[0]})
    case StartRefused(item) =>
      LaunchError(s.(toStart := s.toStart - multiset{item}, failed := s.failed + multiset{item.sessionID}),
                  item.sessionID)
    case StartTask(item, existing) => StartTaskStep(s, item, existing, max)
    case StartChat(id, existing) =>
      if id in s.sessions && existing == Resumable then s
      else s.(sessions := s.sessions[id := Session(s.nextInstance, "", true, true)],
              nextInstance := s.nextInstance + 1,
              stopped := s.stopped + One(id in s.sessions, id), chats := s.chats + {id})
    case ChatConnected(id) => s.(sessions := s.sessions[id := s.sessions[id].(connecting := false)])
    case Connected(i) =>
      InPhase(s, i, Live).(sessions := ConnectedIn(s.sessions, s.launching[i].item.sessionID, i))
    case ConnectFailed(i) =>
      var id := s.launching[i].item.sessionID;
      LaunchError(s.(launching := s.launching - {i}, sessions := Remove(s.sessions, id),
                     failed := s.failed + One(id in s.sessions, id)), id)
    case StoreMeta(i) =>
      var id := s.launching[i].item.sessionID;
      InPhase(s, i, Stored).(meta := s.meta + {id}, stored := s.stored + {id})
    case PromptSent(i) => s.(launching := s.launching - {i})
    case PromptFailed(i) => Stopped(s.(launching := s.launching - {i}), s.launching[i].item.sessionID)
    case StopSession(id) => Stopped(s, id)
    case StopDeadSessions(ids) => s.(sessions := s.sessions - ids, dead := s.dead + multiset(ids))
    case ExitLookup(id) =>
      s.(exiting := s.exiting - multiset{id},
         found := s.found + One(id in s.meta, id), skipped := s.skipped + One(id !in s.meta, id))
    case ExitForget(id) =>
      s.(found := s.found - multiset{id}, meta := s.meta - {id},
         results := s.results + multiset{id}, sending := s.sending + multiset{id})
    case SendReport(id) => s.(sending := s.sending - multiset{id}, reports := s.reports + multiset{id})
  }

  lemma ReplaceableStart(s: Pool, item: Item, max: nat)
    requires item in s.toStart
    ensures var taken := s.(toStart := s.toStart - multiset{item});
            After(s, StartTask(item, Replaceable), max)
            == if HasRoom(s.sessions, item.sessionID, max) then Registered(taken, item) else PoolFull(taken, item)
  {
  }

  lemma RoomWithoutOwn(sessions: Sessions, id: string, max: nat)
    ensures HasRoom(Remove(sessions, id), id, max) == HasRoom(sessions, id, max)
  {
    assert ActiveTasks(Remove(sessions, id), id) == ActiveTasks(sessions, id);
  }

  lemma Reinserted(sessions: Sessions, id: string, session: Session)
    ensures Remove(sessions, id)[id := session] == sessions[id := session]
  {
  }

  // ----- the code -----------------------------------------------------------------------------------

  class Manager {
    var sessions: Sessions
    var queue: seq<Item>
    var nextInstance: nat
    const maxConcurrent: nat
    /** hands, launches, reports and the history; its other fields are not used */
    ghost var rest: Pool

    ghost function State(): Pool
      reads this
    {
      rest.(sessions := sessions, queue := queue, nextInstance := nextInstance)
    }

    constructor (max: nat)
      ensures State() == EMPTY && maxConcurrent == max
    {
      sessions, queue, nextInstance, maxConcurrent := map[], [], 0, max;
      rest := EMPTY;
    }

    method ActiveTaskCountLocked(excludeID: string) returns (count: nat)
      ensures count == |ActiveTasks(sessions, excludeID)|
    {
      count := 0;
      var todo := sessions.Keys;
      ghost var counted: set<string> := {};
      while todo != {}
        invariant todo <= sessions.Keys
        invariant counted == (set id | id in ActiveTasks(sessions, excludeID) && id !in todo)
        invariant count == |counted|
        decreases todo
      {
        var id :| id in todo;
        todo := todo - {id};
        if id == excludeID || !sessions[id].active {
          continue;
        }
        if IsTask(sessions[id]) {
          count := count + 1;
          counted := counted + {id};
        }
      }
      assert counted == ActiveTasks(sessions, excludeID);
    }

    method Enqueue(item: Item)
      requires item in rest.toQueue
      modifies this
      ensures State() == After(old(State()), EnqueueTask(item), maxConcurrent)
    {
      queue := queue + [item];
      rest := rest.(toQueue := rest.toQueue - multiset{item});
    }

    method DequeueNext() returns (item: Option<Item>)
      modifies this
      ensures old(queue) == [] ==> item == None && State() == old(State())
      ensures old(queue) != [] ==>
                item == Some(old(queue)[0]) && State() == After(old(State()), DequeueTask, maxConcurrent)
    {
      if |queue| == 0 {
        return None;
      }
      item := Some(queue[0]);
      rest := rest.(toStart := rest.toStart + multiset{queue[0]});
      queue := queue[1..];
    }

    /** The locked phase of createSession for a task, when an existing session of the same id
        cannot be resumed: it is removed, then the pool decides. */
    method RegisterTask(item: Item) returns (ok: bool)
      requires item in rest.toStart
      modifies this
      ensures ok == HasRoom(old(sessions), item.sessionID, maxConcurrent)
      ensures State() == After(old(State()), StartTask(item, Replaceable), maxConcurrent)
    {
      ghost var before := State();
      ok := Admit(item);
      ReplaceableStart(before, item, maxConcurrent);
    }

    method Admit(item: Item) returns (ok: bool)
      requires item in rest.toStart
      modifies this
      ensures ok == HasRoom(old(sessions), item.sessionID, maxConcurrent)
      ensures var taken := old(State()).(toStart := old(rest).toStart - multiset{item});
              State() == if ok then Registered(taken, item) else PoolFull(taken, item)
    {
      var id := item.sessionID;
      ghost var taken := State().(toStart := rest.toStart - multiset{item});
      if id in sessions {
        sessions := sessions - {id};
      }
      assert sessions == Remove(taken.sessions, id);
      RoomWithoutOwn(taken.sessions, id, maxConcurrent);
      ok := RoomFor(id);
      if !ok {
        rest := PoolFull(taken, item);
        return;
      }
      Reinserted(taken.sessions, id, Session(nextInstance, item.jobID, true, true));
      sessions := sessions[id := Session(nextInstance, item.jobID, true, true)];
      nextInstance := nextInstance + 1;
      rest := Registered(taken, item);
    }

    method RoomFor(id: string) returns (room: bool)
      ensures room == HasRoom(sessions, id, maxConcurrent)
    {
      var active := ActiveTaskCountLocked(id);
      room := active < maxConcurrent;
    }

    /** capacity, exit: which of the two callbacks were started. */
    method StopWithExitCode(id: string) returns (capacity: bool, exit: bool)
      modifies this
      ensures State() == After(old(State()), StopSession(id), maxConcurrent)
      ensures capacity == (id in old(sessions))
      ensures exit == (id in old(sessions) && IsTask(old(sessions)[id]))
    {
      if id !in sessions {
        return false, false;
      }
      var jobID := sessions[id].jobID;
      sessions := sessions - {id};
      rest := rest.(stopped := rest.stopped + multiset{id}, exiting := rest.exiting + One(jobID != "", id));
      return true, jobID != "";
    }

    /** live: which sessions' protocols are connected. */
    method StopDead(live: set<string>) returns (ids: set<string>)
      modifies this
      ensures ids == (set id | id in old(sessions) && !old(sessions)[id].connecting && id !in live)
      ensures State() == After(old(State()), StopDeadSessions(ids), maxConcurrent)
    {
      ids := {};
      var todo := sessions.Keys;
      while todo != {}
        invariant todo <= old(sessions).Keys && ids !! todo
        invariant ids == (set id | id in old(sessions) && id !in todo && !old(sessions)[id].connecting && id !in live)
        invariant sessions == old(sessions) - ids
        invariant queue == old(queue) && nextInstance == old(nextInstance) && rest == old(rest)
        decreases todo
      {
        var id :| id in todo;
        todo := todo - {id};
        if !sessions[id].connecting && id !in live {
          ids := ids + {id};
          sessions := sessions - {id};
        }
      }
      rest := rest.(dead := rest.dead + multiset(ids));
    }
  }

  /** The bridge's taskMeta: stored by a launch, taken by the exit callback in two critical
      sections, a look-up and a removal. */
  class TaskMeta {
    var taskMeta: map<string, Item>
    /** everything but the keys of taskMeta */
    ghost var rest: Pool

    ghost function State(): Pool
      reads this
    {
      rest.(meta := taskMeta.Keys)
    }

    constructor ()
      ensures State() == EMPTY && taskMeta == map[]
    {
      taskMeta, rest := map[], EMPTY;
    }

    method Store(item: Item, ghost instance: nat, ghost max: nat)
      requires InLaunch(rest, instance, Live) && rest.launching[instance].item == item
      modifies this
      ensures taskMeta == old(taskMeta)[item.sessionID := item]
      ensures State() == After(old(State()), StoreMeta(instance), max)
    {
      taskMeta := taskMeta[item.sessionID := item];
      rest := InPhase(rest, instance, Stored).(stored := rest.stored + {item.sessionID});
    }

    method LookUp(id: string, ghost max: nat) returns (meta: Option<Item>)
      requires id in rest.exiting
      modifies this`rest
      ensures meta == if id in taskMeta then Some(taskMeta[id]) else None
      ensures State() == After(old(State()), ExitLookup(id), max)
    {
      rest := rest.(exiting := rest.exiting - multiset{id},
                    found := rest.found + One(id in taskMeta, id), skipped := rest.skipped + One(id !in taskMeta, id));
      if id in taskMeta {
        return Some(taskMeta[id]);
      }
      return None;
    }

    method Forget(id: string, ghost max: nat)
      requires id in rest.found
      modifies this
      ensures taskMeta == old(taskMeta) - {id}
      ensures State() == After(old(State()), ExitForget(id), max)
    {
      taskMeta := taskMeta - {id};
      rest := rest.(found := rest.found - multiset{id}, results := rest.results + multiset{id},
                    sending := rest.sending + multiset{id});
    }
  }
}
