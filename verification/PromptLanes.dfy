/** internal/bridge/prompt_lane.go: one lane of prompts per session, drained by a goroutine
    that removes the lane when it finds it empty.  Each method is one critical section of
    promptLanesMu, or the end of a prompt handler. */
module PromptLanes {
  import opened Text

  datatype Job = Job(prompt: string, handler: nat)

  // ----- the steps, on values ------------------------------------------------------------

  datatype LaneState = LaneState(pending: seq<Job>, running: bool)

  /** A goroutine in drainPromptLane; current is the prompt it is handling. */
  datatype Drainer<L> = Drainer(sessionID: string, lane: L, current: Option<Job>)

  /** L is the type of lane pointers; heap maps every lane ever made to its fields. */
  datatype St<L(==)> = St(lanes: map<string, L>, heap: map<L, LaneState>, drainers: map<nat, Drainer<L>>,
                          nextDrainer: nat, arrived: seq<(string, Job)>, handled: seq<(string, Job)>)

  predicate CanEnqueue<L(==)>(s: St<L>, sessionID: string, lane: L) {
    if sessionID in s.lanes then lane == s.lanes[sessionID] && lane in s.heap else lane !in s.heap
  }

  /** enqueuePrompt: lane is the one found in the map, or a new one. */
  function Enqueued<L(==)>(s: St<L>, sessionID: string, job: Job, lane: L): St<L>
    requires CanEnqueue(s, sessionID, lane)
  {
    var was := if sessionID in s.lanes then s.heap[lane] else LaneState([], false);
    s.(lanes := s.lanes[sessionID := lane],
       heap := s.heap[lane := LaneState(was.pending + [job], true)],
       drainers := if was.running then s.drainers else s.drainers[s.nextDrainer := Drainer(sessionID, lane, None)],
       nextDrainer := if was.running then s.nextDrainer else s.nextDrainer + 1,
       arrived := s.arrived + [(sessionID, job)])
  }

  predicate CanTake<L(==)>(s: St<L>, d: nat) {
    d in s.drainers && s.drainers[d].current == None && s.drainers[d].lane in s.heap
  }

  /** One turn of drainPromptLane under the lock: take the next prompt, or retire. */
  function Taken<L(==)>(s: St<L>, d: nat): St<L>
    requires CanTake(s, d)
  {
    var dr := s.drainers[d];
    var lane := s.heap[dr.lane];
    if lane.pending == [] then
      s.(heap := s.heap[dr.lane := lane.(running := false)], lanes := s.lanes - {dr.sessionID},
         drainers := s.drainers - {d})
    else
      s.(heap := s.heap[dr.lane := lane.(pending := lane.pending[1..])],
         drainers := s.drainers[d := dr.(current := Some(lane.pending[0]))])
  }

  predicate CanFinish<L(==)>(s: St<L>, d: nat) {
    d in s.drainers && s.drainers[d].current.Some?
  }

  /** The handler of the current prompt returned or panicked. */
  function Finished<L(==)>(s: St<L>, d: nat): St<L>
    requires CanFinish(s, d)
  {
    var dr := s.drainers[d];
    s.(drainers := s.drainers[d := dr.(current := None)], handled := s.handled + [(dr.sessionID, dr.current.value)])
  }

  // ----- the code --------------------------------------------------------------------------

  class Lane {
    var pending: seq<Job>
    var running: bool

    constructor ()
      ensures pending == [] && !running
    {
      pending, running := [], false;
    }
  }

  class Bridge {
    var promptLanes: map<string, Lane>
    ghost var known: set<Lane>
    ghost var drainers: map<nat, Drainer<Lane>>
    ghost var nextDrainer: nat
    ghost var arrived: seq<(string, Job)>
    ghost var handled: seq<(string, Job)>

    ghost function State(): St<Lane>
      reads this, known
    {
      St(promptLanes, map l | l in known :: LaneState(l.pending, l.running), drainers, nextDrainer, arrived, handled)
    }

    ghost predicate LanesKnown()
      reads this
    {
      promptLanes.Values <= known
    }

    constructor ()
      ensures LanesKnown() && State() == St(map[], map[], map[], 0, [], [])
    {
      promptLanes, known, drainers, nextDrainer, arrived, handled := map[], {}, map[], 0, [], [];
    }

    /** The session's lane, made and entered in the map when it has none. */
    method FindLane(sessionID: string) returns (lane: Lane)
      requires LanesKnown()
      modifies this`promptLanes, this`known
      ensures LanesKnown() && lane in known && (forall l | l in known && l != lane :: l in old(known))
      ensures if sessionID in old(promptLanes) then
                known == old(known) && promptLanes == old(promptLanes) && lane == promptLanes[sessionID]
              else
                fresh(lane) && known == old(known) + {lane} && promptLanes == old(promptLanes)[sessionID := lane]
                && lane.pending == [] && !lane.running
    {
      if sessionID in promptLanes {
        lane := promptLanes[sessionID];
        assert lane in promptLanes.Values;
      } else {
        lane := new Lane();
        known := known + {lane};
        promptLanes := promptLanes[sessionID := lane];
      }
    }

    method EnqueuePrompt(sessionID: string, job: Job) returns (lane: Lane)
      requires LanesKnown()
      modifies this, known
      ensures LanesKnown() && CanEnqueue(old(State()), sessionID, lane)
      ensures State() == Enqueued(old(State()), sessionID, job, lane)
    {
      lane := FindLane(sessionID);
      lane.pending := lane.pending + [job];
      var start := !lane.running;
      lane.running := true;
      arrived := arrived + [(sessionID, job)];
      if start {
        drainers := drainers[nextDrainer := Drainer(sessionID, lane, None)];
        nextDrainer := nextDrainer + 1;
      }
    }

    /** d names the goroutine; sessionID and lane are its arguments. */
    method DrainTurn(ghost d: nat, sessionID: string, lane: Lane) returns (job: Option<Job>)
      requires LanesKnown() && lane in known
      requires CanTake(State(), d) && drainers[d] == Drainer(sessionID, lane, None)
      modifies this, lane
      ensures LanesKnown() && State() == Taken(old(State()), d)
      ensures job == if old(lane.pending) == [] then None else Some(old(lane.pending)[0])
    {
      if |lane.pending| == 0 {
        lane.running := false;
        promptLanes := promptLanes - {sessionID};
        drainers := drainers - {d};
        return None;
      }
      job := Some(lane.pending[0]);
      lane.pending := lane.pending[1..];
      drainers := drainers[d := drainers[d].(current := job)];
    }
  }
}
