/** What the prompt lanes keep over every interleaving of enqueuers and drainers. */
module PromptLaneRuns {
  import opened Text
  import opened PromptLanes

  function OfSession(log: seq<(string, Job)>, sessionID: string): seq<Job> {
    if log == [] then []
    else
      var last := log[|log| - 1];
      OfSession(log[..|log| - 1], sessionID) + (if last.0 == sessionID then [last.1] else [])
  }

  function InHand(current: Option<Job>): seq<Job> {
    match current case None => [] case Some(job) => [job]
  }

  /** Each drainer serves the lane its session has in the map, and no session has two. */
  ghost predicate DrainersHome<L>(s: St<L>) {
    && (forall d | d in s.drainers ::
          && d < s.nextDrainer && s.drainers[d].sessionID in s.lanes
          && s.lanes[s.drainers[d].sessionID] == s.drainers[d].lane)
    && (forall d, e | d in s.drainers && e in s.drainers && s.drainers[d].sessionID == s.drainers[e].sessionID ::
          d == e)
  }

  /** Each lane in the map is running, has a drainer, and belongs to one session. */
  ghost predicate LanesServed<L>(s: St<L>) {
    && (forall id | id in s.lanes :: s.lanes[id] in s.heap && s.heap[s.lanes[id]].running && DrainerOf(s, id))
    && (forall id, id2 | id in s.lanes && id2 in s.lanes && s.lanes[id] == s.lanes[id2] :: id == id2)
  }

  /** Lanes in the map and drainers correspond one to one. */
  ghost predicate OneDrainerEach<L>(s: St<L>) {
    DrainersHome(s) && LanesServed(s)
  }

  ghost predicate DrainerOf<L>(s: St<L>, sessionID: string) {
    exists d | d in s.drainers :: s.drainers[d].sessionID == sessionID
  }

  /** Handled, then the one in hand, then the waiting ones, are the arrivals in order. */
  predicate Balanced(arrived: seq<Job>, handled: seq<Job>, current: Option<Job>, pending: seq<Job>) {
    arrived == handled + InHand(current) + pending
  }

  /** The prompts of drainer d's session. */
  ghost predicate DrainerBalanced<L>(s: St<L>, d: nat) {
    d in s.drainers && s.drainers[d].lane in s.heap ==>
      var dr := s.drainers[d];
      Balanced(OfSession(s.arrived, dr.sessionID), OfSession(s.handled, dr.sessionID), dr.current,
               s.heap[dr.lane].pending)
  }

  ghost predicate NothingLost<L>(s: St<L>) {
    && (forall d :: DrainerBalanced(s, d))
    && (forall id | id !in s.lanes :: OfSession(s.arrived, id) == OfSession(s.handled, id))
  }

  ghost predicate Inv<L>(s: St<L>) {
    OneDrainerEach(s) && NothingLost(s)
  }

  lemma EnqueueBalanced<L>(s: St<L>, sessionID: string, job: Job, lane: L, d: nat)
    requires Inv(s) && CanEnqueue(s, sessionID, lane)
    ensures DrainerBalanced(Enqueued(s, sessionID, job, lane), d)
  {
    if d in s.drainers {
      assert DrainerBalanced(s, d);
    }
  }

  lemma EnqueueKeeps<L>(s: St<L>, sessionID: string, job: Job, lane: L)
    requires Inv(s) && CanEnqueue(s, sessionID, lane)
    ensures Inv(Enqueued(s, sessionID, job, lane))
  {
    var s' := Enqueued(s, sessionID, job, lane);
    EnqueueLanes(s, sessionID, job, lane);
    forall d ensures DrainerBalanced(s', d) { EnqueueBalanced(s, sessionID, job, lane, d); }
    forall id | id !in s'.lanes ensures OfSession(s'.arrived, id) == OfSession(s'.handled, id) {
    }
  }

  lemma EnqueueLanes<L>(s: St<L>, sessionID: string, job: Job, lane: L)
    requires OneDrainerEach(s) && CanEnqueue(s, sessionID, lane)
    ensures LanesServed(Enqueued(s, sessionID, job, lane))
  {
    var s' := Enqueued(s, sessionID, job, lane);
    forall id | id in s'.lanes ensures DrainerOf(s', id) {
      if id in s.lanes {
        assert DrainerOf(s, id);
        var d :| d in s.drainers && s.drainers[d].sessionID == id;
        assert d in s'.drainers && s'.drainers[d] == s.drainers[d];
      } else {
        assert s'.drainers[s.nextDrainer].sessionID == id;
      }
    }
  }

  lemma TakeBalanced<L>(s: St<L>, d: nat, e: nat)
    requires Inv(s) && CanTake(s, d)
    ensures DrainerBalanced(Taken(s, d), e)
  {
    var s', dr := Taken(s, d), s.drainers[d];
    assert DrainerBalanced(s, e);
    if e != d && e in s.drainers {
      assert s.drainers[e].lane != dr.lane;
    }
  }

  lemma TakeKeeps<L>(s: St<L>, d: nat)
    requires Inv(s) && CanTake(s, d)
    ensures Inv(Taken(s, d))
  {
    var s', dr := Taken(s, d), s.drainers[d];
    TakeLanes(s, d);
    forall e ensures DrainerBalanced(s', e) { TakeBalanced(s, d, e); }
    assert DrainerBalanced(s, d);
  }

  lemma TakeLanes<L>(s: St<L>, d: nat)
    requires OneDrainerEach(s) && CanTake(s, d)
    ensures LanesServed(Taken(s, d))
  {
    var s' := Taken(s, d);
    forall id | id in s'.lanes ensures DrainerOf(s', id) {
      assert DrainerOf(s, id);
      var e :| e in s.drainers && s.drainers[e].sessionID == id;
      assert e in s'.drainers && s'.drainers[e].sessionID == id;
    }
  }

  lemma FinishKeeps<L>(s: St<L>, d: nat)
    requires Inv(s) && CanFinish(s, d)
    ensures Inv(Finished(s, d))
  {
    var s', dr := Finished(s, d), s.drainers[d];
    FinishDrainers(s, d);
    forall e ensures DrainerBalanced(s', e) {
      FinishBalanced(s, d, e);
    }
    FinishAccounts(s, d);
  }

  lemma FinishBalanced<L>(s: St<L>, d: nat, e: nat)
    requires Inv(s) && CanFinish(s, d)
    ensures DrainerBalanced(Finished(s, d), e)
  {
    assert DrainerBalanced(s, e);
  }

  lemma FinishAccounts<L>(s: St<L>, d: nat)
    requires Inv(s) && CanFinish(s, d)
    ensures var s' := Finished(s, d);
            forall id | id !in s'.lanes :: OfSession(s'.arrived, id) == OfSession(s'.handled, id)
  {
    assert DrainerBalanced(s, d);
  }

  lemma FinishDrainers<L>(s: St<L>, d: nat)
    requires OneDrainerEach(s) && CanFinish(s, d)
    ensures OneDrainerEach(Finished(s, d))
  {
    var s' := Finished(s, d);
    forall id | id in s'.lanes ensures DrainerOf(s', id) {
      assert DrainerOf(s, id);
      var e :| e in s.drainers && s.drainers[e].sessionID == id;
      assert e in s'.drainers && s'.drainers[e].sessionID == id;
    }
  }

  // ----- runs ------------------------------------------------------------------------------

  datatype Event<L> = Enqueue(sessionID: string, job: Job, lane: L) | Take(d: nat) | Finish(d: nat)

  ghost predicate Enabled<L>(s: St<L>, e: Event<L>) {
    match e
    case Enqueue(id, _, lane) => CanEnqueue(s, id, lane)
    case Take(d) => CanTake(s, d)
    case Finish(d) => CanFinish(s, d)
  }

  ghost function After<L>(s: St<L>, e: Event<L>): St<L>
    requires Enabled(s, e)
  {
    match e
    case Enqueue(id, job, lane) => Enqueued(s, id, job, lane)
    case Take(d) => Taken(s, d)
    case Finish(d) => Finished(s, d)
  }

  ghost predicate Run<L>(states: seq<St<L>>, events: seq<Event<L>>) {
    && |states| == |events| + 1 && states[0] == St(map[], map[], map[], 0, [], [])
    && forall i | 0 <= i < |events| :: Enabled(states[i], events[i]) && states[i + 1] == After(states[i], events[i])
  }

  lemma {:induction false} RunKeeps<L>(states: seq<St<L>>, events: seq<Event<L>>, i: nat)
    requires Run(states, events) && i < |states|
    ensures Inv(states[i])
  {
    if i > 0 {
      RunKeeps(states, events, i - 1);
      match events[i - 1]
      case Enqueue(id, job, lane) => EnqueueKeeps(states[i - 1], id, job, lane);
      case Take(d) => TakeKeeps(states[i - 1], d);
      case Finish(d) => FinishKeeps(states[i - 1], d);
    }
  }

  /** In every reachable state: a session has at most one drainer, so at most one prompt in
      hand; its handled prompts are a prefix of its arrivals, and handled, in hand and waiting
      together are all its arrivals in order; a lane in the map always has a live drainer. */
  lemma PromptsInOrder<L>(states: seq<St<L>>, events: seq<Event<L>>, i: nat, sessionID: string)
    requires Run(states, events) && i < |states|
    ensures var s := states[i];
            && OfSession(s.handled, sessionID) <= OfSession(s.arrived, sessionID)
            && (forall d, e | d in s.drainers && e in s.drainers
                  && s.drainers[d].sessionID == sessionID == s.drainers[e].sessionID :: d == e)
            && (sessionID in s.lanes <==> DrainerOf(s, sessionID))
            && (sessionID in s.lanes ==>
                  s.lanes[sessionID] in s.heap
                  && exists d | d in s.drainers && s.drainers[d].sessionID == sessionID ::
                       OfSession(s.arrived, sessionID) ==
                       OfSession(s.handled, sessionID) + InHand(s.drainers[d].current)
                       + s.heap[s.lanes[sessionID]].pending)
            && (sessionID !in s.lanes ==> OfSession(s.arrived, sessionID) == OfSession(s.handled, sessionID))
  {
    RunKeeps(states, events, i);
    var s := states[i];
    if sessionID in s.lanes {
      assert DrainerOf(s, sessionID);
      var d :| d in s.drainers && s.drainers[d].sessionID == sessionID;
      assert s.drainers[d].lane == s.lanes[sessionID];
      assert DrainerBalanced(s, d);
    }
  }

  /** A waiting prompt is never stranded: some step of its session's drainer is possible. */
  lemma WaitingPromptsMove<L>(states: seq<St<L>>, events: seq<Event<L>>, i: nat, sessionID: string) returns (d: nat)
    requires Run(states, events) && i < |states|
    requires OfSession(states[i].arrived, sessionID) != OfSession(states[i].handled, sessionID)
    ensures d in states[i].drainers && states[i].drainers[d].sessionID == sessionID
    ensures CanTake(states[i], d) || CanFinish(states[i], d)
  {
    RunKeeps(states, events, i);
    var s := states[i];
    assert sessionID in s.lanes;
    assert DrainerOf(s, sessionID);
    d :| d in s.drainers && s.drainers[d].sessionID == sessionID;
  }

  // ----- retired lanes ------------------------------------------------------------------------

  /** The lane is the one some session has in the map. */
  ghost predicate Listed<L>(s: St<L>, lane: L) {
    exists id | id in s.lanes :: s.lanes[id] == lane
  }

  ghost predicate RunningIsListed<L>(s: St<L>) {
    forall lane | lane in s.heap && s.heap[lane].running :: Listed(s, lane)
  }

  lemma EnqueueListed<L>(s: St<L>, sessionID: string, job: Job, lane: L)
    requires OneDrainerEach(s) && RunningIsListed(s) && CanEnqueue(s, sessionID, lane)
    ensures RunningIsListed(Enqueued(s, sessionID, job, lane))
  {
    var s' := Enqueued(s, sessionID, job, lane);
    forall l | l in s'.heap && s'.heap[l].running ensures Listed(s', l) {
      if l == lane {
        assert s'.lanes[sessionID] == l;
      } else {
        assert Listed(s, l);
        var id :| id in s.lanes && s.lanes[id] == l;
        assert id in s'.lanes && s'.lanes[id] == l;
      }
    }
  }

  lemma TakeListed<L>(s: St<L>, d: nat)
    requires OneDrainerEach(s) && RunningIsListed(s) && CanTake(s, d)
    ensures RunningIsListed(Taken(s, d))
  {
    var s' := Taken(s, d);
    forall l | l in s'.heap && s'.heap[l].running ensures Listed(s', l) {
      assert Listed(s, l);
      var id :| id in s.lanes && s.lanes[id] == l;
      assert id in s'.lanes && s'.lanes[id] == l;
    }
  }

  lemma {:induction false} RunListed<L>(states: seq<St<L>>, events: seq<Event<L>>, i: nat)
    requires Run(states, events) && i < |states|
    ensures RunningIsListed(states[i])
  {
    if i > 0 {
      RunListed(states, events, i - 1);
      RunKeeps(states, events, i - 1);
      match events[i - 1]
      case Enqueue(id, job, lane) => EnqueueListed(states[i - 1], id, job, lane);
      case Take(d) => TakeListed(states[i - 1], d);
      case Finish(d) => assert forall l :: Listed(states[i - 1], l) ==> Listed(states[i], l);
    }
  }

  /** In every reachable state the lanes marked as running are exactly those in the map: a drainer
      that retires takes its lane out and unmarks it in one. */
  lemma RunningIffListed<L>(states: seq<St<L>>, events: seq<Event<L>>, i: nat, lane: L)
    requires Run(states, events) && i < |states| && lane in states[i].heap
    ensures states[i].heap[lane].running <==> exists id | id in states[i].lanes :: states[i].lanes[id] == lane
  {
    RunKeeps(states, events, i);
    RunListed(states, events, i);
    if states[i].heap[lane].running {
      assert Listed(states[i], lane);
    }
  }
}
