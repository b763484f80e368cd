/** internal/protocol/acp.go: correlation of bridge requests with replies (callRPC, deliverRPC)
    and the order "initial mode before first prompt" (handleResponse, applyInitialMode,
    SetMode, SendMessage).  One step is one critical section, one channel operation, or one
    write to the agent. */
module AcpRpc {
  import opened Text

  /** Why callRPC was called: both are session/set_mode requests. */
  datatype Purpose = InitialMode(sessionID: string, mode: string) | SwitchMode(mode: string)

  /** What goes through a waiter's channel: the id of the wire reply, and whether it was a
      result or an error. */
  datatype Reply = Reply(id: nat, ok: bool)

  datatype Outcome = Replied(reply: Reply) | TimedOut | SendFailed

  /** Registered: in rpcWaiters, request not yet written; Waiting: in the select; Leaving: the
      timeout was chosen, the waiter not yet removed; Ended: callRPC returned; Resumed: the
      caller acted on the outcome. */
  datatype Phase = Registered | Waiting | Leaving | Ended(outcome: Outcome) | Resumed(outcome: Outcome)

  datatype Call = Call(purpose: Purpose, phase: Phase)

  /** pushing: replies taken from rpcWaiters and about to be put on their channel, as (channel,
      reply); ready: SendMessage calls that saw a session. */
  datatype St = St(
    nextId: nat, waiters: set<nat>, calls: map<nat, Call>, chans: map<nat, seq<Reply>>,
    pushing: multiset<(nat, Reply)>, received: seq<(nat, Reply)>,
    sessionID: string, exposed: bool, desired: string, lastPrompt: Option<nat>, ready: nat, prompts: seq<string>)

  /** The state after Connect; desired is config.ACPModeID. */
  function Start(desired: string): St {
    St(0, {}, map[], map[], multiset{}, [], "", false, desired, None, 0, [])
  }

  /** The parts of a result that handleResponse looks at. */
  datatype Body = Body(sessionID: Option<string>, currentMode: string, stopReason: string)

  datatype Event =
    | CallSetMode(mode: string)
    | OtherRequest
    | Written(id: nat) | WriteFailed(id: nat)
    | Result(id: nat, body: Body) | ErrorReply(id: nat)
    | Push(id: nat, reply: Reply)
    | ReceiveReply(id: nat) | ChooseTimeout(id: nat) | RemoveWaiter(id: nat)
    | Resume(id: nat)
    | SeeSession | WritePrompt

  predicate InPhase(s: St, id: nat, phase: Phase) {
    id in s.calls && s.calls[id].phase == phase
  }

  predicate Enabled(s: St, e: Event) {
    match e
    case CallSetMode(_) => s.sessionID != ""
    case OtherRequest => true
    case Written(id) => InPhase(s, id, Registered)
    case WriteFailed(id) => InPhase(s, id, Registered)
    case Result(_, _) => true
    case ErrorReply(_) => true
    case Push(id, reply) => (id, reply) in s.pushing && id in s.chans && |s.chans[id]| < 1
    case ReceiveReply(id) => InPhase(s, id, Waiting) && id in s.chans && s.chans[id] != []
    case ChooseTimeout(id) => InPhase(s, id, Waiting)
    case RemoveWaiter(id) => InPhase(s, id, Leaving)
    case Resume(id) => id in s.calls && s.calls[id].phase.Ended?
    case SeeSession => s.sessionID != ""
    case WritePrompt => s.ready > 0
  }

  function Registering(s: St, purpose: Purpose): St {
    s.(nextId := s.nextId + 1, waiters := s.waiters + {s.nextId},
       calls := s.calls[s.nextId := Call(purpose, Registered)], chans := s.chans[s.nextId := []])
  }

  function Moved(s: St, id: nat, phase: Phase): St
    requires id in s.calls
  {
    s.(calls := s.calls[id := s.calls[id].(phase := phase)])
  }

  /** deliverRPC up to the unlock: the reply is taken to the waiter's channel, if there is one. */
  function Delivered(s: St, id: nat, ok: bool): St {
    if id in s.waiters then s.(waiters := s.waiters - {id}, pushing := s.pushing + multiset{(id, Reply(id, ok))})
    else s
  }

  function Exposing(s: St, sessionID: string): St {
    s.(sessionID := sessionID, exposed := true)
  }

  /** handleResponse, in the order of its tests. */
  function Handled(s: St, id: nat, body: Body): St {
    if id in s.waiters then Delivered(s, id, true)
    else if s.lastPrompt == Some(id) then s.(lastPrompt := None)
    else if body.sessionID.Some? then
      if s.desired != "" && body.currentMode != s.desired then
        Registering(s, InitialMode(body.sessionID.value, s.desired))
      else Exposing(s, body.sessionID.value)
    else if body.stopReason != "" then s.(lastPrompt := None)
    else s
  }

  function After(s: St, e: Event): St
    requires Enabled(s, e)
  {
    match e
    case CallSetMode(mode) => Registering(s, SwitchMode(mode))
    case OtherRequest => s.(nextId := s.nextId + 1)
    case Written(id) => Moved(s, id, Waiting)
    case WriteFailed(id) => Moved(s.(waiters := s.waiters - {id}), id, Ended(SendFailed))
    case Result(id, body) => Handled(s, id, body)
    case ErrorReply(id) => Delivered(if s.lastPrompt == Some(id) then s.(lastPrompt := None) else s, id, false)
    case Push(id, reply) =>
      s.(chans := s.chans[id := s.chans[id] + [reply]], pushing := s.pushing - multiset{(id, reply)})
    case ReceiveReply(id) =>
      var reply := s.chans[id][0];
      Moved(s.(chans := s.chans[id := s.chans[id][1..]], received := s.received + [(id, reply)]), id,
            Ended(Replied(reply)))
    case ChooseTimeout(id) => Moved(s, id, Leaving)
    case RemoveWaiter(id) => Moved(s.(waiters := s.waiters - {id}), id, Ended(TimedOut))
    case Resume(id) =>
      var call := s.calls[id];
      var s1 := Moved(s, id, Resumed(call.phase.outcome));
      if call.phase.outcome.Replied? && call.phase.outcome.reply.ok then
        match call.purpose
        case InitialMode(sessionID, _) => Exposing(s1, sessionID)
        case SwitchMode(mode) => s1.(desired := mode)
      else s1
    case SeeSession => s.(ready := s.ready + 1)
    case WritePrompt =>
      s.(ready := s.ready - 1, prompts := s.prompts + [s.sessionID], lastPrompt := Some(s.nextId),
         nextId := s.nextId + 1)
  }

  // ----- the code of the waiter table ---------------------------------------------------------

  /** rpcWaiters, with the channels its entries point to. */
  class RpcTable {
    var waiters: set<nat>
    var chans: map<nat, seq<Reply>>
    ghost var rest: St

    ghost function State(): St
      reads this
    {
      rest.(waiters := waiters, chans := chans)
    }

    constructor (desired: string)
      ensures State() == Start(desired)
    {
      waiters, chans, rest := {}, map[], Start(desired);
    }

    /** callRPC up to the request: a fresh id, a channel of capacity one, the registration. */
    method Register(ghost purpose: Purpose, id: nat)
      requires id == rest.nextId
      modifies this
      ensures State() == Registering(old(State()), purpose)
    {
      chans := chans[id := []];
      waiters := waiters + {id};
      rest := rest.(nextId := id + 1, calls := rest.calls[id := Call(purpose, Registered)]);
    }

    method DeliverRPC(id: nat, ok: bool) returns (found: bool)
      modifies this
      ensures found == (id in old(waiters)) && State() == Delivered(old(State()), id, ok)
    {
      found := id in waiters;
      waiters := waiters - {id};
      if found {
        rest := rest.(pushing := rest.pushing + multiset{(id, Reply(id, ok))});
      } else {
        assert waiters == old(waiters);
      }
    }

    /** The timeout branch of callRPC's select. */
    method RemoveWaiterOnTimeout(id: nat)
      requires InPhase(State(), id, Leaving)
      modifies this
      ensures State() == After(old(State()), RemoveWaiter(id))
    {
      waiters := waiters - {id};
      rest := Moved(rest, id, Ended(TimedOut));
    }
  }

  // ----- correlation ------------------------------------------------------------------------------

  function One(here: bool): nat {
    if here then 1 else 0
  }

  function ReceivedBy(received: seq<(nat, Reply)>, id: nat): nat {
    if received == [] then 0
    else ReceivedBy(received[..|received| - 1], id) + One(received[|received| - 1].0 == id)
  }

  function InChan(s: St, id: nat): nat {
    if id in s.chans then |s.chans[id]| else 0
  }

  /** Replies on their way to the channel of id. */
  function Pushing(s: St, id: nat): nat {
    s.pushing[(id, Reply(id, true))] + s.pushing[(id, Reply(id, false))]
  }

  predicate OwnReply(s: St, id: nat) {
    && One(id in s.waiters) + Pushing(s, id) + InChan(s, id) + ReceivedBy(s.received, id) <= 1
    && (id in s.waiters || Pushing(s, id) > 0 ==> id in s.calls && id in s.chans)
    && (id in s.waiters ==> s.calls[id].phase in {Registered, Waiting, Leaving})
    && (id in s.chans ==> forall k | 0 <= k < |s.chans[id]| :: s.chans[id][k].id == id)
    && (id in s.calls && s.calls[id].phase.Ended? && s.calls[id].phase.outcome.Replied? ==>
          s.calls[id].phase.outcome.reply.id == id)
    && (id in s.calls ==> id in s.chans)
    && (id >= s.nextId ==>
          id !in s.calls && id !in s.chans && id !in s.waiters && Pushing(s, id) + ReceivedBy(s.received, id) == 0)
  }

  ghost predicate RpcInv(s: St) {
    && (forall id: nat :: OwnReply(s, id))
    && (forall p | p in s.pushing :: p.1.id == p.0)
    && (forall k | 0 <= k < |s.received| :: s.received[k].1.id == s.received[k].0)
  }

  lemma RegisteringKeeps(s: St, purpose: Purpose, t: nat)
    requires OwnReply(s, t)
    ensures OwnReply(Registering(s, purpose), t)
  {
  }

  lemma DeliveredKeeps(s: St, id: nat, ok: bool, t: nat)
    requires OwnReply(s, t)
    ensures OwnReply(Delivered(s, id, ok), t)
  {
  }

  lemma PushKeeps(s: St, e: Event, t: nat)
    requires OwnReply(s, t) && Enabled(s, e) && e.Push? && e.reply.id == e.id
    ensures OwnReply(After(s, e), t)
  {
  }

  lemma ReceiveKeeps(s: St, e: Event, t: nat)
    requires OwnReply(s, t) && Enabled(s, e) && e.ReceiveReply?
    ensures OwnReply(After(s, e), t)
  {
    var s' := After(s, e);
    assert s'.received[..|s.received|] == s.received;
    assert |s.chans[e.id]| >= 1;
  }

  lemma PhaseKeeps(s: St, e: Event, t: nat)
    requires OwnReply(s, t) && Enabled(s, e)
    requires e.Written? || e.WriteFailed? || e.ChooseTimeout? || e.RemoveWaiter? || e.Resume?
    ensures OwnReply(After(s, e), t)
  {
    match e
    case Written(_) =>
    case WriteFailed(_) =>
    case ChooseTimeout(_) =>
    case RemoveWaiter(_) =>
    case Resume(_) =>
  }

  lemma OneKeeps(s: St, e: Event, t: nat)
    requires RpcInv(s) && Enabled(s, e)
    ensures OwnReply(After(s, e), t)
  {
    assert OwnReply(s, t);
    match e
    case CallSetMode(mode) => RegisteringKeeps(s, SwitchMode(mode), t);
    case Result(id, body) => HandledKeeps(s, id, body, t);
    case ErrorReply(id) => DeliveredKeeps(if s.lastPrompt == Some(id) then s.(lastPrompt := None) else s, id, false, t);
    case Push(id, reply) => assert (id, reply) in s.pushing; PushKeeps(s, e, t);
    case ReceiveReply(_) => ReceiveKeeps(s, e, t);
    case Written(_) => PhaseKeeps(s, e, t);
    case WriteFailed(_) => PhaseKeeps(s, e, t);
    case ChooseTimeout(_) => PhaseKeeps(s, e, t);
    case RemoveWaiter(_) => PhaseKeeps(s, e, t);
    case Resume(_) => PhaseKeeps(s, e, t);
    case OtherRequest =>
    case SeeSession =>
    case WritePrompt =>
  }

  lemma HandledKeeps(s: St, id: nat, body: Body, t: nat)
    requires OwnReply(s, t)
    ensures OwnReply(Handled(s, id, body), t)
  {
    if id in s.waiters {
      DeliveredKeeps(s, id, true, t);
    } else if body.sessionID.Some? {
      RegisteringKeeps(s, InitialMode(body.sessionID.value, s.desired), t);
    }
  }

  lemma StepKeeps(s: St, e: Event)
    requires RpcInv(s) && Enabled(s, e)
    ensures RpcInv(After(s, e))
  {
    forall t: nat ensures OwnReply(After(s, e), t) { OneKeeps(s, e, t); }
    PushesKeep(s, e);
    if e.ReceiveReply? {
      assert OwnReply(s, e.id);
      OwnReceived(s, e);
    } else {
      OthersReceiveNothing(s, e);
    }
  }

  lemma OwnReceived(s: St, e: Event)
    requires Enabled(s, e) && e.ReceiveReply? && OwnReply(s, e.id)
    ensures var s' := After(s, e); s'.received == s.received + [(e.id, s.chans[e.id][0])] && s.chans[e.id][0].id == e.id
  {
  }

  lemma OthersReceiveNothing(s: St, e: Event)
    requires Enabled(s, e) && !e.ReceiveReply?
    ensures After(s, e).received == s.received
  {
    match e
    case CallSetMode(_) =>
    case OtherRequest =>
    case Written(_) =>
    case WriteFailed(_) =>
    case Result(_, _) =>
    case ErrorReply(_) =>
    case Push(_, _) =>
    case ChooseTimeout(_) =>
    case RemoveWaiter(_) =>
    case Resume(_) =>
    case SeeSession =>
    case WritePrompt =>
  }

  lemma PushesKeep(s: St, e: Event)
    requires (forall p | p in s.pushing :: p.1.id == p.0) && Enabled(s, e)
    ensures forall p | p in After(s, e).pushing :: p.1.id == p.0
  {
    forall p | p in After(s, e).pushing ensures p.1.id == p.0 {
      if p !in s.pushing { NewPush(s, e, p); }
    }
  }

  lemma DeliveredPush(s: St, id: nat, ok: bool, p: (nat, Reply))
    requires p in Delivered(s, id, ok).pushing && p !in s.pushing
    ensures p == (id, Reply(id, ok))
  {
  }

  lemma HandledPush(s: St, id: nat, body: Body, p: (nat, Reply))
    requires p in Handled(s, id, body).pushing && p !in s.pushing
    ensures p == (id, Reply(id, true))
  {
    if id in s.waiters {
      DeliveredPush(s, id, true, p);
    }
  }

  lemma NewPush(s: St, e: Event, p: (nat, Reply))
    requires Enabled(s, e) && p in After(s, e).pushing && p !in s.pushing
    ensures p.1.id == p.0
  {
    match e
    case CallSetMode(_) =>
    case OtherRequest =>
    case Written(_) =>
    case WriteFailed(_) =>
    case Result(id, body) => HandledPush(s, id, body, p);
    case ErrorReply(id) =>
      DeliveredPush(if s.lastPrompt == Some(id) then s.(lastPrompt := None) else s, id, false, p);
    case Push(_, _) =>
    case ReceiveReply(_) =>
    case ChooseTimeout(_) =>
    case RemoveWaiter(_) =>
    case Resume(_) =>
    case SeeSession =>
    case WritePrompt =>
  }

  ghost predicate Run(desired: string, states: seq<St>, events: seq<Event>) {
    && |states| == |events| + 1 && states[0] == Start(desired)
    && forall i | 0 <= i < |events| :: Enabled(states[i], events[i]) && states[i + 1] == After(states[i], events[i])
  }

  lemma {:induction false} RunKeeps(desired: string, states: seq<St>, events: seq<Event>, i: nat)
    requires Run(desired, states, events) && i < |states|
    ensures RpcInv(states[i])
  {
    if i > 0 {
      RunKeeps(desired, states, events, i - 1);
      StepKeeps(states[i - 1], events[i - 1]);
    }
  }

  /** Each request gets at most one reply and only one with its own id; putting a reply on its
      channel never blocks; and once callRPC has returned its id is not registered. */
  lemma RepliesCorrelate(desired: string, states: seq<St>, events: seq<Event>, i: nat, id: nat)
    requires Run(desired, states, events) && i < |states|
    ensures var s := states[i];
            && ReceivedBy(s.received, id) <= 1
            && (forall k | 0 <= k < |s.received| && s.received[k].0 == id :: s.received[k].1.id == id)
            && (forall reply | (id, reply) in s.pushing :: reply.id == id && Enabled(s, Push(id, reply)))
            && (id in s.calls && (s.calls[id].phase.Ended? || s.calls[id].phase.Resumed?) ==> id !in s.waiters)
  {
    RunKeeps(desired, states, events, i);
    var s := states[i];
    assert OwnReply(s, id);
    forall reply | (id, reply) in s.pushing ensures reply.id == id && Enabled(s, Push(id, reply)) {
      assert (id, reply).1.id == (id, reply).0;
      assert reply == Reply(id, true) || reply == Reply(id, false);
    }
  }

  // ----- the initial mode before the first prompt ----------------------------------------------------

  /** The agent answers session/new for this session. */
  predicate NewSession(s: St, e: Event, sessionID: string) {
    && e.Result? && e.id !in s.waiters && s.lastPrompt != Some(e.id) && e.body.sessionID == Some(sessionID)
  }

  /** ... and reports the wanted mode, or none is wanted. */
  predicate ReportedMode(s: St, e: Event, sessionID: string) {
    NewSession(s, e, sessionID) && (s.desired == "" || e.body.currentMode == s.desired)
  }

  /** ... and reports another mode, so request number s.nextId asks for the wanted one. */
  predicate AskedForMode(s: St, e: Event, sessionID: string, id: nat) {
    NewSession(s, e, sessionID) && s.desired != "" && e.body.currentMode != s.desired && id == s.nextId
  }

  /** The agent's result for request id, taken by its waiter. */
  predicate Acknowledged(s: St, e: Event, id: nat) {
    e.Result? && e.id == id && id in s.waiters
  }

  /** Request id was made for a session whose reported mode was not the wanted one, and asks
      for the mode wanted then. */
  ghost predicate AskExplained(states: seq<St>, events: seq<Event>, n: nat, id: nat, purpose: Purpose) {
    purpose.InitialMode? ==>
      exists h | 0 <= h < n && h < |events| && h < |states| ::
        AskedForMode(states[h], events[h], purpose.sessionID, id) && purpose.mode == states[h].desired
  }

  /** A positive reply for id came in before step n. */
  ghost predicate AckExplained(states: seq<St>, events: seq<Event>, n: nat, id: nat) {
    exists k | 0 <= k < n && k < |events| && k < |states| :: Acknowledged(states[k], events[k], id)
  }

  ghost predicate AcksExplained(states: seq<St>, events: seq<Event>, n: nat, s: St) {
    && (forall p | p in s.pushing && p.1.ok :: AckExplained(states, events, n, p.1.id))
    && (forall id, k | id in s.chans && 0 <= k < |s.chans[id]| && s.chans[id][k].ok ::
          AckExplained(states, events, n, s.chans[id][k].id))
    && (forall id | id in s.calls && s.calls[id].phase.Ended? && s.calls[id].phase.outcome.Replied?
                    && s.calls[id].phase.outcome.reply.ok ::
          AckExplained(states, events, n, s.calls[id].phase.outcome.reply.id))
  }

  ghost predicate AsksExplained(states: seq<St>, events: seq<Event>, n: nat, s: St) {
    forall id | id in s.calls :: AskExplained(states, events, n, id, s.calls[id].purpose)
  }

  /** The session was exposed in order: its mode was reported as wanted, or the wanted mode was
      asked for and acknowledged. */
  ghost predicate ModeInForce(states: seq<St>, events: seq<Event>, n: nat, sessionID: string) {
    || (exists i | 0 <= i < n && i < |events| && i < |states| :: ReportedMode(states[i], events[i], sessionID))
    || (exists id: nat, mode ::
          AskExplained(states, events, n, id, InitialMode(sessionID, mode)) && AckExplained(states, events, n, id))
  }

  ghost predicate ExposureExplained(states: seq<St>, events: seq<Event>, n: nat, s: St) {
    && (s.exposed ==> ModeInForce(states, events, n, s.sessionID))
    && (s.ready > 0 || s.sessionID != "" ==> s.exposed)
  }

  lemma AskLater(states: seq<St>, events: seq<Event>, n: nat, id: nat, purpose: Purpose)
    requires AskExplained(states, events, n, id, purpose)
    ensures AskExplained(states, events, n + 1, id, purpose)
  {
  }

  lemma AckLater(states: seq<St>, events: seq<Event>, n: nat, id: nat)
    requires AckExplained(states, events, n, id)
    ensures AckExplained(states, events, n + 1, id)
  {
  }

  lemma ModeLater(states: seq<St>, events: seq<Event>, n: nat, sessionID: string)
    requires ModeInForce(states, events, n, sessionID)
    ensures ModeInForce(states, events, n + 1, sessionID)
  {
    if id: nat, mode :| AskExplained(states, events, n, id, InitialMode(sessionID, mode))
                        && AckExplained(states, events, n, id) {
      AskLater(states, events, n, id, InitialMode(sessionID, mode));
      AckLater(states, events, n, id);
    }
  }

  lemma HandledCall(s: St, req: nat, body: Body, id: nat)
    requires id in Handled(s, req, body).calls
    ensures var purpose, e := Handled(s, req, body).calls[id].purpose, Result(req, body);
            || (id in s.calls && s.calls[id].purpose == purpose)
            || (purpose.InitialMode? && AskedForMode(s, e, purpose.sessionID, id) && purpose.mode == s.desired)
  {
  }

  /** A call in the new state is an old one, a SetMode call, or the one this step asks. */
  lemma CallSource(s: St, e: Event, id: nat)
    requires Enabled(s, e) && id in After(s, e).calls
    ensures var purpose := After(s, e).calls[id].purpose;
            || (id in s.calls && s.calls[id].purpose == purpose)
            || purpose.SwitchMode?
            || (AskedForMode(s, e, purpose.sessionID, id) && purpose.mode == s.desired)
  {
    match e
    case CallSetMode(_) =>
    case OtherRequest =>
    case Written(_) =>
    case WriteFailed(_) =>
    case Result(req, body) => HandledCall(s, req, body, id);
    case ErrorReply(_) =>
    case Push(_, _) =>
    case ReceiveReply(_) =>
    case ChooseTimeout(_) =>
    case RemoveWaiter(_) =>
    case Resume(_) =>
    case SeeSession =>
    case WritePrompt =>
  }

  lemma AsksStep(desired: string, states: seq<St>, events: seq<Event>, n: nat)
    requires Run(desired, states, events) && n < |events| && AsksExplained(states, events, n, states[n])
    ensures AsksExplained(states, events, n + 1, states[n + 1])
  {
    var s, s' := states[n], states[n + 1];
    assert s' == After(s, events[n]);
    forall id | id in s'.calls ensures AskExplained(states, events, n + 1, id, s'.calls[id].purpose) {
      CallSource(s, events[n], id);
      if id in s.calls && s.calls[id].purpose == s'.calls[id].purpose {
        AskLater(states, events, n, id, s.calls[id].purpose);
      }
    }
  }

  lemma PushSource(s: St, e: Event, p: (nat, Reply))
    requires Enabled(s, e) && p in After(s, e).pushing
    ensures p in s.pushing || (p.1.ok ==> Acknowledged(s, e, p.1.id))
  {
    match e
    case CallSetMode(_) =>
    case OtherRequest =>
    case Written(_) =>
    case WriteFailed(_) =>
    case Result(id, body) => if p !in s.pushing { HandledPush(s, id, body, p); }
    case ErrorReply(id) =>
      if p !in s.pushing {
        DeliveredPush(if s.lastPrompt == Some(id) then s.(lastPrompt := None) else s, id, false, p);
      }
    case Push(_, _) =>
    case ReceiveReply(_) =>
    case ChooseTimeout(_) =>
    case RemoveWaiter(_) =>
    case Resume(_) =>
    case SeeSession =>
    case WritePrompt =>
  }

  lemma ChanSource(s: St, e: Event, id: nat, k: nat)
    requires Enabled(s, e) && id in After(s, e).chans && k < |After(s, e).chans[id]|
    ensures var reply := After(s, e).chans[id][k];
            (id in s.chans && reply in s.chans[id]) || (id, reply) in s.pushing
  {
    if e.Push? {
      assert (e.id, e.reply) in s.pushing;
    } else if !e.ReceiveReply? {
      ChansKept(s, e, id);
    }
  }

  lemma ChansKept(s: St, e: Event, id: nat)
    requires Enabled(s, e) && !e.Push? && !e.ReceiveReply? && id in After(s, e).chans
    ensures After(s, e).chans[id] == [] || (id in s.chans && After(s, e).chans[id] == s.chans[id])
  {
  }

  lemma HandledPhase(s: St, req: nat, body: Body, id: nat)
    requires id in Handled(s, req, body).calls
    ensures var call := Handled(s, req, body).calls[id];
            call.phase == Registered || (id in s.calls && s.calls[id] == call)
  {
  }

  lemma EndSource(s: St, e: Event, id: nat)
    requires Enabled(s, e) && id in After(s, e).calls
    requires After(s, e).calls[id].phase.Ended? && After(s, e).calls[id].phase.outcome.Replied?
    ensures var reply := After(s, e).calls[id].phase.outcome.reply;
            (id in s.calls && s.calls[id].phase == Ended(Replied(reply))) || (id in s.chans && reply in s.chans[id])
  {
    match e
    case CallSetMode(_) =>
    case OtherRequest =>
    case Written(_) =>
    case WriteFailed(_) =>
    case Result(req, body) => HandledPhase(s, req, body, id);
    case ErrorReply(_) =>
    case Push(_, _) =>
    case ReceiveReply(_) =>
    case ChooseTimeout(_) =>
    case RemoveWaiter(_) =>
    case Resume(_) =>
    case SeeSession =>
    case WritePrompt =>
  }

  lemma AcksStep(desired: string, states: seq<St>, events: seq<Event>, n: nat)
    requires Run(desired, states, events) && n < |events| && AcksExplained(states, events, n, states[n])
    ensures AcksExplained(states, events, n + 1, states[n + 1])
  {
    var s, e, s' := states[n], events[n], states[n + 1];
    assert s' == After(s, e);
    forall p | p in s'.pushing && p.1.ok ensures AckExplained(states, events, n + 1, p.1.id) {
      PushSource(s, e, p);
      if p in s.pushing { AckLater(states, events, n, p.1.id); }
    }
    forall id, k | id in s'.chans && 0 <= k < |s'.chans[id]| && s'.chans[id][k].ok
      ensures AckExplained(states, events, n + 1, s'.chans[id][k].id)
    {
      var reply := s'.chans[id][k];
      ChanSource(s, e, id, k);
      assert (id, reply).1.ok;
      AckLater(states, events, n, reply.id);
    }
    forall id | id in s'.calls && s'.calls[id].phase.Ended? && s'.calls[id].phase.outcome.Replied?
                && s'.calls[id].phase.outcome.reply.ok
      ensures AckExplained(states, events, n + 1, s'.calls[id].phase.outcome.reply.id)
    {
      EndSource(s, e, id);
      AckLater(states, events, n, s'.calls[id].phase.outcome.reply.id);
    }
  }

  /** What this step can expose. */
  lemma ExposureSource(s: St, e: Event)
    requires Enabled(s, e)
    ensures var s' := After(s, e);
            || (s'.sessionID == s.sessionID && s'.exposed == s.exposed
                && (s'.ready > 0 ==> s.ready > 0 || s.sessionID != ""))
            || (s'.exposed && ReportedMode(s, e, s'.sessionID))
            || (s'.exposed && e.Resume? && s.calls[e.id].phase.outcome.Replied? && s.calls[e.id].phase.outcome.reply.ok
                && s.calls[e.id].purpose.InitialMode? && s.calls[e.id].purpose.sessionID == s'.sessionID)
  {
    match e
    case CallSetMode(_) =>
    case OtherRequest =>
    case Written(_) =>
    case WriteFailed(_) =>
    case Result(_, _) =>
    case ErrorReply(_) =>
    case Push(_, _) =>
    case ReceiveReply(_) =>
    case ChooseTimeout(_) =>
    case RemoveWaiter(_) =>
    case Resume(_) =>
    case SeeSession =>
    case WritePrompt =>
  }

  lemma ExposureStep(desired: string, states: seq<St>, events: seq<Event>, n: nat)
    requires Run(desired, states, events) && n < |events| && RpcInv(states[n])
    requires AsksExplained(states, events, n, states[n]) && AcksExplained(states, events, n, states[n])
    requires ExposureExplained(states, events, n, states[n])
    ensures ExposureExplained(states, events, n + 1, states[n + 1])
  {
    var s, e, s' := states[n], events[n], states[n + 1];
    assert s' == After(s, e);
    ExposureSource(s, e);
    if s'.sessionID == s.sessionID && s'.exposed == s.exposed && (s'.ready > 0 ==> s.ready > 0 || s.sessionID != "") {
      if s.exposed { ModeLater(states, events, n, s.sessionID); }
    } else if ReportedMode(s, e, s'.sessionID) {
      assert ReportedMode(states[n], events[n], s'.sessionID);
    } else {
      var call := s.calls[e.id];
      assert OwnReply(s, e.id);
      AskLater(states, events, n, e.id, call.purpose);
      AckLater(states, events, n, e.id);
      assert call.purpose == InitialMode(s'.sessionID, call.purpose.mode);
    }
  }

  lemma {:induction false} RunExplained(desired: string, states: seq<St>, events: seq<Event>, i: nat)
    requires Run(desired, states, events) && i < |states|
    ensures AsksExplained(states, events, i, states[i]) && AcksExplained(states, events, i, states[i])
    ensures ExposureExplained(states, events, i, states[i])
  {
    if i > 0 {
      RunExplained(desired, states, events, i - 1);
      RunKeeps(desired, states, events, i - 1);
      AsksStep(desired, states, events, i - 1);
      AcksStep(desired, states, events, i - 1);
      ExposureStep(desired, states, events, i - 1);
    }
  }

  lemma {:induction false} IdsGrow(desired: string, states: seq<St>, events: seq<Event>, k: nat, h: nat)
    requires Run(desired, states, events) && k <= h < |states|
    ensures states[k].nextId <= states[h].nextId
  {
    if k < h {
      IdsGrow(desired, states, events, k, h - 1);
      assert states[h] == After(states[h - 1], events[h - 1]);
    }
  }

  /** Ids are given out once, so the acknowledgement is the later of the two. */
  lemma AskedBeforeAcknowledged(desired: string, states: seq<St>, events: seq<Event>, h: nat, k: nat, id: nat)
    requires Run(desired, states, events) && h < |events| && k < |events|
    requires id == states[h].nextId && Acknowledged(states[k], events[k], id)
    ensures h < k
  {
    RunKeeps(desired, states, events, k);
    assert OwnReply(states[k], id);
    if k <= h {
      IdsGrow(desired, states, events, k, h);
      assert false;
    }
  }

  /** On every run, when a session/prompt is written, then for the session it names the agent
      had either reported the wanted mode at session/new, or reported another one, been asked
      for the wanted one, and acknowledged that very request. */
  lemma ModeBeforePrompt(desired: string, states: seq<St>, events: seq<Event>, i: nat)
    requires Run(desired, states, events) && i < |events| && events[i] == WritePrompt
    ensures states[i + 1].prompts == states[i].prompts + [states[i].sessionID]
    ensures var sessionID := states[i].sessionID;
            || (exists h | 0 <= h < i :: ReportedMode(states[h], events[h], sessionID))
            || (exists h, k, id: nat | 0 <= h < k < i ::
                  AskedForMode(states[h], events[h], sessionID, id) && Acknowledged(states[k], events[k], id))
  {
    RunExplained(desired, states, events, i);
    var sessionID := states[i].sessionID;
    assert ModeInForce(states, events, i, sessionID);
    if id: nat, mode :| AskExplained(states, events, i, id, InitialMode(sessionID, mode))
                        && AckExplained(states, events, i, id) {
      var h :| 0 <= h < i && AskedForMode(states[h], events[h], sessionID, id);
      var k :| 0 <= k < i && Acknowledged(states[k], events[k], id);
      AskedBeforeAcknowledged(desired, states, events, h, k, id);
    }
  }
}
