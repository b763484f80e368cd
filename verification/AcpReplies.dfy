/** internal/protocol/acp.go: what becomes of each request and each reply.  No reply that a waiter
    took is lost, ids are never given twice, a turn ends with the reply to its prompt, and a call
    whose reply comes goes through to its effect. */
module AcpReplies {
  import opened Text
  import opened AcpRpc

  // ----- no reply is lost ------------------------------------------------------------------------

  /** A reply for request id comes in while its waiter is registered. */
  predicate Takes(s: St, e: Event, id: nat) {
    (e.Result? || e.ErrorReply?) && e.id == id && id in s.waiters
  }

  ghost predicate Taken(states: seq<St>, events: seq<Event>, n: nat, id: nat)
    requires n <= |events| <= |states|
  {
    exists k | 0 <= k < n :: Takes(states[k], events[k], id)
  }

  predicate Live(s: St, id: nat) {
    id in s.calls && (s.calls[id].phase in {Registered, Waiting, Leaving})
  }

  /** A reply that was taken is on its way to the channel, or in it, or received; and a call that
      has not returned is registered just as long as no reply was taken. */
  predicate ReplyKept(s: St, id: nat, taken: bool) {
    && Pushing(s, id) + InChan(s, id) + ReceivedBy(s.received, id) == One(taken)
    && (id in s.waiters <==> Live(s, id) && !taken)
  }

  lemma KeptStep(s: St, e: Event, id: nat, taken: bool)
    requires RpcInv(s) && Enabled(s, e) && ReplyKept(s, id, taken)
    ensures ReplyKept(After(s, e), id, taken || Takes(s, e, id))
  {
    assert OwnReply(s, id);
    match e
    case CallSetMode(mode) => RegisteringKept(s, SwitchMode(mode), id, taken);
    case Result(req, body) => HandledKept(s, req, body, id, taken);
    case ErrorReply(req) =>
      DeliveredKept(if s.lastPrompt == Some(req) then s.(lastPrompt := None) else s, req, false, id, taken);
    case Push(_, _) => PushKept(s, e, id, taken);
    case ReceiveReply(_) => ReceiveKept(s, e, id, taken);
    case Written(_) => SendKept(s, e, id, taken);
    case WriteFailed(_) => SendKept(s, e, id, taken);
    case ChooseTimeout(_) => LeaveKept(s, e, id, taken);
    case RemoveWaiter(_) => LeaveKept(s, e, id, taken);
    case Resume(_) => LeaveKept(s, e, id, taken);
    case OtherRequest =>
    case SeeSession =>
    case WritePrompt =>
  }

  lemma RegisteringKept(s: St, purpose: Purpose, id: nat, taken: bool)
    requires OwnReply(s, id) && ReplyKept(s, id, taken)
    ensures ReplyKept(Registering(s, purpose), id, taken)
  {
  }

  lemma DeliveredKept(s: St, req: nat, ok: bool, id: nat, taken: bool)
    requires OwnReply(s, id) && ReplyKept(s, id, taken)
    ensures ReplyKept(Delivered(s, req, ok), id, taken || (req == id && id in s.waiters))
  {
  }

  lemma HandledKept(s: St, req: nat, body: Body, id: nat, taken: bool)
    requires OwnReply(s, id) && ReplyKept(s, id, taken)
    ensures ReplyKept(Handled(s, req, body), id, taken || (req == id && id in s.waiters))
  {
    if req in s.waiters {
      DeliveredKept(s, req, true, id, taken);
    } else {
      UnawaitedKept(s, req, body, id, taken);
    }
  }

  lemma UnawaitedKept(s: St, req: nat, body: Body, id: nat, taken: bool)
    requires OwnReply(s, id) && ReplyKept(s, id, taken) && req !in s.waiters
    ensures ReplyKept(Handled(s, req, body), id, taken)
  {
    if body.sessionID.Some? {
      RegisteringKept(s, InitialMode(body.sessionID.value, s.desired), id, taken);
    }
  }

  lemma PushKept(s: St, e: Event, id: nat, taken: bool)
    requires RpcInv(s) && Enabled(s, e) && e.Push? && ReplyKept(s, id, taken)
    ensures ReplyKept(After(s, e), id, taken)
  {
    assert (e.id, e.reply).1.id == e.id;
  }

  lemma ReceiveKept(s: St, e: Event, id: nat, taken: bool)
    requires OwnReply(s, id) && Enabled(s, e) && e.ReceiveReply? && ReplyKept(s, id, taken)
    ensures ReplyKept(After(s, e), id, taken)
  {
    ReceivedOnce(s, e, id);
    assert |s.chans[e.id]| >= 1;
  }

  lemma ReceivedOnce(s: St, e: Event, id: nat)
    requires Enabled(s, e) && e.ReceiveReply?
    ensures var s' := After(s, e);
            && ReceivedBy(s'.received, id) == ReceivedBy(s.received, id) + One(e.id == id)
            && InChan(s', id) == InChan(s, id) - One(e.id == id)
            && s'.pushing == s.pushing && s'.waiters == s.waiters
  {
    var s' := After(s, e);
    assert s'.received[..|s.received|] == s.received;
  }

  lemma SendKept(s: St, e: Event, id: nat, taken: bool)
    requires OwnReply(s, id) && Enabled(s, e) && ReplyKept(s, id, taken) && (e.Written? || e.WriteFailed?)
    ensures ReplyKept(After(s, e), id, taken)
  {
    match e
    case Written(_) =>
    case WriteFailed(_) =>
  }

  lemma LeaveKept(s: St, e: Event, id: nat, taken: bool)
    requires OwnReply(s, id) && Enabled(s, e) && ReplyKept(s, id, taken)
    requires e.ChooseTimeout? || e.RemoveWaiter? || e.Resume?
    ensures ReplyKept(After(s, e), id, taken)
  {
    match e
    case ChooseTimeout(_) =>
    case RemoveWaiter(_) =>
    case Resume(_) =>
  }

  /** In every reachable state, for every request: a reply was taken by its waiter exactly when one
      is on its way to its channel, in it, or received, and then just one; and a call that has not
      returned is registered exactly while none was taken. */
  lemma {:induction false} NoReplyLost(desired: string, states: seq<St>, events: seq<Event>, i: nat, id: nat)
    requires Run(desired, states, events) && i < |states|
    ensures var s := states[i];
            && Pushing(s, id) + InChan(s, id) + ReceivedBy(s.received, id) == One(Taken(states, events, i, id))
            && (id in s.waiters <==>
                id in s.calls && (s.calls[id].phase in {Registered, Waiting, Leaving}) && !Taken(states, events, i, id))
  {
    if i > 0 {
      NoReplyLost(desired, states, events, i - 1, id);
      RunKeeps(desired, states, events, i - 1);
      KeptStep(states[i - 1], events[i - 1], id, Taken(states, events, i - 1, id));
      assert Takes(states[i - 1], events[i - 1], id) ==> Taken(states, events, i, id);
    }
  }

  // ----- ids ---------------------------------------------------------------------------------------

  /** The steps that send a request: a call, another request, a prompt, or asking for the mode. */
  predicate SendsRequest(s: St, e: Event) {
    match e
    case CallSetMode(_) | OtherRequest | WritePrompt => true
    case Result(id, body) =>
      id !in s.waiters && s.lastPrompt != Some(id) && body.sessionID.Some?
      && s.desired != "" && body.currentMode != s.desired
    case _ => false
  }

  /** No id is given to two requests. */
  lemma IdsAreDistinct(desired: string, states: seq<St>, events: seq<Event>, j: nat, k: nat)
    requires Run(desired, states, events) && j < k < |events| && SendsRequest(states[j], events[j])
    ensures states[j].nextId < states[k].nextId
  {
    assert states[j + 1] == After(states[j], events[j]);
    IdsGrow(desired, states, events, j + 1, k);
  }

  // ----- turns ---------------------------------------------------------------------------------------

  /** Prompts are no calls. */
  predicate PromptIsNoCall(s: St) {
    s.lastPrompt.Some? ==> s.lastPrompt.value < s.nextId && s.lastPrompt.value !in s.calls
  }

  lemma PromptStep(s: St, e: Event)
    requires RpcInv(s) && Enabled(s, e) && PromptIsNoCall(s)
    ensures PromptIsNoCall(After(s, e))
  {
    assert OwnReply(s, s.nextId);
    match e
    case CallSetMode(_) =>
    case OtherRequest =>
    case Written(_) =>
    case WriteFailed(_) =>
    case Result(id, body) => HandledPrompt(s, id, body);
    case ErrorReply(_) =>
    case Push(_, _) =>
    case ReceiveReply(_) =>
    case ChooseTimeout(_) =>
    case RemoveWaiter(_) =>
    case Resume(_) =>
    case SeeSession =>
    case WritePrompt =>
  }

  lemma HandledPrompt(s: St, id: nat, body: Body)
    requires PromptIsNoCall(s)
    ensures PromptIsNoCall(Handled(s, id, body))
  {
  }

  lemma {:induction false} RunPrompts(desired: string, states: seq<St>, events: seq<Event>, i: nat)
    requires Run(desired, states, events) && i < |states|
    ensures PromptIsNoCall(states[i])
  {
    if i > 0 {
      RunPrompts(desired, states, events, i - 1);
      RunKeeps(desired, states, events, i - 1);
      PromptStep(states[i - 1], events[i - 1]);
    }
  }

  /** The turn of prompt p ends with the reply to p, result or error, and such a reply does nothing
      else; apart from that only with the next prompt, or with a result that names a stop reason
      and no session and that nobody waits for. */
  lemma TurnEndsIff(desired: string, states: seq<St>, events: seq<Event>, i: nat, p: nat)
    requires Run(desired, states, events) && i < |events| && states[i].lastPrompt == Some(p)
    ensures var s, e, s' := states[i], events[i], states[i + 1];
            && (s'.lastPrompt != Some(p) <==>
                || e == WritePrompt
                || ((e.Result? || e.ErrorReply?) && e.id == p)
                || (e.Result? && e.id !in s.waiters && e.body.sessionID.None? && e.body.stopReason != ""))
            && ((e.Result? || e.ErrorReply?) && e.id == p ==> s' == s.(lastPrompt := None))
            && (e == WritePrompt ==> s'.lastPrompt == Some(s.nextId))
  {
    RunPrompts(desired, states, events, i);
    RunKeeps(desired, states, events, i);
    assert OwnReply(states[i], p);
    var s, e := states[i], events[i];
    match e
    case CallSetMode(_) =>
    case OtherRequest =>
    case Written(_) =>
    case WriteFailed(_) =>
    case Result(_, _) =>
    case ErrorReply(_) =>
    case Push(_, _) =>
    case ReceiveReply(_) =>
    case ChooseTimeout(_) =>
    case RemoveWaiter(_) =>
    case Resume(_) =>
    case SeeSession =>
    case WritePrompt =>
  }

  // ----- a call that goes through ------------------------------------------------------------------

  /** These events can happen one after the other from s, and lead to t. */
  predicate Steps(s: St, events: seq<Event>, t: St)
    decreases |events|
  {
    if events == [] then s == t else Enabled(s, events[0]) && Steps(After(s, events[0]), events[1..], t)
  }

  lemma {:induction false} StepsAppend(s: St, a: seq<Event>, m: St, b: seq<Event>, t: St)
    requires Steps(s, a, m) && Steps(m, b, t)
    ensures Steps(s, a + b, t)
    decreases |a|
  {
    if a == [] {
      assert a + b == b;
    } else {
      StepsAppend(After(s, a[0]), a[1..], m, b, t);
      assert (a + b)[1..] == a[1..] + b;
    }
  }

  lemma TwoSteps(s: St, e: Event, f: Event)
    requires Enabled(s, e) && Enabled(After(s, e), f)
    ensures Steps(s, [e, f], After(After(s, e), f))
  {
    var m := After(s, e);
    assert [e, f][1..] == [f] && [f][1..] == [];
    assert Steps(After(m, f), [], After(m, f));
    assert Steps(m, [f], After(m, f));
  }

  function ReplyEvent(id: nat, ok: bool, body: Body): Event {
    if ok then Result(id, body) else ErrorReply(id)
  }

  function CallEvents(id: nat, ok: bool, body: Body): seq<Event> {
    [Written(id), ReplyEvent(id, ok, body), Push(id, Reply(id, ok)), ReceiveReply(id), Resume(id)]
  }

  /** What a call that got this reply has changed. */
  predicate Done(s: St, id: nat, ok: bool, t: St) {
    && id in s.calls && id in t.calls && t.calls[id] == Call(s.calls[id].purpose, Resumed(Replied(Reply(id, ok))))
    && t.waiters == s.waiters - {id} && t.received == s.received + [(id, Reply(id, ok))]
    && t.nextId == s.nextId && t.ready == s.ready && t.prompts == s.prompts
    && t.desired == (if ok && s.calls[id].purpose.SwitchMode? then s.calls[id].purpose.mode else s.desired)
    && t.sessionID == (if ok && s.calls[id].purpose.InitialMode? then s.calls[id].purpose.sessionID else s.sessionID)
  }

  /** From any reachable state: a registered call is written, its reply is taken, pushed and
      received, and the caller acts on it.  A positive one exposes the session whose initial mode it
      set, or switches the mode; a negative one changes neither. */
  lemma CallGoesThrough(s: St, id: nat, ok: bool, body: Body) returns (t: St)
    requires RpcInv(s) && PromptIsNoCall(s) && InPhase(s, id, Registered) && id in s.waiters
    ensures Steps(s, CallEvents(id, ok, body), t) && Done(s, id, ok, t)
  {
    assert OwnReply(s, id);
    var s1 := After(s, Written(id));
    var s2 := TakeReply(s1, id, ok, body);
    TwoSteps(s, Written(id), ReplyEvent(id, ok, body));
    var s3 := PushAndReceive(s2, id, ok);
    t := After(s3, Resume(id));
    InThreeParts(s, s2, s3, t, id, ok, body);
    ResumeEffect(s, s3, id, ok);
  }

  lemma ResumeEffect(s: St, ended: St, id: nat, ok: bool)
    requires id in s.calls && id in ended.calls
    requires ended.calls[id] == Call(s.calls[id].purpose, Ended(Replied(Reply(id, ok))))
    requires ended.waiters == s.waiters - {id} && ended.received == s.received + [(id, Reply(id, ok))]
    requires ended.nextId == s.nextId && ended.ready == s.ready && ended.prompts == s.prompts
    requires ended.desired == s.desired && ended.sessionID == s.sessionID
    ensures Done(s, id, ok, After(ended, Resume(id)))
  {
  }

  lemma InThreeParts(s: St, s2: St, s3: St, t: St, id: nat, ok: bool, body: Body)
    requires Steps(s, [Written(id), ReplyEvent(id, ok, body)], s2)
    requires Steps(s2, [Push(id, Reply(id, ok)), ReceiveReply(id)], s3)
    requires Enabled(s3, Resume(id)) && t == After(s3, Resume(id))
    ensures Steps(s, CallEvents(id, ok, body), t)
  {
    var one, two := [Written(id), ReplyEvent(id, ok, body)], [Push(id, Reply(id, ok)), ReceiveReply(id)];
    var three := [Resume(id)];
    assert three[1..] == [];
    assert Steps(t, [], t);
    assert Steps(s3, three, t);
    StepsAppend(s2, two, s3, three, t);
    StepsAppend(s, one, s2, two + three, t);
    assert one + (two + three) == CallEvents(id, ok, body);
  }

  lemma TakeReply(s: St, id: nat, ok: bool, body: Body) returns (t: St)
    requires OwnReply(s, id) && PromptIsNoCall(s) && id in s.waiters && InPhase(s, id, Waiting)
    ensures Enabled(s, ReplyEvent(id, ok, body)) && t == After(s, ReplyEvent(id, ok, body))
    ensures t == s.(waiters := s.waiters - {id}, pushing := s.pushing + multiset{(id, Reply(id, ok))})
    ensures id in t.chans && t.chans[id] == []
  {
    t := After(s, ReplyEvent(id, ok, body));
  }

  lemma PushAndReceive(s: St, id: nat, ok: bool) returns (t: St)
    requires InPhase(s, id, Waiting) && (id, Reply(id, ok)) in s.pushing && id in s.chans && s.chans[id] == []
    ensures Steps(s, [Push(id, Reply(id, ok)), ReceiveReply(id)], t)
    ensures t == s.(calls := s.calls[id := s.calls[id].(phase := Ended(Replied(Reply(id, ok))))],
                    chans := t.chans, pushing := s.pushing - multiset{(id, Reply(id, ok))},
                    received := s.received + [(id, Reply(id, ok))])
  {
    var push, receive := Push(id, Reply(id, ok)), ReceiveReply(id);
    var m := After(s, push);
    assert m.chans[id] == [Reply(id, ok)];
    t := After(m, receive);
    assert Steps(t, [], t);
    assert [receive][1..] == [] && [push, receive][1..] == [receive];
    assert Steps(m, [receive], t);
  }

  lemma {:induction false} StepsKeep(s: St, events: seq<Event>, t: St)
    requires RpcInv(s) && PromptIsNoCall(s) && Steps(s, events, t)
    ensures RpcInv(t) && PromptIsNoCall(t)
    decreases |events|
  {
    if events != [] {
      StepKeeps(s, events[0]);
      PromptStep(s, events[0]);
      StepsKeep(After(s, events[0]), events[1..], t);
    }
  }

  lemma StartKeeps(desired: string)
    ensures RpcInv(Start(desired)) && PromptIsNoCall(Start(desired))
  {
    assert Run(desired, [Start(desired)], []);
    RunKeeps(desired, [Start(desired)], [], 0);
  }

  function NewSessionReply(session: string, mode: string): Body {
    Body(Some(session), mode, "")
  }

  const ANY := Body(None, "", "")

  /** A session that reports the wanted mode is prompted at once. */
  lemma PromptAtOnce(desired: string, session: string) returns (t: St)
    requires session != ""
    ensures Steps(Start(desired),
                  [OtherRequest, Result(0, NewSessionReply(session, desired))] + [SeeSession, WritePrompt], t)
    ensures t.prompts == [session] && t.lastPrompt == Some(1)
  {
    var s, answer := Start(desired), Result(0, NewSessionReply(session, desired));
    TwoSteps(s, OtherRequest, answer);
    var m := After(After(s, OtherRequest), answer);
    TwoSteps(m, SeeSession, WritePrompt);
    t := After(After(m, SeeSession), WritePrompt);
    StepsAppend(s, [OtherRequest, answer], m, [SeeSession, WritePrompt], t);
  }

  /** One that reports another mode is asked for the wanted one first, and prompted when it has
      acknowledged that; a later switch of the mode goes through as well. */
  lemma PromptAfterMode(desired: string, other: string, session: string, mode: string) returns (t: St)
    requires desired != "" && other != desired && session != ""
    ensures Steps(Start(desired),
                  ((([OtherRequest, Result(0, NewSessionReply(session, other))] + CallEvents(1, true, ANY))
                    + [SeeSession, WritePrompt]) + [CallSetMode(mode)]) + CallEvents(3, true, ANY), t)
    ensures t.prompts == [session] && t.desired == mode && t.sessionID == session
  {
    var s, answer := Start(desired), Result(0, NewSessionReply(session, other));
    var one, two := [OtherRequest, answer], [SeeSession, WritePrompt];
    TwoSteps(s, OtherRequest, answer);
    var s1 := After(After(s, OtherRequest), answer);
    StartKeeps(desired);
    StepsKeep(s, one, s1);
    var s2 := CallGoesThrough(s1, 1, true, ANY);
    StepsAppend(s, one, s1, CallEvents(1, true, ANY), s2);
    TwoSteps(s2, SeeSession, WritePrompt);
    var s3 := After(After(s2, SeeSession), WritePrompt);
    StepsAppend(s, one + CallEvents(1, true, ANY), s2, two, s3);
    t := SwitchMore(s, (one + CallEvents(1, true, ANY)) + two, s3, mode);
  }

  lemma SwitchMore(s: St, events: seq<Event>, m: St, mode: string) returns (t: St)
    requires RpcInv(s) && PromptIsNoCall(s) && Steps(s, events, m) && m.sessionID != "" && m.nextId == 3
    ensures Steps(s, (events + [CallSetMode(mode)]) + CallEvents(3, true, ANY), t)
    ensures t.prompts == m.prompts && t.desired == mode && t.sessionID == m.sessionID
  {
    var m1 := After(m, CallSetMode(mode));
    assert Steps(m1, [], m1);
    assert Steps(m, [CallSetMode(mode)], m1);
    StepsAppend(s, events, m, [CallSetMode(mode)], m1);
    StepsKeep(s, events + [CallSetMode(mode)], m1);
    t := CallGoesThrough(m1, 3, true, ANY);
    StepsAppend(s, events + [CallSetMode(mode)], m1, CallEvents(3, true, ANY), t);
  }
}
