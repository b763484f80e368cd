/** internal/protocol/acp.go, terminal commands of an agent: creation, the permission gate
    with its timer, the answer, execution, release and disconnect.  Each step is one critical
    section of terminalMu or one action between two of them. */
module Terminals {
  import opened Text
  import Shell

  /** optionApproves: any option that names an allow or approve outcome. */
  predicate OptionApproves(optionID: string) {
    var o := ToLower(optionID);
    Contains(o, "allow") || Contains(o, "approve")
  }

  predicate AutoApproves(permMode: string) {
    permMode == "accept-edits" || permMode == "accept-all"
  }

  /** entered: in the map, mode not yet read.  gating: timer armed, not yet in
      pendingPerms.  armed, firing: permission timers, and their callbacks on the way to the
      lock.  rejecting: denied, doneChan about to be closed.  queued, running: goroutines in
      executeTerminalCommand before and after the command started.  The rest is history:
      what happened to each terminal id, and how often. */
  datatype St = St(
    nextId: nat, commands: map<nat, string>,
    terminals: set<nat>, entered: set<nat>, gating: set<nat>, pendingPerms: set<nat>,
    armed: set<nat>, firing: set<nat>,
    rejecting: multiset<nat>, queued: multiset<nat>, running: multiset<nat>,
    closes: multiset<nat>, starts: multiset<nat>, denials: multiset<nat>, drops: multiset<nat>, invalids: multiset<nat>,
    autos: set<nat>, approvals: set<nat>)

  const INIT := St(0, map[], {}, {}, {}, {}, {}, {}, multiset{}, multiset{}, multiset{},
                   multiset{}, multiset{}, multiset{}, multiset{}, multiset{}, {}, {})

  datatype Event =
    | Create(command: string)
    | ReadMode(id: nat, permMode: string)
    | Park(id: nat)
    | TimerFires(id: nat)
    | TimerCallback(id: nat)
    | Answer(id: nat, optionID: string)
    | CloseRejected(id: nat)
    | Begin(id: nat, whitelist: map<string, bool>)
    | End(id: nat)
    | Release(id: nat)
    | Disconnect

  predicate Enabled(s: St, e: Event) {
    match e
    case Create(_) => true
    case ReadMode(id, _) => id in s.entered
    case Park(id) => id in s.gating
    case TimerFires(id) => id in s.armed
    case TimerCallback(id) => id in s.firing
    case Answer(_, _) => true
    case CloseRejected(id) => id in s.rejecting
    case Begin(id, _) => id in s.queued && id in s.commands
    case End(id) => id in s.running
    case Release(_) => true
    case Disconnect => true
  }

  /** resolvePendingTerminal up to the unlock, and what it does next. */
  function Resolved(s: St, id: nat, approved: bool): St {
    if id !in s.pendingPerms then s
    else
      var s1 := s.(pendingPerms := s.pendingPerms - {id}, armed := s.armed - {id});
      if approved then s1.(queued := s.queued + multiset{id}, approvals := s.approvals + {id})
      else s1.(denials := s.denials + multiset{id},
               rejecting := if id in s.terminals then s.rejecting + multiset{id} else s.rejecting)
  }

  /** close(state.doneChan), for a state found in the map. */
  function ClosedIfPresent(s: St, id: nat): St {
    if id in s.terminals then s.(closes := s.closes + multiset{id}) else s
  }

  function After(s: St, e: Event): St
    requires Enabled(s, e)
  {
    match e
    case Create(command) =>
      s.(nextId := s.nextId + 1, commands := s.commands[s.nextId := command],
         terminals := s.terminals + {s.nextId}, entered := s.entered + {s.nextId})
    case ReadMode(id, permMode) =>
      var s1 := s.(entered := s.entered - {id});
      if AutoApproves(permMode) then s1.(queued := s.queued + multiset{id}, autos := s.autos + {id})
      else s1.(gating := s.gating + {id}, armed := s.armed + {id})
    case Park(id) => s.(gating := s.gating - {id}, pendingPerms := s.pendingPerms + {id})
    case TimerFires(id) => s.(armed := s.armed - {id}, firing := s.firing + {id})
    case TimerCallback(id) => Resolved(s.(firing := s.firing - {id}), id, false)
    case Answer(id, optionID) => Resolved(s, id, OptionApproves(optionID))
    case CloseRejected(id) => s.(rejecting := s.rejecting - multiset{id}, closes := s.closes + multiset{id})
    case Begin(id, whitelist) =>
      var s1 := s.(queued := s.queued - multiset{id});
      if Shell.Relaxed(s.commands[id], whitelist) != Shell.Accepted then
        ClosedIfPresent(s1.(invalids := s.invalids + multiset{id}), id)
      else s1.(starts := s.starts + multiset{id}, running := s.running + multiset{id})
    case End(id) => ClosedIfPresent(s.(running := s.running - multiset{id}), id)
    case Release(id) => s.(terminals := s.terminals - {id})
    case Disconnect =>
      s.(pendingPerms := {}, armed := s.armed - s.pendingPerms, drops := s.drops + multiset(s.pendingPerms))
  }

  // ----- the code: what runs under terminalMu, and the actions between ------------------------

  class Adapter {
    var nextId: nat
    var commands: map<nat, string>
    var terminals: set<nat>
    var pendingPerms: set<nat>
    var armed: set<nat>
    /** goroutines under way and the history; its other fields are not used */
    ghost var rest: St

    ghost function State(): St
      reads this
    {
      rest.(nextId := nextId, commands := commands, terminals := terminals, pendingPerms := pendingPerms,
            armed := armed)
    }

    constructor ()
      ensures State() == INIT
    {
      nextId, commands, terminals, pendingPerms, armed := 0, map[], {}, {}, {};
      rest := INIT;
    }

    method HandleTerminalCreate(command: string) returns (id: nat)
      modifies this
      ensures id == old(nextId) && State() == After(old(State()), Create(command))
    {
      id := nextId;
      nextId := nextId + 1;
      commands := commands[id := command];
      terminals := terminals + {id};
      rest := rest.(entered := rest.entered + {id});
    }

    /** The mode check at the end of handleTerminalCreate; run says the command goes straight to
        executeTerminalCommand, otherwise its permission timer was started. */
    method GateOnMode(id: nat, permMode: string) returns (run: bool)
      requires id in rest.entered
      modifies this
      ensures run == AutoApproves(permMode) && State() == After(old(State()), ReadMode(id, permMode))
    {
      rest := rest.(entered := rest.entered - {id});
      if permMode != "accept-edits" && permMode != "accept-all" {
        armed := armed + {id};
        rest := rest.(gating := rest.gating + {id});
        return false;
      }
      rest := rest.(queued := rest.queued + multiset{id}, autos := rest.autos + {id});
      return true;
    }

    method ParkTerminal(id: nat)
      requires id in rest.gating
      modifies this
      ensures State() == After(old(State()), Park(id))
    {
      pendingPerms := pendingPerms + {id};
      rest := rest.(gating := rest.gating - {id});
    }

    /** Up to the unlock; approved commands go to executeTerminalCommand, denied ones whose
        state was still in the map have their doneChan closed next. */
    method ResolvePendingTerminal(id: nat, approved: bool) returns (handled: bool, stateOK: bool)
      modifies this
      ensures handled == (id in old(pendingPerms)) && stateOK == (id in terminals)
      ensures State() == Resolved(old(State()), id, approved)
    {
      handled := id in pendingPerms;
      if handled {
        pendingPerms := pendingPerms - {id};
        armed := armed - {id};
      }
      stateOK := id in terminals;
      if !handled {
        return;
      }
      if approved {
        rest := rest.(queued := rest.queued + multiset{id}, approvals := rest.approvals + {id});
        return;
      }
      rest := rest.(denials := rest.denials + multiset{id});
      if stateOK {
        rest := rest.(rejecting := rest.rejecting + multiset{id});
      }
    }

    method CloseRejectedTerminal(id: nat)
      requires id in rest.rejecting
      modifies this
      ensures State() == After(old(State()), CloseRejected(id))
    {
      rest := rest.(closes := rest.closes + multiset{id}, rejecting := rest.rejecting - multiset{id});
    }

    /** executeTerminalCommand up to the start of the command. */
    method BeginTerminalCommand(id: nat, validator: Shell.Validator) returns (started: bool)
      requires id in rest.queued && id in commands
      modifies this
      ensures State() == After(old(State()), Begin(id, old(validator.effectiveWhitelist)))
      ensures started == (Shell.Relaxed(old(commands)[id], old(validator.effectiveWhitelist)) == Shell.Accepted)
    {
      var verdict := validator.ValidateCommandRelaxed(commands[id]);
      rest := rest.(queued := rest.queued - multiset{id});
      if verdict != Shell.Accepted {
        rest := rest.(invalids := rest.invalids + multiset{id});
        if id in terminals {
          rest := rest.(closes := rest.closes + multiset{id});
        }
        return false;
      }
      rest := rest.(starts := rest.starts + multiset{id}, running := rest.running + multiset{id});
      return true;
    }

    method EndTerminalCommand(id: nat)
      requires id in rest.running
      modifies this
      ensures State() == After(old(State()), End(id))
    {
      if id in terminals {
        rest := rest.(closes := rest.closes + multiset{id});
      }
      rest := rest.(running := rest.running - multiset{id});
    }

    method HandleTerminalRelease(id: nat)
      modifies this
      ensures State() == After(old(State()), Release(id))
    {
      terminals := terminals - {id};
    }

    method DropPendingOnDisconnect()
      modifies this
      ensures State() == After(old(State()), Disconnect)
    {
      ghost var parked := pendingPerms;
      while pendingPerms != {}
        invariant pendingPerms <= parked
        invariant State() == old(State()).(pendingPerms := pendingPerms, armed := old(armed) - (parked - pendingPerms))
        decreases pendingPerms
      {
        var id :| id in pendingPerms;
        armed := armed - {id};
        pendingPerms := pendingPerms - {id};
        assert old(armed) - (parked - pendingPerms) == armed;
      }
      assert parked - {} == parked;
      rest := rest.(drops := rest.drops + multiset(parked));
    }
  }

  // ----- the invariant -----------------------------------------------------------------------

  function One(here: bool): nat {
    if here then 1 else 0
  }

  /** Undecided: the command is on its way to the gate or waits there. */
  function Undecided(s: St, id: nat): nat {
    One(id in s.entered) + One(id in s.gating) + One(id in s.pendingPerms)
  }

  /** Every terminal created has exactly one fate: undecided, about to be validated, started
      once, denied once, dropped by a disconnect, or found invalid. */
  predicate OneFate(s: St, id: nat) {
    Undecided(s, id) + s.queued[id] + s.starts[id] + s.denials[id] + s.drops[id] + s.invalids[id] == One(id < s.nextId)
  }

  /** Its doneChan is closed at most once, and not before its fate is decided. */
  predicate OneClose(s: St, id: nat) {
    && Undecided(s, id) + s.queued[id] + s.rejecting[id] + s.running[id] + s.closes[id] <= 1
    && s.rejecting[id] <= s.denials[id] && s.running[id] <= s.starts[id]
    && s.closes[id] <= s.denials[id] + s.starts[id] + s.invalids[id]
    && (id >= s.nextId ==> s.rejecting[id] + s.running[id] + s.closes[id] == 0)
  }

  /** Only an approving answer for its id, or an auto-approving mode, lets a command run. */
  predicate Authorised(s: St, id: nat) {
    s.queued[id] + s.starts[id] + s.invalids[id] > 0 ==> id in s.autos || id in s.approvals
  }

  ghost predicate Inv(s: St) {
    && (forall id: nat :: Good(s, id))
    && (forall id: nat | id < s.nextId :: id in s.commands)
  }

  lemma ResolvedKeeps(s: St, id: nat, approved: bool, t: nat)
    requires Good(s, t)
    ensures Good(Resolved(s, id, approved), t)
  {
  }

  predicate Good(s: St, t: nat) {
    OneFate(s, t) && OneClose(s, t) && Authorised(s, t)
  }

  lemma ArrivalKeeps(s: St, e: Event, t: nat)
    requires Good(s, t) && Enabled(s, e) && (e.Create? || e.ReadMode? || e.Park?)
    ensures Good(After(s, e), t)
  {
  }

  lemma DepartureKeeps(s: St, e: Event, t: nat)
    requires Good(s, t) && Enabled(s, e) && (e.TimerFires? || e.CloseRejected? || e.Release? || e.Disconnect?)
    ensures Good(After(s, e), t)
  {
  }

  lemma BeginKeeps(s: St, e: Event, t: nat)
    requires Good(s, t) && Enabled(s, e) && e.Begin?
    ensures Good(After(s, e), t)
  {
  }

  lemma EndKeeps(s: St, e: Event, t: nat)
    requires Good(s, t) && Enabled(s, e) && e.End?
    ensures Good(After(s, e), t)
  {
  }

  lemma OneKeeps(s: St, e: Event, t: nat)
    requires Good(s, t) && Enabled(s, e)
    ensures Good(After(s, e), t)
  {
    match e
    case TimerCallback(id) => ResolvedKeeps(s.(firing := s.firing - {id}), id, false, t);
    case Answer(id, optionID) => ResolvedKeeps(s, id, OptionApproves(optionID), t);
    case Create(_) | ReadMode(_, _) | Park(_) => ArrivalKeeps(s, e, t);
    case Begin(_, _) => BeginKeeps(s, e, t);
    case End(_) => EndKeeps(s, e, t);
    case TimerFires(_) | CloseRejected(_) | Release(_) | Disconnect => DepartureKeeps(s, e, t);
  }

  lemma StepKeeps(s: St, e: Event)
    requires Inv(s) && Enabled(s, e)
    ensures Inv(After(s, e))
  {
    forall t: nat ensures Good(After(s, e), t) {
      OneKeeps(s, e, t);
    }
    assert forall t: nat | t < After(s, e).nextId :: t in After(s, e).commands;
  }

  ghost predicate Run(states: seq<St>, events: seq<Event>) {
    && |states| == |events| + 1 && states[0] == INIT
    && forall i | 0 <= i < |events| :: Enabled(states[i], events[i]) && states[i + 1] == After(states[i], events[i])
  }

  lemma {:induction false} RunKeeps(states: seq<St>, events: seq<Event>, i: nat)
    requires Run(states, events) && i < |states|
    ensures Inv(states[i])
  {
    if i > 0 {
      RunKeeps(states, events, i - 1);
      StepKeeps(states[i - 1], events[i - 1]);
    }
  }

  /** Over all races of answer, timeout, release and disconnect: a doneChan is closed at most
      once, a command is started at most once and never after a denial, and a started command
      was approved for its id or created in an auto-approving mode. */
  lemma TerminalSafety(states: seq<St>, events: seq<Event>, i: nat, id: nat)
    requires Run(states, events) && i < |states|
    ensures var s := states[i];
            && s.closes[id] <= 1 && s.starts[id] <= 1
            && (s.starts[id] > 0 ==> s.denials[id] == 0 && s.drops[id] == 0 && (id in s.autos || id in s.approvals))
  {
    RunKeeps(states, events, i);
    assert Good(states[i], id);
  }

  // ----- when a doneChan is closed ------------------------------------------------------------------

  /** The step that settles a command for good: it is denied, found invalid, or its run ends. */
  predicate Settles(s: St, e: Event, id: nat) {
    match e
    case TimerCallback(x) => x == id && id in s.pendingPerms
    case Answer(x, optionID) => x == id && id in s.pendingPerms && !OptionApproves(optionID)
    case Begin(x, whitelist) =>
      x == id && id in s.commands && Shell.Relaxed(s.commands[id], whitelist) != Shell.Accepted
    case End(x) => x == id
    case _ => false
  }

  function Settled(s: St, id: nat): int {
    (s.denials[id] + s.invalids[id] + s.starts[id]) as int - s.running[id]
  }

  function ClosedOrClosing(s: St, id: nat): nat {
    s.closes[id] + s.rejecting[id]
  }

  predicate SettlingCounted(s: St, e: Event, s': St, id: nat) {
    && Settled(s', id) == Settled(s, id) + One(Settles(s, e, id))
    && ClosedOrClosing(s', id) == ClosedOrClosing(s, id) + One(Settles(s, e, id) && id in s.terminals)
  }

  lemma SettlingStep(s: St, e: Event, id: nat)
    requires Enabled(s, e)
    ensures SettlingCounted(s, e, After(s, e), id)
  {
    match e
    case Create(_) | ReadMode(_, _) | Park(_) | TimerFires(_) => ArrivalSettles(s, e, id);
    case TimerCallback(x) => ResolvedSettles(s.(firing := s.firing - {x}), x, false, id);
    case Answer(x, optionID) => ResolvedSettles(s, x, OptionApproves(optionID), id);
    case Begin(x, whitelist) => BeginSettles(s, x, whitelist, id);
    case CloseRejected(_) | End(_) | Release(_) | Disconnect => DepartureSettles(s, e, id);
  }

  lemma ArrivalSettles(s: St, e: Event, id: nat)
    requires Enabled(s, e) && (e.Create? || e.ReadMode? || e.Park? || e.TimerFires?)
    ensures SettlingCounted(s, e, After(s, e), id)
  {
    match e
    case Create(_) =>
    case ReadMode(_, _) =>
    case Park(_) =>
    case TimerFires(_) =>
  }

  lemma DepartureSettles(s: St, e: Event, id: nat)
    requires Enabled(s, e) && (e.CloseRejected? || e.End? || e.Release? || e.Disconnect?)
    ensures SettlingCounted(s, e, After(s, e), id)
  {
    match e
    case CloseRejected(_) =>
    case End(_) =>
    case Release(_) =>
    case Disconnect =>
  }

  lemma ResolvedSettles(s: St, x: nat, approved: bool, id: nat)
    ensures var s', settles := Resolved(s, x, approved), x == id && id in s.pendingPerms && !approved;
            && Settled(s', id) == Settled(s, id) + One(settles)
            && ClosedOrClosing(s', id) == ClosedOrClosing(s, id) + One(settles && id in s.terminals)
  {
  }

  lemma BeginSettles(s: St, x: nat, whitelist: map<string, bool>, id: nat)
    requires Enabled(s, Begin(x, whitelist))
    ensures SettlingCounted(s, Begin(x, whitelist), After(s, Begin(x, whitelist)), id)
  {
  }

  /** A command is settled at most once, and its doneChan is closed only after that. */
  lemma SettledOnce(states: seq<St>, events: seq<Event>, i: nat, id: nat)
    requires Run(states, events) && i < |states|
    ensures 0 <= ClosedOrClosing(states[i], id) <= Settled(states[i], id) <= 1
  {
    RunKeeps(states, events, i);
    assert Good(states[i], id);
  }

  lemma RunSettles(states: seq<St>, events: seq<Event>, k: nat, id: nat)
    requires Run(states, events) && k < |events|
    ensures SettlingCounted(states[k], events[k], states[k + 1], id)
  {
    SettlingStep(states[k], events[k], id);
  }

  lemma JustSettled(s: St, e: Event, s': St, id: nat)
    requires SettlingCounted(s, e, s', id) && Settles(s, e, id)
    requires 0 <= ClosedOrClosing(s, id) <= Settled(s, id) && Settled(s', id) <= 1
    ensures Settled(s', id) == 1 && ClosedOrClosing(s', id) == One(id in s.terminals)
  {
  }

  lemma StaysSettled(s: St, e: Event, s': St, id: nat)
    requires SettlingCounted(s, e, s', id) && Settled(s, id) == 1 && Settled(s', id) <= 1
    ensures Settled(s', id) == 1 && ClosedOrClosing(s', id) == ClosedOrClosing(s, id)
  {
  }

  lemma RunJustSettled(states: seq<St>, events: seq<Event>, k: nat, id: nat)
    requires Run(states, events) && k < |events| && Settles(states[k], events[k], id)
    ensures Settled(states[k + 1], id) == 1 && ClosedOrClosing(states[k + 1], id) == One(id in states[k].terminals)
  {
    RunSettles(states, events, k, id);
    SettledOnce(states, events, k, id);
    SettledOnce(states, events, k + 1, id);
    JustSettled(states[k], events[k], states[k + 1], id);
  }

  /** Once settled, nothing changes any more. */
  predicate Stays(s: St, s': St, id: nat) {
    Settled(s, id) == 1 ==> Settled(s', id) == 1 && ClosedOrClosing(s', id) == ClosedOrClosing(s, id)
  }

  lemma RunStays(states: seq<St>, events: seq<Event>, k: nat, id: nat)
    requires Run(states, events) && k < |events|
    ensures Stays(states[k], states[k + 1], id)
  {
    RunSettles(states, events, k, id);
    SettledOnce(states, events, k + 1, id);
    if Settled(states[k], id) == 1 {
      StaysSettled(states[k], events[k], states[k + 1], id);
    }
  }

  lemma {:induction false} SettledForGood(states: seq<St>, k: nat, i: nat, id: nat)
    requires forall m: nat | m + 1 < |states| :: Stays(states[m], states[m + 1], id)
    requires k <= i < |states| && Settled(states[k], id) == 1
    ensures Settled(states[i], id) == 1 && ClosedOrClosing(states[i], id) == ClosedOrClosing(states[k], id)
  {
    if k < i {
      SettledForGood(states, k, i - 1, id);
      assert Stays(states[i - 1], states[i - 1 + 1], id);
    }
  }

  lemma AfterSettling(states: seq<St>, events: seq<Event>, k: nat, i: nat, id: nat)
    requires Run(states, events) && k < i < |states| && Settles(states[k], events[k], id)
    ensures Settled(states[i], id) == 1 && ClosedOrClosing(states[i], id) == One(id in states[k].terminals)
  {
    RunJustSettled(states, events, k, id);
    forall m: nat | m + 1 < |states| ensures Stays(states[m], states[m + 1], id) {
      RunStays(states, events, m, id);
    }
    SettledForGood(states, k + 1, i, id);
  }

  lemma {:induction false} SettledBySomeStep(states: seq<St>, events: seq<Event>, i: nat, id: nat) returns (k: nat)
    requires Run(states, events) && i < |states| && Settled(states[i], id) > 0
    ensures k < i && Settles(states[k], events[k], id)
  {
    RunSettles(states, events, i - 1, id);
    if Settles(states[i - 1], events[i - 1], id) {
      k := i - 1;
    } else {
      k := SettledBySomeStep(states, events, i - 1, id);
    }
  }

  /** Nothing is under way for this terminal any more. */
  predicate AtRest(s: St, id: nat) {
    id < s.nextId && Undecided(s, id) + s.queued[id] + s.rejecting[id] + s.running[id] == 0
  }

  /** When nothing is under way for a terminal, its doneChan has been closed, and waiters woken,
      exactly when it was not dropped by a disconnect and its state was still in the map at the
      one step that settled it: a release before that leaves it open for good. */
  lemma ClosedIff(states: seq<St>, events: seq<Event>, i: nat, id: nat)
    requires Run(states, events) && i < |states| && AtRest(states[i], id)
    ensures states[i].drops[id] == 0 <==> exists k | 0 <= k < i :: Settles(states[k], events[k], id)
    ensures states[i].closes[id] == 1 <==>
            exists k | 0 <= k < i :: Settles(states[k], events[k], id) && id in states[k].terminals
    ensures states[i].closes[id] == 1 <==>
            && states[i].drops[id] == 0
            && forall k | 0 <= k < i && Settles(states[k], events[k], id) :: id in states[k].terminals
  {
    var s := states[i];
    RunKeeps(states, events, i);
    assert Good(s, id);
    if Settled(s, id) > 0 {
      var k := SettledBySomeStep(states, events, i, id);
    }
    forall k | 0 <= k < i && Settles(states[k], events[k], id)
      ensures Settled(s, id) == 1 && s.closes[id] == One(id in states[k].terminals)
    {
      AfterSettling(states, events, k, i, id);
    }
  }

  // ----- the permission timer -------------------------------------------------------------------------

  predicate CallbackRan(events: seq<Event>, id: nat) {
    exists j | 0 <= j < |events| :: events[j] == TimerCallback(id)
  }

  /** A timer is armed once, fires at most once and calls back at most once; it is there while
      its command is gated or parked, unless it called back already. */
  predicate TimerOnce(s: St, id: nat, ran: bool) {
    && One(id in s.armed) + One(id in s.firing) + One(ran) <= 1
    && (id in s.gating || id in s.pendingPerms ==> One(id in s.armed) + One(id in s.firing) + One(ran) == 1)
    && (id in s.entered || id >= s.nextId ==> id !in s.armed && id !in s.firing && !ran)
  }

  lemma TimerStep(s: St, e: Event, id: nat, ran: bool)
    requires Enabled(s, e) && Good(s, id) && TimerOnce(s, id, ran)
    ensures TimerOnce(After(s, e), id, ran || e == TimerCallback(id))
  {
    match e
    case Create(_) =>
    case ReadMode(_, _) =>
    case Park(_) =>
    case TimerFires(_) =>
    case TimerCallback(_) =>
    case Answer(_, _) =>
    case CloseRejected(_) =>
    case Begin(_, _) =>
    case End(_) =>
    case Release(_) =>
    case Disconnect =>
  }

  lemma {:induction false} RunTimers(states: seq<St>, events: seq<Event>, i: nat, id: nat)
    requires Run(states, events) && i < |states|
    ensures TimerOnce(states[i], id, CallbackRan(events[..i], id))
  {
    if i > 0 {
      RunTimers(states, events, i - 1, id);
      RunKeeps(states, events, i - 1);
      assert Good(states[i - 1], id);
      TimerStep(states[i - 1], events[i - 1], id, CallbackRan(events[..i - 1], id));
      RanStep(events, i, id);
    }
  }

  lemma RanStep(events: seq<Event>, i: nat, id: nat)
    requires 0 < i <= |events|
    ensures CallbackRan(events[..i], id) <==> CallbackRan(events[..i - 1], id) || events[i - 1] == TimerCallback(id)
  {
    var now, before := events[..i], events[..i - 1];
    if CallbackRan(before, id) {
      var j :| 0 <= j < |before| && before[j] == TimerCallback(id);
      assert now[j] == TimerCallback(id);
    }
    assert now[i - 1] == events[i - 1];
    if j :| 0 <= j < |now| && now[j] == TimerCallback(id) && j < i - 1 {
      assert before[j] == TimerCallback(id);
    }
  }

  /** A parked command is sure to be answered in time exactly when its timer did not call back
      before it was parked: then, and only then, the timer is armed or about to call back. */
  lemma ParkedHasTimerIff(states: seq<St>, events: seq<Event>, i: nat, id: nat)
    requires Run(states, events) && i < |states| && id in states[i].pendingPerms
    ensures id in states[i].armed || id in states[i].firing <==> !CallbackRan(events[..i], id)
  {
    RunTimers(states, events, i, id);
  }

  function Created(command: string): St {
    INIT.(nextId := 1, commands := map[0 := command], terminals := {0}, entered := {0})
  }

  function Gated(command: string): St {
    Created(command).(entered := {}, gating := {0}, armed := {0})
  }

  function Fired(command: string): St {
    Gated(command).(armed := {}, firing := {0})
  }

  function CalledBack(command: string): St {
    Gated(command).(armed := {})
  }

  function Parked(command: string): St {
    CalledBack(command).(gating := {}, pendingPerms := {0})
  }

  predicate Moves(s: St, e: Event, s': St) {
    Enabled(s, e) && s' == After(s, e)
  }

  lemma FiringSteps(command: string)
    ensures Moves(Gated(command), TimerFires(0), Fired(command))
    ensures Moves(Fired(command), TimerCallback(0), CalledBack(command))
  {
  }

  lemma GatingSteps(command: string)
    ensures Moves(INIT, Create(command), Created(command))
    ensures Moves(Created(command), ReadMode(0, "default"), Gated(command))
    ensures Moves(CalledBack(command), Park(0), Parked(command))
  {
  }

  lemma MovesMakeRun(states: seq<St>, events: seq<Event>)
    requires |states| == |events| + 1 && states[0] == INIT
    requires forall i | 0 <= i < |events| :: Moves(states[i], events[i], states[i + 1])
    ensures Run(states, events)
  {
    forall i | 0 <= i < |events| ensures Enabled(states[i], events[i]) && states[i + 1] == After(states[i], events[i]) {
      assert Moves(states[i], events[i], states[i + 1]);
    }
  }

  /** The other case occurs: nothing but an answer or a disconnect ends the wait. */
  lemma ParkedWithoutTimer(command: string)
    ensures Run([INIT, Created(command), Gated(command), Fired(command), CalledBack(command), Parked(command)],
                [Create(command), ReadMode(0, "default"), TimerFires(0), TimerCallback(0), Park(0)])
    ensures 0 in Parked(command).pendingPerms && Parked(command).armed + Parked(command).firing == {}
  {
    GatingSteps(command);
    FiringSteps(command);
    MovesMakeRun([INIT, Created(command), Gated(command), Fired(command), CalledBack(command), Parked(command)],
                 [Create(command), ReadMode(0, "default"), TimerFires(0), TimerCallback(0), Park(0)]);
  }

  // ----- release and disconnect ---------------------------------------------------------------------

  /** Parked under the default mode, its timer still armed. */
  function Waiting(command: string): St {
    Gated(command).(gating := {}, pendingPerms := {0})
  }

  function WaitingReleased(command: string): St {
    Waiting(command).(terminals := {})
  }

  function DeniedReleased(command: string): St {
    WaitingReleased(command).(pendingPerms := {}, armed := {}, denials := multiset{0})
  }

  function Dropped(command: string): St {
    Waiting(command).(pendingPerms := {}, armed := {}, drops := multiset{0})
  }

  lemma WaitingSteps(command: string)
    ensures Moves(Gated(command), Park(0), Waiting(command))
    ensures Moves(Waiting(command), Release(0), WaitingReleased(command))
    ensures Moves(Waiting(command), Disconnect, Dropped(command))
  {
    assert multiset{} + multiset({0}) == multiset{0};
  }

  lemma DeniedStep(command: string)
    ensures Moves(WaitingReleased(command), Answer(0, "reject_once"), DeniedReleased(command))
  {
    RejectOnce();
    ApprovingOptions("reject_once");
  }

  /** Released while it waits for its answer, then denied: its doneChan is never closed. */
  lemma ReleasedStaysOpen(command: string)
    ensures Run([INIT, Created(command), Gated(command), Waiting(command), WaitingReleased(command),
                 DeniedReleased(command)],
                [Create(command), ReadMode(0, "default"), Park(0), Release(0), Answer(0, "reject_once")])
    ensures AtRest(DeniedReleased(command), 0) && DeniedReleased(command).closes == multiset{}
  {
    GatingSteps(command);
    WaitingSteps(command);
    DeniedStep(command);
    MovesMakeRun([INIT, Created(command), Gated(command), Waiting(command), WaitingReleased(command),
                  DeniedReleased(command)],
                 [Create(command), ReadMode(0, "default"), Park(0), Release(0), Answer(0, "reject_once")]);
  }

  /** Dropped by a disconnect while it waits: neither is it, and no timer is left. */
  lemma DroppedStaysOpen(command: string)
    ensures Run([INIT, Created(command), Gated(command), Waiting(command), Dropped(command)],
                [Create(command), ReadMode(0, "default"), Park(0), Disconnect])
    ensures AtRest(Dropped(command), 0) && Dropped(command).closes == multiset{}
    ensures Dropped(command).armed + Dropped(command).firing == {}
  {
    GatingSteps(command);
    WaitingSteps(command);
    MovesMakeRun([INIT, Created(command), Gated(command), Waiting(command), Dropped(command)],
                 [Create(command), ReadMode(0, "default"), Park(0), Disconnect]);
  }

  /** Whatever the state: a release takes the id, and no other, out of the map; a disconnect drops
      every parked command, once each, and stops its timer, and nothing else. */
  lemma LeavingMeaning(s: St, id: nat)
    ensures After(s, Release(id)) == s.(terminals := After(s, Release(id)).terminals)
    ensures forall t :: t in After(s, Release(id)).terminals <==> t in s.terminals && t != id
    ensures var s' := After(s, Disconnect);
            && s' == s.(pendingPerms := {}, armed := s'.armed, drops := s'.drops)
            && s'.drops[id] == s.drops[id] + One(id in s.pendingPerms)
            && (id in s'.armed <==> id in s.armed && id !in s.pendingPerms)
  {
  }

  // ----- where approvals and starts come from -------------------------------------------------------

  /** An answer for this id that reads "allow" or "approve" somewhere, in any letter case, while
      its command is parked. */
  ghost predicate IsApproval(s: St, e: Event, id: nat) {
    && e.Answer? && e.id == id && id in s.pendingPerms
    && (Says(e.optionID, "allow") || Says(e.optionID, "approve"))
  }

  /** The command is created while the mode is one of the two that ask nobody. */
  predicate IsAutoMode(s: St, e: Event, id: nat) {
    e.ReadMode? && e.id == id && id in s.entered && (e.permMode == "accept-edits" || e.permMode == "accept-all")
  }

  lemma ApprovingOptions(optionID: string)
    ensures OptionApproves(optionID) <==> Says(optionID, "allow") || Says(optionID, "approve")
  {
    ContainsMeaning(optionID, "allow");
    ContainsMeaning(optionID, "approve");
  }

  /** The answer to a parked command: it goes to execution if the option reads "allow" or "approve"
      somewhere, in any letter case, and is denied otherwise; its timer is stopped and it waits no
      longer in both cases.  An answer for any other id changes nothing. */
  lemma AnswerMeaning(s: St, id: nat, optionID: string)
    ensures var s', approved := After(s, Answer(id, optionID)), Says(optionID, "allow") || Says(optionID, "approve");
            if id !in s.pendingPerms then s' == s
            else
              && s'.pendingPerms == s.pendingPerms - {id} && s'.armed == s.armed - {id}
              && s'.queued == (if approved then s.queued + multiset{id} else s.queued)
              && s'.denials == (if approved then s.denials else s.denials + multiset{id})
              && s'.rejecting == (if !approved && id in s.terminals then s.rejecting + multiset{id} else s.rejecting)
  {
    ApprovingOptions(optionID);
  }

  /** The two options the gate offers: one runs the command, the other denies it. */
  lemma OfferedOptions(s: St, id: nat)
    requires id in s.pendingPerms
    ensures var s' := After(s, Answer(id, "allow_once"));
            s'.queued[id] == s.queued[id] + 1 && s'.denials[id] == s.denials[id]
    ensures var s' := After(s, Answer(id, "reject_once"));
            s'.queued[id] == s.queued[id] && s'.denials[id] == s.denials[id] + 1
  {
    AllowOnce();
    RejectOnce();
    AnswerMeaning(s, id, "allow_once");
    AnswerMeaning(s, id, "reject_once");
  }

  lemma AllowOnce()
    ensures Says("allow_once", "allow")
  {
    assert ReadsAt("allow_once", 0, "allow");
  }

  /** A word that begins with a letter s does not have is nowhere in s. */
  lemma MissingLetter(s: string, word: string)
    requires word != "" && forall i | 0 <= i < |s| :: !SameLetter(s[i], word[0])
    ensures !Says(s, word)
  {
    forall i ensures !ReadsAt(s, i, word) {
      assert 0 <= i < |s| ==> !SameLetter(s[i + 0], word[0]);
    }
  }

  lemma RejectOnce()
    ensures !Says("reject_once", "allow") && !Says("reject_once", "approve")
  {
    assert 'a' !in "reject_once" && 'A' !in "reject_once";
    MissingLetter("reject_once", "allow");
    MissingLetter("reject_once", "approve");
  }

  /** The mode at creation: "accept-edits" and "accept-all" send the command to execution at once,
      any other mode starts its permission timer instead. */
  lemma ModeMeaning(s: St, id: nat, permMode: string)
    requires id in s.entered
    ensures var s', auto := After(s, ReadMode(id, permMode)), permMode == "accept-edits" || permMode == "accept-all";
            && s'.entered == s.entered - {id}
            && s'.queued == (if auto then s.queued + multiset{id} else s.queued)
            && s'.gating == (if auto then s.gating else s.gating + {id})
            && s'.armed == (if auto then s.armed else s.armed + {id})
  {
  }

  predicate IsStart(e: Event, id: nat, command: string) {
    e.Begin? && e.id == id && Shell.Relaxed(command, e.whitelist) == Shell.Accepted
  }

  ghost predicate WasApproved(states: seq<St>, events: seq<Event>, n: nat, id: nat)
    requires n <= |events| <= |states|
  {
    exists j | 0 <= j < n :: IsApproval(states[j], events[j], id)
  }

  ghost predicate WasAuto(states: seq<St>, events: seq<Event>, n: nat, id: nat)
    requires n <= |events| <= |states|
  {
    exists j | 0 <= j < n :: IsAutoMode(states[j], events[j], id)
  }

  /** Approvals and auto entries stem from events of their id. */
  lemma {:induction false} RunApprovals(states: seq<St>, events: seq<Event>, i: nat, id: nat)
    requires Run(states, events) && i < |states|
    ensures id in states[i].approvals ==> WasApproved(states, events, i, id)
    ensures id in states[i].autos ==> WasAuto(states, events, i, id)
  {
    if i > 0 {
      RunApprovals(states, events, i - 1, id);
      NewApproval(states[i - 1], events[i - 1], id);
      assert IsApproval(states[i - 1], events[i - 1], id) ==> WasApproved(states, events, i, id);
      assert IsAutoMode(states[i - 1], events[i - 1], id) ==> WasAuto(states, events, i, id);
    }
  }

  lemma NewApproval(s: St, e: Event, id: nat)
    requires Enabled(s, e)
    ensures id in After(s, e).approvals ==> id in s.approvals || IsApproval(s, e, id)
    ensures id in After(s, e).autos ==> id in s.autos || IsAutoMode(s, e, id)
  {
    match e
    case Create(_) =>
    case ReadMode(_, _) =>
    case Park(_) =>
    case TimerFires(_) =>
    case TimerCallback(_) =>
    case Answer(_, optionID) => ApprovingOptions(optionID);
    case CloseRejected(_) =>
    case Begin(_, _) =>
    case End(_) =>
    case Release(_) =>
    case Disconnect =>
  }

  /** Whenever a command starts, the relaxed validator has just accepted it, and before that its id
      got an approving answer while parked, or its mode at creation asked nobody. */
  lemma StartsAreAuthorised(states: seq<St>, events: seq<Event>, i: nat, id: nat)
    requires Run(states, events) && i < |events| && states[i + 1].starts[id] > states[i].starts[id]
    ensures id in states[i].commands && IsStart(events[i], id, states[i].commands[id])
    ensures exists j | 0 <= j < i :: IsApproval(states[j], events[j], id) || IsAutoMode(states[j], events[j], id)
  {
    NewStart(states[i], events[i], id);
    RunKeeps(states, events, i);
    assert Good(states[i], id);
    RunApprovals(states, events, i, id);
  }

  lemma NewStart(s: St, e: Event, id: nat)
    requires Enabled(s, e) && After(s, e).starts[id] > s.starts[id]
    ensures id in s.commands && IsStart(e, id, s.commands[id]) && id in s.queued
  {
  }
}
