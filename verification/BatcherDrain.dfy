/** The batcher left to itself: without arrivals, timers and their callbacks come to an end, and
    the wait group reaches zero, which is what Stop waits for. */
module BatcherDrain {
  import opened Text
  import opened Batcher
  import opened BatcherRuns

  /** A step of a timer or its callback. */
  predicate Quiet(e: Event) {
    e.Fire? || e.Callback?
  }

  ghost predicate QuietStep(s: St, s': St) {
    exists e :: Quiet(e) && Step(s, e, s')
  }

  // ----- every quiet run is finite --------------------------------------------------------------

  /** Every batch holds something, less than n bytes, and is not forced. */
  predicate Below(buf: Buffer, n: nat) {
    forall key | key in buf :: buf[key].chunks != [] && !buf[key].forceFlush && |Pending(buf[key])| < n
  }

  lemma FlushBelow(buf: Buffer, buf': Buffer, n: nat)
    requires Flushed(buf, buf') && Below(buf, n) && 0 < n <= MAX_BATCH_SIZE
    ensures Below(buf', n - 1)
  {
    forall key | key in buf'
      ensures buf'[key].chunks != [] && !buf'[key].forceFlush && |Pending(buf'[key])| < n - 1
    {
      RemainingPending(buf[key]);
      FlushShrinks(buf[key], buf'[key]);
    }
  }

  function Left(s: St, n: nat): nat {
    3 * n + 2 * |s.armed| + |s.fired|
  }

  /** A flush takes a byte off every batch, and re-arming costs less than that. */
  lemma QuietShrinks(s: St, e: Event, s': St, n: nat) returns (n': nat)
    requires Counted(s) && Quiet(e) && Step(s, e, s') && Below(s.buf, n) && n <= MAX_BATCH_SIZE
    ensures Below(s'.buf, n') && n' <= n && Left(s', n') < Left(s, n)
  {
    match e
    case Fire(t) =>
      n' := n;
      FireCost(s, t, n);
    case Callback(t) =>
      n' := CallbackShrinks(s, t, s', n);
  }

  lemma FireCost(s: St, t: nat, n: nat)
    requires Counted(s) && t in s.armed
    ensures Left(s.(armed := s.armed - {t}, fired := s.fired + {t}), n) < Left(s, n)
  {
  }

  lemma CallbackShrinks(s: St, t: nat, s': St, n: nat) returns (n': nat)
    requires Counted(s) && CallbackStep(s, t, s') && Below(s.buf, n) && n <= MAX_BATCH_SIZE
    ensures Below(s'.buf, n') && n' <= n && Left(s', n') < Left(s, n)
  {
    var f: St :| FlushStep(s, f) && s' == AfterFlush(f, t);
    n' := if n == 0 then 0 else n - 1;
    if n > 0 {
      FlushBelow(s.buf, f.buf, n);
    }
    RearmCost(s, f, t, n);
  }

  lemma RearmCost(s: St, f: St, t: nat, n: nat)
    requires Counted(s) && t in s.fired && f == s.(buf := f.buf, sent := f.sent)
    requires n == 0 ==> f.buf == map[]
    ensures 2 * |AfterFlush(f, t).armed| + |AfterFlush(f, t).fired|
            < 2 * |s.armed| + |s.fired| + (if n == 0 then 0 else 3)
  {
    assert s.fired == (s.fired - {t}) + {t};
  }

  ghost predicate QuietRun(states: seq<St>, events: seq<Event>, i: nat, j: nat) {
    Run(states, events) && i <= j < |states| && forall k | i <= k < j :: Quiet(events[k])
  }

  /** From state i to state j: n bounds the batches, and every step has taken its share. */
  ghost predicate Shrunk(states: seq<St>, i: nat, j: nat, n: nat)
    requires i <= j < |states|
  {
    && n <= MAX_BATCH_SIZE && Below(states[j].buf, n)
    && Left(states[j], n) + (j - i) <= Left(states[i], MAX_BATCH_SIZE)
  }

  lemma {:induction false} QuietBound(states: seq<St>, events: seq<Event>, i: nat, j: nat) returns (n: nat)
    requires QuietRun(states, events, i, j)
    ensures Shrunk(states, i, j, n)
    decreases j
  {
    if i == j {
      n := MAX_BATCH_SIZE;
      QuietStart(states, events, i);
    } else {
      ShorterQuiet(states, events, i, j);
      var before := QuietBound(states, events, i, j - 1);
      n := OneMoreQuiet(states, events, i, j, before);
    }
  }

  lemma ShorterQuiet(states: seq<St>, events: seq<Event>, i: nat, j: nat)
    requires QuietRun(states, events, i, j) && i < j
    ensures QuietRun(states, events, i, j - 1)
  {
  }

  lemma OneMoreQuiet(states: seq<St>, events: seq<Event>, i: nat, j: nat, before: nat) returns (n: nat)
    requires QuietRun(states, events, i, j) && i < j && Shrunk(states, i, j - 1, before)
    ensures Shrunk(states, i, j, n)
  {
    n := QuietNext(states, events, j, before);
    ShrunkMore(states, i, j, before, n);
  }

  lemma ShrunkMore(states: seq<St>, i: nat, j: nat, before: nat, n: nat)
    requires i < j < |states| && Shrunk(states, i, j - 1, before)
    requires Below(states[j].buf, n) && n <= before && Left(states[j], n) < Left(states[j - 1], before)
    ensures Shrunk(states, i, j, n)
  {
  }

  lemma QuietStart(states: seq<St>, events: seq<Event>, i: nat)
    requires Run(states, events) && i < |states|
    ensures Shrunk(states, i, i, MAX_BATCH_SIZE)
  {
    EveryRunKeeps(states, events, i);
  }

  lemma QuietNext(states: seq<St>, events: seq<Event>, j: nat, n: nat) returns (n': nat)
    requires Run(states, events) && 0 < j < |states| && Quiet(events[j - 1])
    requires Below(states[j - 1].buf, n) && n <= MAX_BATCH_SIZE
    ensures Below(states[j].buf, n') && n' <= n && Left(states[j], n') < Left(states[j - 1], n)
  {
    EveryRunKeeps(states, events, j - 1);
    assert Step(states[j - 1], events[j - 1], states[j - 1 + 1]);
    n' := QuietShrinks(states[j - 1], events[j - 1], states[j], n);
  }

  // ----- and ends with nothing outstanding ---------------------------------------------------------

  lemma {:induction false} FlushRest(buf0: Buffer, sent0: seq<Sent>, buf: Buffer, sent: seq<Sent>, todo: set<string>)
    returns (buf': Buffer, sent': seq<Sent>)
    requires WellKeyed(buf0) && FlushedBut(buf0, buf, todo) && SentBut(buf0, sent0, sent, todo)
    ensures Flushed(buf0, buf') && FlushSent(buf0, sent0, sent')
    decreases todo
  {
    if todo == {} {
      buf', sent' := buf, sent;
      AllSent(buf0, sent0, sent);
    } else {
      var key :| key in todo;
      var sent1 := if buf0[key].chunks == [] then sent else sent + [MessageOf(buf0[key])];
      var buf1 := match Remaining(buf0[key]) case None => buf - {key} case Some(r) => buf[key := r];
      SentOneMore(buf0, sent0, sent, sent1, todo, key);
      buf', sent' := FlushRest(buf0, sent0, buf1, sent1, todo - {key});
    }
  }

  /** A flush can always be made. */
  lemma FlushPossible(s: St) returns (f: St)
    requires WellKeyed(s.buf)
    ensures FlushStep(s, f)
  {
    forall sessionID, msgType ensures StreamSentBut(s.buf, s.sent, s.sent, s.buf.Keys, sessionID, msgType) {
      NothingSentYet(s.buf, s.sent, sessionID, msgType);
    }
    var buf, sent := FlushRest(s.buf, s.sent, s.buf, s.sent, s.buf.Keys);
    f := s.(buf := buf, sent := sent);
  }

  lemma NothingSentYet(buf: Buffer, sent: seq<Sent>, sessionID: string, msgType: MessageType)
    ensures StreamSentBut(buf, sent, sent, buf.Keys, sessionID, msgType)
  {
    var was := SentFor(sent, sessionID, msgType);
    assert was + "" == was;
  }

  /** A timer or a callback can move exactly while the wait group is not zero. */
  lemma MovesWhileWaiting(s: St)
    requires Inv(s)
    ensures s.wait > 0 <==> exists s' :: QuietStep(s, s')
  {
    if s.wait > 0 {
      var s' := MovePossible(s);
    }
    if s' :| QuietStep(s, s') {
      var e :| Quiet(e) && Step(s, e, s');
      assert (e.Fire? && e.t in s.armed) || (e.Callback? && e.t in s.fired);
    }
  }

  lemma MovePossible(s: St) returns (s': St)
    requires WellKeyed(s.buf) && s.armed + s.fired != {}
    ensures QuietStep(s, s')
  {
    if t :| t in s.armed {
      s' := s.(armed := s.armed - {t}, fired := s.fired + {t});
      assert Quiet(Fire(t)) && Step(s, Fire(t), s');
    } else {
      var t :| t in s.fired;
      var f := FlushPossible(s);
      s' := AfterFlush(f, t);
      assert Quiet(Callback(t)) && Step(s, Callback(t), s');
    }
  }

  /** On every run, from any reachable state: a stretch of steps of timers and callbacks alone is
      no longer than this, and it can be continued exactly while the wait group is not zero; at
      zero nothing is held, unless Stop has run. */
  lemma QuietRunsEnd(states: seq<St>, events: seq<Event>, i: nat, j: nat)
    requires QuietRun(states, events, i, j)
    ensures j - i <= 3 * MAX_BATCH_SIZE + 2 * states[i].wait
    ensures states[j].wait > 0 <==> exists s' :: QuietStep(states[j], s')
    ensures states[j].wait == 0 && Stop !in events[..j] ==> states[j].buf == map[]
  {
    var n := QuietBound(states, events, i, j);
    EveryRunKeeps(states, events, i);
    EveryRunKeeps(states, events, j);
    MovesWhileWaiting(states[j]);
    OneOutstanding(states, events, j);
  }
}
