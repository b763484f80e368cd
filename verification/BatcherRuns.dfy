/** What the batcher keeps over every interleaving of chunk arrivals, timer callbacks and
    Stop: nothing is lost or reordered on a stream, batches stay small, held content always
    has a callback coming, and the wait group counts exactly the outstanding callbacks. */
module BatcherRuns {
  import opened Text
  import opened Batcher
  import Markdown
  import MarkdownCuts
  import MarkdownGrowth

  /** A stream's sent content followed by its held content is its input. */
  ghost predicate Conserved(s: St) {
    forall sessionID, msgType ::
      SentFor(s.sent, sessionID, msgType) + PendingFor(s.buf, sessionID, msgType) == InputFor(s.log, sessionID, msgType)
  }

  /** Every batch holds something, is below the flush threshold and is not forced. */
  predicate Small(buf: Buffer) {
    forall key | key in buf :: buf[key].chunks != [] && !buf[key].forceFlush && |Pending(buf[key])| < MAX_BATCH_SIZE
  }

  /** The wait group counts the callbacks that are armed or waiting for the lock. */
  predicate Counted(s: St) {
    && s.wait == |s.armed| + |s.fired|
    && s.armed !! s.fired
    && (forall t | t in s.armed :: t < s.nextTimer)
    && (forall t | t in s.fired :: t < s.nextTimer)
  }

  /** Until Stop: held content has exactly one outstanding callback. */
  predicate Covered(s: St) {
    !s.stopped ==>
      match s.timer
      case None => s.armed == {} && s.fired == {} && s.buf == map[]
      case Some(t) => s.armed + s.fired == {t}
  }

  ghost predicate Inv(s: St) {
    WellKeyed(s.buf) && Small(s.buf) && Conserved(s) && Counted(s) && Covered(s)
  }

  // ----- one flush -------------------------------------------------------------------------

  lemma JoinAppend(chunks: seq<string>, c: string)
    ensures Join(chunks + [c]) == Join(chunks) + c
  {
  }

  /** What a flush leaves of a batch is what it did not send. */
  lemma RemainingPending(b: Batch)
    requires b.chunks != []
    ensures FlushPart(b) + (match Remaining(b) case None => "" case Some(r) => Pending(r)) == Pending(b)
    ensures Remaining(b).Some? ==>
              var r := Remaining(b).value;
              r.chunks != [] && Pending(r) != "" && !b.forceFlush
              && r.sessionID == b.sessionID && r.msgType == b.msgType
              && r.forceFlush == (|Pending(r)| >= MAX_BATCH_SIZE)
    ensures Pending(b) != "" ==> FlushPart(b) != ""
  {
    var remainder := SplitBatch(b).1;
    JoinAppend([], remainder);
    assert [] + [remainder] == [remainder] && Join([]) + remainder == remainder;
  }

  predicate Flushable(buf: Buffer) {
    forall key | key in buf :: buf[key].chunks != [] && (buf[key].forceFlush || |Pending(buf[key])| < MAX_BATCH_SIZE)
  }

  lemma FlushKeeps(s: St, s': St)
    requires FlushStep(s, s') && WellKeyed(s.buf) && Flushable(s.buf) && Conserved(s)
    ensures WellKeyed(s'.buf) && Small(s'.buf) && Conserved(s')
    ensures s'.buf.Keys <= s.buf.Keys
  {
    forall key | key in s'.buf
      ensures KeyOf(s'.buf[key].sessionID, s'.buf[key].msgType) == key
      ensures s'.buf[key].chunks != [] && !s'.buf[key].forceFlush && |Pending(s'.buf[key])| < MAX_BATCH_SIZE
    {
      RemainingPending(s.buf[key]);
    }
    forall sessionID, msgType
      ensures SentFor(s'.sent, sessionID, msgType) + PendingFor(s'.buf, sessionID, msgType)
              == InputFor(s.log, sessionID, msgType)
    {
      FlushConservesStream(s, s', sessionID, msgType);
    }
  }

  lemma FlushConservesStream(s: St, s': St, sessionID: string, msgType: MessageType)
    requires FlushStep(s, s') && Flushable(s.buf) && Conserved(s)
    ensures SentFor(s'.sent, sessionID, msgType) + PendingFor(s'.buf, sessionID, msgType)
            == InputFor(s.log, sessionID, msgType)
  {
    FlushSplitsPending(s.buf, s'.buf, sessionID, msgType);
    SplitSent(SentFor(s.sent, sessionID, msgType), FlushPartFor(s.buf, sessionID, msgType),
              PendingFor(s'.buf, sessionID, msgType));
  }

  lemma SplitSent(sent: string, part: string, held: string)
    ensures (sent + part) + held == sent + (part + held)
  {
  }

  lemma FlushSplitsPending(buf: Buffer, buf': Buffer, sessionID: string, msgType: MessageType)
    requires Flushed(buf, buf') && Flushable(buf)
    ensures FlushPartFor(buf, sessionID, msgType) + PendingFor(buf', sessionID, msgType)
            == PendingFor(buf, sessionID, msgType)
  {
    var key := KeyOf(sessionID, msgType);
    if key in buf {
      RemainingPending(buf[key]);
    }
  }

  // ----- every step keeps the invariant --------------------------------------------------------

  lemma AppendedKeeps(s: St, c: Chunk)
    requires Inv(s)
    ensures var s1 := Appended(s, c);
            WellKeyed(s1.buf) && Conserved(s1) && Counted(s1) && Covered(s1)
            && KeyOf(c.sessionID, c.msgType) in s1.buf
            && (forall key | key in s1.buf && key != KeyOf(c.sessionID, c.msgType) ::
                  key in s.buf && s1.buf[key] == s.buf[key])
            && s1.buf[KeyOf(c.sessionID, c.msgType)].chunks != [] && !s1.buf[KeyOf(c.sessionID, c.msgType)].forceFlush
  {
    var s1 := Appended(s, c);
    forall sessionID, msgType
      ensures SentFor(s1.sent, sessionID, msgType) + PendingFor(s1.buf, sessionID, msgType)
              == InputFor(s1.log, sessionID, msgType)
    {
      AppendedStream(s, c, sessionID, msgType);
    }
    ArmCounts(s);
  }

  lemma ArmCounts(s: St)
    requires Counted(s)
    ensures Counted(Arm(s))
    ensures s.armed == {} && s.fired == {} ==> Arm(s).armed + Arm(s).fired == {s.nextTimer}
  {
  }

  lemma AppendedStream(s: St, c: Chunk, sessionID: string, msgType: MessageType)
    requires Inv(s)
    ensures var s1 := Appended(s, c);
            SentFor(s1.sent, sessionID, msgType) + PendingFor(s1.buf, sessionID, msgType)
            == InputFor(s1.log, sessionID, msgType)
  {
    var mine := if c.sessionID == sessionID && c.msgType == msgType then c.content else "";
    AppendedPending(s, c, sessionID, msgType);
    AppendedInput(s, c, sessionID, msgType);
    SplitSent(SentFor(s.sent, sessionID, msgType), PendingFor(s.buf, sessionID, msgType), mine);
  }

  lemma AppendedInput(s: St, c: Chunk, sessionID: string, msgType: MessageType)
    ensures Appended(s, c).sent == s.sent
    ensures InputFor(Appended(s, c).log, sessionID, msgType) == InputFor(s.log, sessionID, msgType)
            + (if c.sessionID == sessionID && c.msgType == msgType then c.content else "")
  {
    assert Appended(s, c).log[..|s.log|] == s.log;
  }

  lemma AppendedPending(s: St, c: Chunk, sessionID: string, msgType: MessageType)
    ensures PendingFor(Appended(s, c).buf, sessionID, msgType) == PendingFor(s.buf, sessionID, msgType)
            + (if c.sessionID == sessionID && c.msgType == msgType then c.content else "")
  {
    var mine := KeyOf(c.sessionID, c.msgType);
    if KeyOf(sessionID, msgType) == mine {
      KeyInjective(sessionID, msgType, c.sessionID, c.msgType);
      JoinAppend(if mine in s.buf then s.buf[mine].chunks else [], c.content);
    }
  }

  lemma ChunkKeeps(s: St, c: Chunk, s': St)
    requires Inv(s) && ChunkStep(s, c, s')
    ensures Inv(s')
  {
    var key, s1 := KeyOf(c.sessionID, c.msgType), Appended(s, c);
    AppendedKeeps(s, c);
    if |Pending(s1.buf[key])| >= MAX_BATCH_SIZE {
      var s2 := s1.(buf := Forced(s1.buf, key));
      ForcedConserves(s1, key);
      FlushKeeps(s2, s');
    }
  }

  lemma ForcedConserves(s: St, key: string)
    requires key in s.buf && WellKeyed(s.buf) && Conserved(s)
    ensures WellKeyed(Forced(s.buf, key)) && Conserved(s.(buf := Forced(s.buf, key)))
  {
  }

  lemma CallbackKeeps(s: St, t: nat, s': St)
    requires Inv(s) && CallbackStep(s, t, s')
    ensures Inv(s')
  {
    var f: St :| FlushStep(s, f) && s' == AfterFlush(f, t);
    FlushKeeps(s, f);
    CallbackCounts(s, f, t);
    SameStreams(f, s');
  }

  /** Conservation looks at the held, sent and received content only. */
  lemma SameStreams(s: St, s': St)
    requires s'.buf == s.buf && s'.sent == s.sent && s'.log == s.log && Conserved(s)
    ensures Conserved(s')
  {
  }

  lemma CallbackCounts(s: St, f: St, t: nat)
    requires Counted(s) && Covered(s) && t in s.fired
    requires f == s.(buf := f.buf, sent := f.sent)
    ensures Counted(AfterFlush(f, t)) && Covered(AfterFlush(f, t))
  {
  }

  lemma StopKeeps(s: St, s': St)
    requires Inv(s) && StopStep(s, s')
    ensures Inv(s')
  {
    if s.timer.Some? {
      var t := s.timer.value;
      var s1 := if t in s.armed then s.(armed := s.armed - {t}, wait := s.wait - 1) else s;
      var f: St :| FlushStep(s1, f) && s' == f.(timer := None, stopped := true);
      assert Conserved(s1);
      FlushKeeps(s1, f);
    }
  }

  lemma StepKeeps(s: St, e: Event, s': St)
    requires Inv(s) && Step(s, e, s')
    ensures Inv(s')
  {
    match e
    case Arrive(c) => ChunkKeeps(s, c, s');
    case Fire(t) =>
    case Callback(t) => CallbackKeeps(s, t, s');
    case Stop => StopKeeps(s, s');
  }

  /** A run: states linked by steps, from the initial state. */
  ghost predicate Run(states: seq<St>, events: seq<Event>) {
    && |states| == |events| + 1 && states[0] == INIT
    && forall i | 0 <= i < |events| :: Step(states[i], events[i], states[i + 1])
  }

  /** Over every run: each stream's sent content followed by its held content is its input in
      order; held content stays below the threshold; until Stop held content has a callback
      outstanding; the wait group equals the number of outstanding callbacks. */
  lemma {:induction false} EveryRunKeeps(states: seq<St>, events: seq<Event>, i: nat)
    requires Run(states, events) && i < |states|
    ensures Inv(states[i])
  {
    if i == 0 {
    } else {
      EveryRunKeeps(states, events, i - 1);
      RunStepKeeps(states, events, i - 1);
    }
  }

  lemma RunStepKeeps(states: seq<St>, events: seq<Event>, i: nat)
    requires Run(states, events) && i < |events| && Inv(states[i])
    ensures Inv(states[i + 1])
  {
    var s, e, t := states[i], events[i], states[i + 1];
    assert Step(s, e, t);
    StepKeeps(s, e, t);
  }

  lemma StoppedStep(s: St, e: Event, s': St)
    requires Step(s, e, s')
    ensures s'.stopped <==> s.stopped || e == Stop
  {
  }

  lemma {:induction false} StoppedIff(states: seq<St>, events: seq<Event>, i: nat)
    requires Run(states, events) && i < |states|
    ensures states[i].stopped <==> Stop in events[..i]
  {
    if i > 0 {
      StoppedIff(states, events, i - 1);
      var s, e, t := states[i - 1], events[i - 1], states[i - 1 + 1];
      assert Step(s, e, t);
      StoppedStep(s, e, t);
      assert events[..i] == events[..i - 1] + [e];
    }
  }

  /** What the accounting says: the wait group is never negative, and until Stop held content
      has exactly one outstanding callback. */
  lemma OneOutstanding(states: seq<St>, events: seq<Event>, i: nat)
    requires Run(states, events) && i < |states|
    ensures var s := states[i];
            && s.wait >= 0
            && (Stop !in events[..i] && s.buf != map[] ==>
                  s.wait == 1 && s.timer.Some? && s.timer.value in s.armed + s.fired)
  {
    EveryRunKeeps(states, events, i);
    StoppedIff(states, events, i);
    var s := states[i];
    if !s.stopped && s.timer.Some? {
      assert |s.armed + s.fired| == |s.armed| + |s.fired|;
    }
  }

  // ----- draining without input ----------------------------------------------------------------

  /** bs[0], bs[1], ...: one batch over consecutive flushes with no input in between. */
  ghost predicate FlushChain(bs: seq<Batch>) {
    forall i | 0 <= i < |bs| - 1 :: Remaining(bs[i]) == Some(bs[i + 1])
  }

  lemma FlushShrinks(b: Batch, r: Batch)
    requires b.chunks != [] && Remaining(b) == Some(r)
    ensures r.chunks != [] && 0 < |Pending(r)| < |Pending(b)|
  {
    RemainingPending(b);
  }

  /** Each flush sends at least one byte of a batch that holds any: without input a batch
      survives fewer flushes than it holds bytes. */
  lemma {:induction false} FlushesDrain(bs: seq<Batch>)
    requires |bs| >= 1 && FlushChain(bs) && bs[0].chunks != []
    ensures |bs| > 1 ==> |bs| <= |Pending(bs[0])|
  {
    if |bs| > 1 {
      FlushShrinks(bs[0], bs[1]);
      var rest := bs[1..];
      FlushesDrain(rest);
    }
  }

  /** Where no fence and no table row stands inside an HTML block, two flushes are enough. */
  lemma TwoFlushesDrain(b: Batch, r: Batch)
    requires b.chunks != [] && !b.forceFlush && Remaining(b) == Some(r)
    requires MarkdownCuts.NoStructureInHtml(Markdown.Kinds(Markdown.Lines(Pending(b))))
    ensures Remaining(r) == None
  {
    RemainingPending(b);
    FlushShrinks(b, r);
    MarkdownCuts.RemainderSentWhole(Pending(b), FlushPart(b), Pending(r));
  }

  /** On every run, Stop sends everything exactly when each held content is one unfinished
      block (code, table or HTML), or finished. */
  lemma StopSendsAllIff(states: seq<St>, events: seq<Event>, i: nat)
    requires Run(states, events) && i < |events| && events[i] == Stop && Stop !in events[..i]
    ensures states[i + 1].buf == map[] <==>
            forall key | key in states[i].buf ::
              MarkdownGrowth.OneBlockOrFinished(Pending(states[i].buf[key]))
  {
    StoppedIff(states, events, i);
    StopSendsUncut(states, events, i);
    forall key | key in states[i].buf {
      MarkdownGrowth.NoProperCutIff(Pending(states[i].buf[key]));
    }
  }

  lemma StopSendsUncut(states: seq<St>, events: seq<Event>, i: nat)
    requires Run(states, events) && i < |events| && events[i] == Stop && !states[i].stopped
    ensures states[i + 1].buf == map[] <==>
            forall key | key in states[i].buf :: !MarkdownGrowth.HasProperCut(Pending(states[i].buf[key]))
  {
    EveryRunKeeps(states, events, i);
    assert Step(states[i], events[i], states[i + 1]);
  }

  // ----- what each message says it is -----------------------------------------------------------

  /** The chunk and the batch are of one stream and one protocol. */
  predicate Opened(c: Chunk, b: Batch) {
    c.sessionID == b.sessionID && c.protocolName == b.protocolName && c.msgType == b.msgType
  }

  /** The message names the session and protocol of the chunk, and is a thought just when that is. */
  predicate Labelled(c: Chunk, m: Sent) {
    && m.sessionID == c.sessionID && m.protocolName == c.protocolName
    && m.wireType == match c.msgType { case Thought => "chat:thought" case Content => "chat:response" }
  }

  ghost predicate BatchLabelled(b: Batch, log: seq<Chunk>) {
    exists c | c in log :: Opened(c, b)
  }

  ghost predicate MessageLabelled(m: Sent, log: seq<Chunk>) {
    exists c | c in log :: Labelled(c, m)
  }

  ghost predicate BatchesLabelled(buf: Buffer, log: seq<Chunk>) {
    forall key | key in buf :: BatchLabelled(buf[key], log)
  }

  ghost predicate SentLabelled(sent: seq<Sent>, log: seq<Chunk>) {
    forall i | 0 <= i < |sent| :: MessageLabelled(sent[i], log)
  }

  lemma FlushLabels(s: St, s': St)
    requires FlushStep(s, s') && BatchesLabelled(s.buf, s.log) && SentLabelled(s.sent, s.log)
    ensures BatchesLabelled(s'.buf, s'.log) && SentLabelled(s'.sent, s'.log)
  {
    forall key | key in s'.buf ensures BatchLabelled(s'.buf[key], s.log) {
      assert BatchLabelled(s.buf[key], s.log);
      SameLabels(s.buf[key], s'.buf[key], s.log);
    }
    forall i | 0 <= i < |s'.sent| ensures MessageLabelled(s'.sent[i], s.log) {
      if i < |s.sent| {
        assert s'.sent[i] == s.sent[i];
      } else {
        assert FromBatch(s.buf, s'.sent[i]);
        var key :| key in s.buf && s'.sent[i] == MessageOf(s.buf[key]);
        MessageLabels(s.buf[key], s.log);
      }
    }
  }

  lemma SameLabels(b: Batch, b': Batch, log: seq<Chunk>)
    requires BatchLabelled(b, log)
    requires b'.sessionID == b.sessionID && b'.protocolName == b.protocolName && b'.msgType == b.msgType
    ensures BatchLabelled(b', log)
  {
    var c :| c in log && Opened(c, b);
    assert Opened(c, b');
  }

  lemma MessageLabels(b: Batch, log: seq<Chunk>)
    requires BatchLabelled(b, log)
    ensures MessageLabelled(MessageOf(b), log)
  {
    var c :| c in log && Opened(c, b);
    assert Labelled(c, MessageOf(b));
  }

  lemma LaterBatch(b: Batch, log: seq<Chunk>, c: Chunk)
    requires BatchLabelled(b, log) || Opened(c, b)
    ensures BatchLabelled(b, log + [c])
  {
    assert c in log + [c];
    if d :| d in log && Opened(d, b) {
      assert d in log + [c];
    }
  }

  lemma LaterMessage(m: Sent, log: seq<Chunk>, c: Chunk)
    requires MessageLabelled(m, log)
    ensures MessageLabelled(m, log + [c])
  {
    var d :| d in log && Labelled(d, m);
    assert d in log + [c];
  }

  lemma AppendedLabels(s: St, c: Chunk)
    requires BatchesLabelled(s.buf, s.log) && SentLabelled(s.sent, s.log) && WellKeyed(s.buf)
    ensures var s1 := Appended(s, c); BatchesLabelled(s1.buf, s1.log) && SentLabelled(s1.sent, s1.log)
  {
    var s1 := Appended(s, c);
    forall key | key in s1.buf ensures BatchLabelled(s1.buf[key], s1.log) {
      if key in s.buf {
        assert BatchLabelled(s.buf[key], s.log);
        SameLabels(s.buf[key], s1.buf[key], s.log);
      }
      LaterBatch(s1.buf[key], s.log, c);
    }
    forall i | 0 <= i < |s1.sent| ensures MessageLabelled(s1.sent[i], s1.log) {
      LaterMessage(s.sent[i], s.log, c);
    }
  }

  lemma ChunkLabels(s: St, c: Chunk, s': St)
    requires ChunkStep(s, c, s') && BatchesLabelled(s.buf, s.log) && SentLabelled(s.sent, s.log) && WellKeyed(s.buf)
    ensures BatchesLabelled(s'.buf, s'.log) && SentLabelled(s'.sent, s'.log)
  {
    var key, s1 := KeyOf(c.sessionID, c.msgType), Appended(s, c);
    AppendedLabels(s, c);
    if |Pending(s1.buf[key])| >= MAX_BATCH_SIZE {
      var s2 := s1.(buf := Forced(s1.buf, key));
      ForcedLabels(s1, key);
      FlushLabels(s2, s');
    }
  }

  lemma ForcedLabels(s: St, key: string)
    requires key in s.buf && BatchesLabelled(s.buf, s.log)
    ensures BatchesLabelled(Forced(s.buf, key), s.log)
  {
    forall k | k in Forced(s.buf, key) ensures BatchLabelled(Forced(s.buf, key)[k], s.log) {
      assert BatchLabelled(s.buf[k], s.log);
      SameLabels(s.buf[k], Forced(s.buf, key)[k], s.log);
    }
  }

  lemma StepLabels(s: St, e: Event, s': St)
    requires Step(s, e, s') && BatchesLabelled(s.buf, s.log) && SentLabelled(s.sent, s.log) && WellKeyed(s.buf)
    ensures BatchesLabelled(s'.buf, s'.log) && SentLabelled(s'.sent, s'.log)
  {
    match e
    case Arrive(c) => ChunkLabels(s, c, s');
    case Fire(t) =>
    case Callback(t) => CallbackLabels(s, t, s');
    case Stop => StopLabels(s, s');
  }

  lemma CallbackLabels(s: St, t: nat, s': St)
    requires CallbackStep(s, t, s') && BatchesLabelled(s.buf, s.log) && SentLabelled(s.sent, s.log)
    ensures BatchesLabelled(s'.buf, s'.log) && SentLabelled(s'.sent, s'.log)
  {
    var f: St :| FlushStep(s, f) && s' == AfterFlush(f, t);
    FlushLabels(s, f);
  }

  lemma StopLabels(s: St, s': St)
    requires StopStep(s, s') && BatchesLabelled(s.buf, s.log) && SentLabelled(s.sent, s.log)
    ensures BatchesLabelled(s'.buf, s'.log) && SentLabelled(s'.sent, s'.log)
  {
    if s.timer.Some? {
      var t := s.timer.value;
      var s1 := if t in s.armed then s.(armed := s.armed - {t}, wait := s.wait - 1) else s;
      var f: St :| FlushStep(s1, f) && s' == f.(timer := None, stopped := true);
      FlushLabels(s1, f);
    }
  }

  lemma {:induction false} RunLabels(states: seq<St>, events: seq<Event>, i: nat)
    requires Run(states, events) && i < |states|
    ensures BatchesLabelled(states[i].buf, states[i].log) && SentLabelled(states[i].sent, states[i].log)
  {
    if i > 0 {
      RunLabels(states, events, i - 1);
      EveryRunKeeps(states, events, i - 1);
      RunStepLabels(states, events, i - 1);
    }
  }

  lemma RunStepLabels(states: seq<St>, events: seq<Event>, i: nat)
    requires Run(states, events) && i < |events| && WellKeyed(states[i].buf)
    requires BatchesLabelled(states[i].buf, states[i].log) && SentLabelled(states[i].sent, states[i].log)
    ensures BatchesLabelled(states[i + 1].buf, states[i + 1].log) && SentLabelled(states[i + 1].sent, states[i + 1].log)
  {
    var s, e, t := states[i], events[i], states[i + 1];
    assert Step(s, e, t);
    StepLabels(s, e, t);
  }

  /** On every run, every message sent names the session and the protocol of a chunk that had
      arrived, and its type on the wire is that of a thought if that chunk was one, and that of a
      response otherwise. */
  lemma EveryMessageIsLabelled(states: seq<St>, events: seq<Event>, i: nat, k: nat)
    requires Run(states, events) && i < |states| && k < |states[i].sent|
    ensures var m := states[i].sent[k];
            exists c | c in states[i].log ::
              && m.sessionID == c.sessionID && m.protocolName == c.protocolName
              && m.wireType == if c.msgType == Thought then "chat:thought" else "chat:response"
  {
    RunLabels(states, events, i);
    assert MessageLabelled(states[i].sent[k], states[i].log);
    var c :| c in states[i].log && Labelled(c, states[i].sent[k]);
  }

  // ----- what an arrival does ----------------------------------------------------------------------

  /** On every run, a chunk joins what its stream holds.  Below 4096 bytes nothing is sent and that
      is what the stream holds now; from there on everything is flushed, and of this stream nothing
      is held back, whatever its markdown. */
  lemma ArrivalMeaning(states: seq<St>, events: seq<Event>, i: nat, c: Chunk)
    requires Run(states, events) && i < |events| && events[i] == Arrive(c)
    ensures var s, s' := states[i], states[i + 1];
            var held := PendingFor(s.buf, c.sessionID, c.msgType) + c.content;
            if |held| < 4096 then
              s'.sent == s.sent && PendingFor(s'.buf, c.sessionID, c.msgType) == held
            else
              && KeyOf(c.sessionID, c.msgType) !in s'.buf
              && SentFor(s'.sent, c.sessionID, c.msgType) == SentFor(s.sent, c.sessionID, c.msgType) + held
  {
    EveryRunKeeps(states, events, i);
    var s, s' := states[i], states[i + 1];
    assert Step(s, events[i], s');
    ArrivalStep(s, c, s');
  }

  lemma ArrivalStep(s: St, c: Chunk, s': St)
    requires Inv(s) && ChunkStep(s, c, s')
    ensures var held := PendingFor(s.buf, c.sessionID, c.msgType) + c.content;
            if |held| < 4096 then
              s'.sent == s.sent && PendingFor(s'.buf, c.sessionID, c.msgType) == held
            else
              && KeyOf(c.sessionID, c.msgType) !in s'.buf
              && SentFor(s'.sent, c.sessionID, c.msgType) == SentFor(s.sent, c.sessionID, c.msgType) + held
  {
    var key, s1 := KeyOf(c.sessionID, c.msgType), Appended(s, c);
    AppendedPending(s, c, c.sessionID, c.msgType);
    if |Pending(s1.buf[key])| >= MAX_BATCH_SIZE {
      var forced := Forced(s1.buf, key);
      assert FlushPart(forced[key]) == Pending(s1.buf[key]) && Remaining(forced[key]) == None;
      assert FlushPartFor(forced, c.sessionID, c.msgType) == Pending(s1.buf[key]);
    }
  }
}
