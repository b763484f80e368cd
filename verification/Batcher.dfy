/** internal/bridge/bridge.go, the streaming output batcher: batchContent, flushBatches,
    doFlushLocked, splitAtSafeBoundary and the batching part of Stop.  Each method is one
    critical section of batchMu; Fire is the runtime starting a timer callback, which then
    waits for the lock. */
module Batcher {
  import opened Text
  import Markdown

  const MAX_BATCH_SIZE: nat := 4096

  /** The two message types that reach batchContent. */
  datatype MessageType = Content | Thought

  function TypeName(t: MessageType): string {
    if t == Content then "content" else "thought"
  }

  function KeyOf(sessionID: string, msgType: MessageType): string {
    sessionID + "\0" + TypeName(msgType)
  }

  /** Two streams never share a batch. */
  lemma KeyInjective(s1: string, t1: MessageType, s2: string, t2: MessageType)
    requires KeyOf(s1, t1) == KeyOf(s2, t2)
    ensures s1 == s2 && t1 == t2
  {
    var k1, k2 := KeyOf(s1, t1), KeyOf(s2, t2);
    assert |TypeName(t1)| == 7 == |TypeName(t2)|;
    assert k1[|k1| - 7..] == TypeName(t1) && k2[|k2| - 7..] == TypeName(t2);
    assert TypeName(t1)[0] == TypeName(t2)[0];
    assert k1[..|k1| - 8] == s1 && k2[..|k2| - 8] == s2;
  }

  datatype Batch = Batch(sessionID: string, protocolName: string, msgType: MessageType,
                         chunks: seq<string>, forceFlush: bool)

  datatype Sent = Sent(wireType: string, sessionID: string, content: string, protocolName: string)

  function WireType(t: MessageType): string {
    if t == Thought then "chat:thought" else "chat:response"
  }

  function Join(chunks: seq<string>): string {
    if chunks == [] then "" else Join(chunks[..|chunks| - 1]) + chunks[|chunks| - 1]
  }

  function Pending(b: Batch): string {
    Join(b.chunks)
  }

  /** splitAtSafeBoundary: what to send now, and what to hold. */
  function SplitAtSafeBoundary(merged: string): (r: (string, string))
    ensures r.0 + r.1 == merged
    ensures merged != "" ==> r.0 != ""
    ensures r.1 != "" <==> 0 < Markdown.SafeCut(merged) < |merged|
    ensures r.1 != "" ==> |r.0| == Markdown.SafeCut(merged)
  {
    var cut := Markdown.SafeCut(merged);
    if merged == "" || cut == 0 || cut >= |merged| then (merged, "")
    else (merged[..cut], merged[cut..])
  }

  function SplitBatch(b: Batch): (r: (string, string))
    ensures r.0 + r.1 == Pending(b)
  {
    if b.forceFlush then (Pending(b), "") else SplitAtSafeBoundary(Pending(b))
  }

  /** A flush: the content sent, and the batch that stays, if any. */
  function FlushPart(b: Batch): string {
    if b.chunks == [] then "" else SplitBatch(b).0
  }

  function Remaining(b: Batch): Option<Batch> {
    if b.chunks == [] then Some(b)
    else
      var remainder := SplitBatch(b).1;
      if remainder == "" then None
      else Some(b.(chunks := [remainder], forceFlush := |remainder| >= MAX_BATCH_SIZE))
  }

  function MessageOf(b: Batch): Sent {
    Sent(WireType(b.msgType), b.sessionID, SplitBatch(b).0, b.protocolName)
  }

  /** Everything sent on the stream of a key, in order. */
  function SentFor(sent: seq<Sent>, sessionID: string, msgType: MessageType): string {
    if sent == [] then ""
    else
      var last := sent[|sent| - 1];
      SentFor(sent[..|sent| - 1], sessionID, msgType)
      + (if last.sessionID == sessionID && last.wireType == WireType(msgType) then last.content else "")
  }

  datatype Chunk = Chunk(sessionID: string, protocolName: string, content: string, msgType: MessageType)

  /** Everything that arrived for the stream of a key, in order. */
  function InputFor(log: seq<Chunk>, sessionID: string, msgType: MessageType): string {
    if log == [] then ""
    else
      var last := log[|log| - 1];
      InputFor(log[..|log| - 1], sessionID, msgType)
      + (if last.sessionID == sessionID && last.msgType == msgType then last.content else "")
  }

  type Buffer = map<string, Batch>

  predicate WellKeyed(buf: Buffer) {
    forall key | key in buf :: KeyOf(buf[key].sessionID, buf[key].msgType) == key
  }

  function PendingFor(buf: Buffer, sessionID: string, msgType: MessageType): string {
    var key := KeyOf(sessionID, msgType);
    if key in buf then Pending(buf[key]) else ""
  }

  function FlushPartFor(buf: Buffer, sessionID: string, msgType: MessageType): string {
    var key := KeyOf(sessionID, msgType);
    if key in buf then FlushPart(buf[key]) else ""
  }

  /** The buffer after a flush: every batch keeps its held remainder or disappears. */
  predicate Flushed(buf: Buffer, buf': Buffer) {
    && (forall key | key in buf' :: key in buf && Remaining(buf[key]) == Some(buf'[key]))
    && (forall key | key in buf && Remaining(buf[key]).Some? :: key in buf')
  }

  /** What is sent from here on: messages of batches that hold something. */
  ghost predicate MessagesOf(buf: Buffer, sent: seq<Sent>, sent': seq<Sent>) {
    && sent <= sent'
    && forall i | |sent| <= i < |sent'| :: FromBatch(buf, sent'[i])
  }

  ghost predicate FromBatch(buf: Buffer, m: Sent) {
    exists key | key in buf :: buf[key].chunks != [] && m == MessageOf(buf[key])
  }

  /** The messages of a flush, in whatever order the map was walked. */
  ghost predicate FlushSent(buf: Buffer, sent: seq<Sent>, sent': seq<Sent>) {
    && MessagesOf(buf, sent, sent')
    && forall sessionID, msgType ::
         SentFor(sent', sessionID, msgType) == SentFor(sent, sessionID, msgType) + FlushPartFor(buf, sessionID, msgType)
  }

  function TotalSize(chunks: seq<string>): nat {
    if chunks == [] then 0 else TotalSize(chunks[..|chunks| - 1]) + |chunks[|chunks| - 1]|
  }

  lemma {:induction false} TotalSizeIsJoined(chunks: seq<string>)
    ensures TotalSize(chunks) == |Join(chunks)|
  {
    if chunks != [] { TotalSizeIsJoined(chunks[..|chunks| - 1]); }
  }

  method BatchTotalSize(batch: Batch) returns (total: nat)
    ensures total == |Pending(batch)|
  {
    total := 0;
    for i := 0 to |batch.chunks|
      invariant total == TotalSize(batch.chunks[..i])
    {
      assert batch.chunks[..i + 1][..i] == batch.chunks[..i];
      total := total + |batch.chunks[i]|;
    }
    assert batch.chunks[..|batch.chunks|] == batch.chunks;
    TotalSizeIsJoined(batch.chunks);
  }

  // ----- the state and its steps -------------------------------------------------------------

  /** armed: timers that have not fired; fired: callbacks waiting for the lock. */
  datatype St = St(buf: Buffer, timer: Option<nat>, armed: set<nat>, fired: set<nat>, nextTimer: nat,
                   wait: int, sent: seq<Sent>, log: seq<Chunk>, stopped: bool)

  const INIT := St(map[], None, {}, {}, 0, 0, [], [], false)

  /** Starting a timer: batchWait.Add(1) and time.AfterFunc. */
  function Arm(s: St): St {
    s.(timer := Some(s.nextTimer), armed := s.armed + {s.nextTimer}, nextTimer := s.nextTimer + 1, wait := s.wait + 1)
  }

  /** batchContent up to the size check: the batch exists, a timer is set, the chunk is in. */
  function Appended(s: St, c: Chunk): St {
    var key := KeyOf(c.sessionID, c.msgType);
    var s1 := if key !in s.buf && s.timer == None then Arm(s) else s;
    var batch := if key in s.buf then s.buf[key] else Batch(c.sessionID, c.protocolName, c.msgType, [], false);
    s1.(buf := s.buf[key := batch.(chunks := batch.chunks + [c.content])], log := s.log + [c])
  }

  function Forced(buf: Buffer, key: string): Buffer
    requires key in buf
  {
    buf[key := buf[key].(forceFlush := true)]
  }

  ghost predicate FlushStep(s: St, s': St) {
    && Flushed(s.buf, s'.buf) && FlushSent(s.buf, s.sent, s'.sent)
    && s' == s.(buf := s'.buf, sent := s'.sent)
  }

  datatype Event = Arrive(c: Chunk) | Fire(t: nat) | Callback(t: nat) | Stop

  ghost predicate ChunkStep(s: St, c: Chunk, s': St) {
    var key := KeyOf(c.sessionID, c.msgType);
    var s1 := Appended(s, c);
    if |Pending(s1.buf[key])| >= MAX_BATCH_SIZE then FlushStep(s1.(buf := Forced(s1.buf, key)), s')
    else s' == s1
  }

  ghost predicate CallbackStep(s: St, t: nat, s': St) {
    && t in s.fired
    && exists f: St :: FlushStep(s, f) && s' == AfterFlush(f, t)
  }

  /** The tail of flushBatches: re-arm while something is held, then batchWait.Done(). */
  function AfterFlush(f: St, t: nat): St {
    var r := if |f.buf| > 0 then Arm(f) else f.(timer := None);
    r.(wait := r.wait - 1, fired := r.fired - {t})
  }

  /** Stop's critical section: take back the timer's Done if it will not fire, flush. */
  ghost predicate StopStep(s: St, s': St) {
    match s.timer
    case None => s' == s.(stopped := true)
    case Some(t) =>
      var s1 := if t in s.armed then s.(armed := s.armed - {t}, wait := s.wait - 1) else s;
      exists f: St :: FlushStep(s1, f) && s' == f.(timer := None, stopped := true)
  }

  ghost predicate Step(s: St, e: Event, s': St) {
    match e
    case Arrive(c) => ChunkStep(s, c, s')
    case Fire(t) => t in s.armed && s' == s.(armed := s.armed - {t}, fired := s.fired + {t})
    case Callback(t) => CallbackStep(s, t, s')
    case Stop => StopStep(s, s')
  }

  // ----- the methods ----------------------------------------------------------------------------

  class Bridge {
    var batchBuf: Buffer
    var batchTimer: Option<nat>
    var batchWait: int
    var armed: set<nat>
    var fired: set<nat>
    var nextTimer: nat
    var sent: seq<Sent>
    ghost var log: seq<Chunk>
    ghost var stopped: bool

    ghost function State(): St
      reads this
    {
      St(batchBuf, batchTimer, armed, fired, nextTimer, batchWait, sent, log, stopped)
    }

    constructor ()
      ensures State() == INIT
    {
      batchBuf, batchTimer, batchWait, armed, fired, nextTimer := map[], None, 0, {}, {}, 0;
      sent, log, stopped := [], [], false;
    }

    method AfterFunc()
      modifies this
      ensures State() == Arm(old(State()))
    {
      batchWait := batchWait + 1;
      batchTimer := Some(nextTimer);
      armed := armed + {nextTimer};
      nextTimer := nextTimer + 1;
    }

    /** The loop body of doFlushLocked for one batch. */
    method FlushOne(key: string)
      requires key in batchBuf
      modifies this`batchBuf, this`sent
      ensures sent == if old(batchBuf)[key].chunks == [] then old(sent) else old(sent) + [MessageOf(old(batchBuf)[key])]
      ensures match Remaining(old(batchBuf)[key])
              case None => batchBuf == old(batchBuf) - {key}
              case Some(b) => batchBuf == old(batchBuf)[key := b]
    {
      var batch := batchBuf[key];
      if |batch.chunks| == 0 {
        return;
      }
      var merged := Join(batch.chunks);
      var toSend, remainder := merged, "";
      if batch.forceFlush {
        batch := batch.(forceFlush := false);
      } else {
        var parts := SplitAtSafeBoundary(merged);
        toSend, remainder := parts.0, parts.1;
      }
      sent := sent + [Sent(WireType(batch.msgType), batch.sessionID, toSend, batch.protocolName)];
      if |remainder| > 0 {
        batchBuf := batchBuf[key := batch.(chunks := [remainder], forceFlush := |remainder| >= MAX_BATCH_SIZE)];
      } else {
        batchBuf := batchBuf - {key};
      }
    }

    method DoFlushLocked()
      requires WellKeyed(batchBuf)
      modifies this`batchBuf, this`sent
      ensures FlushStep(old(State()), State())
    {
      ghost var buf0, sent0 := batchBuf, sent;
      var todo := batchBuf.Keys;
      while todo != {}
        invariant FlushedBut(buf0, batchBuf, todo)
        invariant SentBut(buf0, sent0, sent, todo)
        decreases todo
      {
        var key :| key in todo;
        ghost var buf1, sent1 := batchBuf, sent;
        FlushOne(key);
        SentOneMore(buf0, sent0, sent1, sent, todo, key);
        todo := todo - {key};
      }
      AllSent(buf0, sent0, sent);
    }

    /** batchContent up to the size check. */
    method AppendChunk(c: Chunk) returns (batch: Batch)
      modifies this
      ensures State() == Appended(old(State()), c)
      ensures KeyOf(c.sessionID, c.msgType) in batchBuf && batch == batchBuf[KeyOf(c.sessionID, c.msgType)]
    {
      var key := KeyOf(c.sessionID, c.msgType);
      if key !in batchBuf {
        batch := Batch(c.sessionID, c.protocolName, c.msgType, [], false);
        if batchTimer == None {
          AfterFunc();
        }
      } else {
        batch := batchBuf[key];
      }
      batch := batch.(chunks := batch.chunks + [c.content]);
      batchBuf := batchBuf[key := batch];
      log := log + [c];
    }

    method BatchContent(sessionID: string, protocolName: string, content: string, msgType: MessageType)
      requires WellKeyed(batchBuf)
      modifies this
      ensures ChunkStep(old(State()), Chunk(sessionID, protocolName, content, msgType), State())
    {
      var key := KeyOf(sessionID, msgType);
      ghost var buf0 := batchBuf;
      var batch := AppendChunk(Chunk(sessionID, protocolName, content, msgType));
      var totalSize := BatchTotalSize(batch);
      if totalSize >= MAX_BATCH_SIZE {
        batchBuf := batchBuf[key := batch.(forceFlush := true)];
        DoFlushLocked();
      }
    }

    method FireTimer(t: nat)
      requires t in armed
      modifies this
      ensures Step(old(State()), Fire(t), State())
    {
      armed := armed - {t};
      fired := fired + {t};
    }

    method FlushBatches(t: nat)
      requires WellKeyed(batchBuf) && t in fired
      modifies this
      ensures CallbackStep(old(State()), t, State())
    {
      DoFlushLocked();
      ghost var f := State();
      if |batchBuf| > 0 {
        AfterFunc();
      } else {
        batchTimer := None;
      }
      batchWait := batchWait - 1;
      fired := fired - {t};
      assert State() == AfterFlush(f, t);
    }

    method StopBatching()
      requires WellKeyed(batchBuf)
      modifies this
      ensures StopStep(old(State()), State())
    {
      if batchTimer.Some? {
        var t := batchTimer.value;
        if t in armed {
          armed := armed - {t};
          batchWait := batchWait - 1;
        }
        DoFlushLocked();
        ghost var f := State();
        batchTimer := None;
        stopped := true;
        assert State() == f.(timer := None, stopped := true);
      }
      stopped := true;
    }
  }

  /** The flush is done for every key outside todo. */
  predicate FlushedBut(buf0: Buffer, buf: Buffer, todo: set<string>) {
    && todo <= buf.Keys <= buf0.Keys
    && (forall key | key in todo :: buf[key] == buf0[key])
    && (forall key | key in buf0 && key !in todo ::
          if key in buf then Remaining(buf0[key]) == Some(buf[key]) else Remaining(buf0[key]) == None)
  }

  ghost predicate SentBut(buf0: Buffer, sent0: seq<Sent>, sent: seq<Sent>, todo: set<string>) {
    && MessagesOf(buf0, sent0, sent)
    && forall sessionID, msgType :: StreamSentBut(buf0, sent0, sent, todo, sessionID, msgType)
  }

  lemma MessageMore(buf0: Buffer, sent0: seq<Sent>, sent: seq<Sent>, key: string)
    requires MessagesOf(buf0, sent0, sent) && key in buf0 && buf0[key].chunks != []
    ensures MessagesOf(buf0, sent0, sent + [MessageOf(buf0[key])])
  {
    var sent' := sent + [MessageOf(buf0[key])];
    forall i | |sent0| <= i < |sent'| ensures FromBatch(buf0, sent'[i]) {
      if i < |sent| {
        assert sent'[i] == sent[i];
      }
    }
  }

  predicate StreamSentBut(buf0: Buffer, sent0: seq<Sent>, sent: seq<Sent>, todo: set<string>,
                          sessionID: string, msgType: MessageType)
  {
    SentFor(sent, sessionID, msgType) == SentFor(sent0, sessionID, msgType)
      + (if KeyOf(sessionID, msgType) in todo then "" else FlushPartFor(buf0, sessionID, msgType))
  }

  lemma AllSent(buf0: Buffer, sent0: seq<Sent>, sent: seq<Sent>)
    requires SentBut(buf0, sent0, sent, {})
    ensures FlushSent(buf0, sent0, sent)
  {
    forall sessionID, msgType
      ensures SentFor(sent, sessionID, msgType)
           == SentFor(sent0, sessionID, msgType) + FlushPartFor(buf0, sessionID, msgType)
    {
      assert StreamSentBut(buf0, sent0, sent, {}, sessionID, msgType);
    }
  }

  lemma SentOneMore(buf0: Buffer, sent0: seq<Sent>, sent: seq<Sent>, sent': seq<Sent>, todo: set<string>, key: string)
    requires WellKeyed(buf0) && key in todo && key in buf0
    requires SentBut(buf0, sent0, sent, todo)
    requires sent' == if buf0[key].chunks == [] then sent else sent + [MessageOf(buf0[key])]
    ensures SentBut(buf0, sent0, sent', todo - {key})
  {
    if buf0[key].chunks != [] {
      MessageMore(buf0, sent0, sent, key);
    }
    forall sessionID, msgType
      ensures StreamSentBut(buf0, sent0, sent', todo - {key}, sessionID, msgType)
    {
      assert StreamSentBut(buf0, sent0, sent, todo, sessionID, msgType);
      StreamSentOneMore(buf0, sent0, sent, sent', todo, key, sessionID, msgType);
    }
  }

  lemma StreamSentOneMore(buf0: Buffer, sent0: seq<Sent>, sent: seq<Sent>, sent': seq<Sent>, todo: set<string>,
                          key: string, sessionID: string, msgType: MessageType)
    requires WellKeyed(buf0) && key in todo && key in buf0
    requires StreamSentBut(buf0, sent0, sent, todo, sessionID, msgType)
    requires sent' == if buf0[key].chunks == [] then sent else sent + [MessageOf(buf0[key])]
    ensures StreamSentBut(buf0, sent0, sent', todo - {key}, sessionID, msgType)
  {
    SentOneStream(buf0, sent, sent', key, sessionID, msgType);
    var was := SentFor(sent0, sessionID, msgType);
    assert was + "" == was;
    if KeyOf(sessionID, msgType) != key {
      assert SentFor(sent, sessionID, msgType) + "" == SentFor(sent, sessionID, msgType);
    }
  }

  /** Sending a batch extends its own stream and no other. */
  lemma SentOneStream(buf0: Buffer, sent: seq<Sent>, sent': seq<Sent>, key: string, sessionID: string,
                      msgType: MessageType)
    requires WellKeyed(buf0) && key in buf0
    requires sent' == if buf0[key].chunks == [] then sent else sent + [MessageOf(buf0[key])]
    ensures SentFor(sent', sessionID, msgType) == SentFor(sent, sessionID, msgType)
            + (if KeyOf(sessionID, msgType) == key then FlushPart(buf0[key]) else "")
  {
    var batch := buf0[key];
    if batch.chunks != [] {
      assert sent'[..|sent|] == sent;
      if KeyOf(sessionID, msgType) == key {
        KeyInjective(sessionID, msgType, batch.sessionID, batch.msgType);
      }
    }
  }
}
