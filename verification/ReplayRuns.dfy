/** Recorded scripts load back as recorded, and replay without getting stuck: the player of
    internal/replay/player.go as a transition system, run against a bridge that sends each
    recorded in-frame once every out-frame recorded before it was emitted. */
module ReplayRuns {
  import opened Text
  import opened Replay

  // ----- recording then loading ------------------------------------------------------------

  datatype Call = Call(dir: Direction, wire: Wire)

  /** A trace of frames as the adapter records them: both directions, well-formed JSON. */
  predicate WireTrace(calls: seq<Call>) {
    forall k | 0 <= k < |calls| :: (calls[k].dir == In || calls[k].dir == Out) && calls[k].wire.probe != Invalid
  }

  function Record(h: Header, calls: seq<Call>): Recording {
    if calls == [] then Recording([HeaderEntry(h, true)], 0, false, map[])
    else
      var n := |calls| - 1;
      Recorded(Record(h, calls[..n]), calls[n].dir, calls[n].wire)
  }

  /** The method of the latest in-request with this id key that no out-response has answered
      yet, looking back through the trace. */
  function OpenRequest(calls: seq<Call>, key: IdKey): Option<string> {
    if calls == [] then None
    else
      var before, last := calls[..|calls| - 1], calls[|calls| - 1];
      if last.dir == In && ProbeRequestMethod(last.wire).Some? && ProbeRequestMethod(last.wire).value.1 == key then
        Some(ProbeRequestMethod(last.wire).value.0)
      else if last.dir != In && ProbeResponseID(last.wire) == Some(key) then None
      else OpenRequest(before, key)
  }

  /** The gate of frame k: the open request its id answers, if it is a response. */
  function GateOf(calls: seq<Call>, k: nat): string
    requires k < |calls|
  {
    if calls[k].dir == In then ""
    else match ProbeResponseID(calls[k].wire)
      case None => ""
      case Some(key) => (match OpenRequest(calls[..k], key) case Some(m) => m case None => "")
  }

  /** Frame j is an in-request whose id agrees with this one. */
  predicate Asked(calls: seq<Call>, j: nat, id: JsonId)
    requires j < |calls| && HasId(id)
  {
    && calls[j].dir == In && ProbeRequestMethod(calls[j].wire).Some?
    && SameId(calls[j].wire.probe.id, id)
  }

  lemma {:induction false} OpenRequestWasAsked(calls: seq<Call>, id: JsonId) returns (j: nat)
    requires HasId(id) && OpenRequest(calls, NormalizedID(id)).Some?
    ensures j < |calls| && Asked(calls, j, id)
    ensures calls[j].wire.probe.rpcMethod == OpenRequest(calls, NormalizedID(id)).value
  {
    var n := |calls| - 1;
    if calls[n].dir == In && ProbeRequestMethod(calls[n].wire).Some? {
      NormalizedIDMeaning(calls[n].wire.probe.id, id);
    }
    if calls[n].dir == In && ProbeRequestMethod(calls[n].wire).Some? && SameId(calls[n].wire.probe.id, id) {
      j := n;
    } else {
      j := OpenRequestWasAsked(calls[..n], id);
    }
  }

  /** A reply gets a gate only from a request whose id agrees with its own: one that comes back
      with its id in another JSON type than it was asked with gets none. */
  lemma UnmatchedReplyHasNoGate(calls: seq<Call>, k: nat)
    requires k < |calls| && calls[k].dir != In && ProbeResponseID(calls[k].wire).Some?
    requires forall j: nat | j < k :: !Asked(calls, j, calls[k].wire.probe.id)
    ensures GateOf(calls, k) == ""
  {
    var id := calls[k].wire.probe.id;
    if OpenRequest(calls[..k], NormalizedID(id)).Some? {
      var j := OpenRequestWasAsked(calls[..k], id);
      assert Asked(calls, j, id);
    }
  }

  function FrameOf(calls: seq<Call>, k: nat): ScriptFrame
    requires k < |calls|
  {
    ScriptFrame(k, calls[k].dir, calls[k].wire, GateOf(calls, k), 0)
  }

  function FramesOf(calls: seq<Call>): (r: seq<ScriptFrame>)
    ensures |r| == |calls|
    ensures forall k | 0 <= k < |calls| :: r[k] == FrameOf(calls, k)
  {
    seq(|calls|, k requires 0 <= k < |calls| => FrameOf(calls, k))
  }

  /** The pending map is the set of open requests of the trace. */
  lemma {:induction false} PendingIsOpen(h: Header, calls: seq<Call>, key: IdKey)
    requires WireTrace(calls)
    ensures var r := Record(h, calls);
            !r.closed && r.seqNo == |calls|
            && (if key in r.pending then OpenRequest(calls, key) == Some(r.pending[key])
                else OpenRequest(calls, key) == None)
  {
    if calls != [] { PendingIsOpen(h, calls[..|calls| - 1], key); }
  }

  lemma {:induction false} RecordedEntries(h: Header, calls: seq<Call>)
    requires WireTrace(calls)
    ensures LoadEntries(Record(h, calls).file) == Ok(Script(h, FramesOf(calls), []))
    ensures |Record(h, calls).file| == |calls| + 1
  {
    if calls == [] {
      var file := Record(h, calls).file;
      assert file[..0] == [];
      assert FramesOf(calls) == [];
    } else {
      var n := |calls| - 1;
      RecordedEntries(h, calls[..n]);
      FramesOfNext(calls);
      RecordedNext(h, calls);
    }
  }

  lemma RecordedNext(h: Header, calls: seq<Call>)
    requires WireTrace(calls) && calls != [] && |Record(h, calls[..|calls| - 1]).file| == |calls|
    ensures var n := |calls| - 1;
            Record(h, calls).file == Record(h, calls[..n]).file + [FrameEntry(FrameOf(calls, n), true)]
            && Record(h, calls).file[..n + 1] == Record(h, calls[..n]).file
  {
    var n := |calls| - 1;
    var id := ProbeResponseID(calls[n].wire);
    PendingIsOpen(h, calls[..n], if id.Some? then id.value else TextKey(""));
  }

  lemma FramesOfNext(calls: seq<Call>)
    requires calls != []
    ensures FramesOf(calls) == FramesOf(calls[..|calls| - 1]) + [FrameOf(calls, |calls| - 1)]
  {
    var n := |calls| - 1;
    forall k | 0 <= k < n ensures FrameOf(calls[..n], k) == FrameOf(calls, k) {
      assert calls[..n][..k] == calls[..k];
    }
  }

  /** What the recorder writes for any trace the loader accepts, and gives back: the same
      frames in order, each gated on the request it answers. */
  lemma RecordedScriptLoads(h: Header, calls: seq<Call>)
    requires WireTrace(calls)
    ensures Load(Record(h, calls).file) == Ok(Script(h, FramesOf(calls), []))
  {
    RecordedEntries(h, calls);
  }

  /** The loader accepts exactly the files whose first line is the header, whose other lines
      are frames and writes in good form, and whose frames are numbered densely. */
  predicate GoodEntry(entries: seq<Entry>, i: nat)
    requires i < |entries|
  {
    match entries[i]
    case HeaderEntry(_, decodes) => i == 0 && decodes
    case FrameEntry(fr, decodes) =>
      i > 0 && decodes && (fr.dir == In || fr.dir == Out) && (fr.after != "" ==> fr.dir == Out)
      && fr.seqNo == FrameCount(entries[..i])
    case WriteEntry(wr, decodes) => i > 0 && decodes && wr.path != ""
    case _ => false
  }

  function FrameCount(entries: seq<Entry>): nat {
    if entries == [] then 0
    else FrameCount(entries[..|entries| - 1]) + (if entries[|entries| - 1].FrameEntry? then 1 else 0)
  }

  lemma {:induction false} LoadEntriesIff(entries: seq<Entry>)
    ensures LoadEntries(entries).Ok? <==> forall i | 0 <= i < |entries| :: GoodEntry(entries, i)
    ensures LoadEntries(entries).Ok? ==> |LoadEntries(entries).script.frames| == FrameCount(entries)
  {
    if entries != [] {
      var n := |entries| - 1;
      var before := entries[..n];
      LoadEntriesIff(before);
      assert forall i | 0 <= i < n :: before[..i] == entries[..i];
      assert forall i | 0 <= i < n :: GoodEntry(before, i) <==> GoodEntry(entries, i);
      assert LoadEntries(entries).Ok? <==> LoadEntries(before).Ok? && GoodEntry(entries, n);
    }
  }

  lemma LoadAcceptsIff(entries: seq<Entry>)
    ensures Load(entries).Ok? <==> entries != [] && forall i | 0 <= i < |entries| :: GoodEntry(entries, i)
  {
    LoadEntriesIff(entries);
  }

  // ----- the player ---------------------------------------------------------------------------

  function RawText(id: JsonId): string {
    match id
    case Absent => ""
    case Null => "null"
    case StringId(_, raw) => raw
    case NumberId(_, raw) => raw
    case OtherId(_, raw) => raw
  }

  /** The key an input line counts for: its method, or response:<id>, or none. */
  function SeenKey(w: Wire): string {
    match w.probe
    case Decoded(m, id) => if m == "" && |RawText(id)| > 0 then "response:" + RawText(id) else m
    case _ => ""
  }

  /** Player and bridge.  pos: next script frame of the player; gate: how often the gate
      channel was closed and replaced; waiting: the channel it is blocked on; sent: script
      frames the bridge has dealt with, its in-frames among them delivered. */
  datatype Play = Play(pos: nat, waiting: Option<nat>, gate: nat, seen: map<string, nat>, sent: nat, emitted: seq<Wire>)

  const START := Play(0, None, 0, map[], 0, [])

  function Seen(seen: map<string, nat>, key: string): nat {
    if key in seen then seen[key] else 0
  }

  function Need(fr: ScriptFrame): nat {
    if fr.afterCount < 1 then 1 else fr.afterCount
  }

  predicate GateOpen(s: Play, fr: ScriptFrame) {
    fr.after == "" || Seen(s.seen, fr.after) >= Need(fr)
  }

  /** Reading one line of input under the player's lock. */
  function Heard(s: Play, w: Wire): Play {
    var key := SeenKey(w);
    if key == "" then s else s.(seen := s.seen[key := Seen(s.seen, key) + 1], gate := s.gate + 1)
  }

  /** Mutable state of the player: the critical sections of the reader and of waitGate. */
  class Player {
    var seen: map<string, nat>
    var gate: nat
    var out: seq<Wire>

    constructor ()
      ensures seen == START.seen && gate == START.gate && out == START.emitted
    {
      seen, gate, out := map[], 0, [];
    }

    method ReadLine(line: Wire)
      modifies this`seen, this`gate
      ensures forall s: Play | s.seen == old(seen) && s.gate == old(gate) ::
                Heard(s, line).seen == seen && Heard(s, line).gate == gate
    {
      var key := SeenKey(line);
      if key == "" {
        return;
      }
      seen := seen[key := Seen(seen, key) + 1];
      gate := gate + 1;
    }

    /** One turn of waitGate's loop: pass, or the channel to wait on. */
    method TryGate(gateMethod: string, count: nat) returns (waitOn: Option<nat>)
      ensures waitOn == if Seen(seen, gateMethod) >= count then None else Some(gate)
    {
      if Seen(seen, gateMethod) >= count {
        return None;
      }
      return Some(gate);
    }

    method Emit(fr: ScriptFrame)
      modifies this`out
      ensures out == old(out) + [fr.wire]
    {
      out := out + [fr.wire];
    }

    /** One attempt at the next frame: past it, an out-frame being emitted, or the channel to wait
        on before the next attempt. */
    method TryFrame(fr: ScriptFrame) returns (waitOn: Option<nat>)
      modifies this`out
      ensures waitOn.None? <==>
              fr.dir != Out || fr.after == "" || (Seen(seen, fr.after) >= 1 && Seen(seen, fr.after) >= fr.afterCount)
      ensures waitOn.Some? ==> waitOn.value == gate
      ensures out == if fr.dir == Out && waitOn.None? then old(out) + [fr.wire] else old(out)
    {
      if fr.dir != Out {
        return None;
      }
      if fr.after != "" {
        var count := fr.afterCount;
        if count < 1 {
          count := 1;
        }
        waitOn := TryGate(fr.after, count);
        if waitOn.Some? {
          return;
        }
      }
      Emit(fr);
      return None;
    }
  }

  datatype Move = Skip | EmitFrame | Block | Wake | Deliver | Advance

  /** The bridge may send frame number `sent`: every out-frame before it was emitted. */
  predicate OutsEmitted(frames: seq<ScriptFrame>, upTo: nat, pos: nat) {
    forall i | 0 <= i < |frames| && i < upTo && frames[i].dir == Out :: i < pos
  }

  predicate Enabled(frames: seq<ScriptFrame>, s: Play, m: Move) {
    match m
    case Skip => s.pos < |frames| && s.waiting == None && frames[s.pos].dir != Out
    case EmitFrame => s.pos < |frames| && s.waiting == None && frames[s.pos].dir == Out && GateOpen(s, frames[s.pos])
    case Block => s.pos < |frames| && s.waiting == None && frames[s.pos].dir == Out && !GateOpen(s, frames[s.pos])
    case Wake => s.waiting.Some? && s.waiting.value < s.gate
    case Deliver => s.sent < |frames| && frames[s.sent].dir == In && OutsEmitted(frames, s.sent, s.pos)
    case Advance => s.sent < |frames| && frames[s.sent].dir != In && OutsEmitted(frames, s.sent + 1, s.pos)
  }

  function After(frames: seq<ScriptFrame>, s: Play, m: Move): Play
    requires Enabled(frames, s, m)
  {
    match m
    case Skip => s.(pos := s.pos + 1)
    case EmitFrame => s.(pos := s.pos + 1, emitted := s.emitted + [frames[s.pos].wire])
    case Block => s.(waiting := Some(s.gate))
    case Wake => s.(waiting := None)
    case Deliver => Heard(s, frames[s.sent].wire).(sent := s.sent + 1)
    case Advance => s.(sent := s.sent + 1)
  }

  /** Both directions only, as the loader guarantees. */
  predicate Loadable(frames: seq<ScriptFrame>) {
    forall i | 0 <= i < |frames| ::
      (frames[i].dir == In || frames[i].dir == Out) && (frames[i].after != "" ==> frames[i].dir == Out)
  }

  ghost predicate Run(frames: seq<ScriptFrame>, states: seq<Play>, moves: seq<Move>) {
    && |states| == |moves| + 1 && states[0] == START
    && forall i | 0 <= i < |moves| ::
         Enabled(frames, states[i], moves[i]) && states[i + 1] == After(frames, states[i], moves[i])
  }

  /** s is reached by some run. */
  ghost predicate Reachable(frames: seq<ScriptFrame>, s: Play) {
    exists states, moves :: Run(frames, states, moves) && states[|moves|] == s
  }

  lemma ReachableStart(frames: seq<ScriptFrame>)
    ensures Reachable(frames, START)
  {
    assert Run(frames, [START], []);
  }

  lemma ReachableAfter(frames: seq<ScriptFrame>, s: Play, m: Move)
    requires Reachable(frames, s) && Enabled(frames, s, m)
    ensures Reachable(frames, After(frames, s, m))
  {
    var states, moves :| Run(frames, states, moves) && states[|moves|] == s;
    var states', moves' := states + [After(frames, s, m)], moves + [m];
    assert Run(frames, states', moves');
    assert states'[|moves'|] == After(frames, s, m);
  }

  // ----- what every run keeps ---------------------------------------------------------------------

  /** How many of these frames are in-frames counting for key. */
  function InCount(frames: seq<ScriptFrame>, key: string): nat {
    if frames == [] then 0
    else
      var last := frames[|frames| - 1];
      InCount(frames[..|frames| - 1], key) + (if last.dir == In && SeenKey(last.wire) == key then 1 else 0)
  }

  function Outs(frames: seq<ScriptFrame>): seq<Wire> {
    if frames == [] then []
    else
      var last := frames[|frames| - 1];
      Outs(frames[..|frames| - 1]) + (if last.dir == Out then [last.wire] else [])
  }

  /** The gate of frame k is satisfied by the in-frames among the first n frames. */
  predicate GateMetBy(frames: seq<ScriptFrame>, k: nat, n: nat)
    requires k < |frames| && n <= |frames|
  {
    frames[k].after == "" || InCount(frames[..n], frames[k].after) >= Need(frames[k])
  }

  ghost predicate PlayInv(frames: seq<ScriptFrame>, s: Play) {
    && s.pos <= |frames| && s.sent <= |frames|
    && OutsEmitted(frames, s.sent, s.pos)
    && s.emitted == Outs(frames[..s.pos])
    && (forall key | key != "" :: Seen(s.seen, key) == InCount(frames[..s.sent], key))
    && (forall k | 0 <= k < s.pos :: GateMetBy(frames, k, s.sent))
    && (s.waiting.Some? ==>
          s.pos < |frames| && frames[s.pos].dir == Out && s.waiting.value <= s.gate
          && (s.waiting.value == s.gate ==> !GateOpen(s, frames[s.pos])))
  }

  lemma {:induction false} InCountMonotone(frames: seq<ScriptFrame>, key: string, m: nat, n: nat)
    requires m <= n <= |frames|
    ensures InCount(frames[..m], key) <= InCount(frames[..n], key)
  {
    if m < n {
      InCountMonotone(frames, key, m, n - 1);
      assert frames[..n][..n - 1] == frames[..n - 1];
    }
  }

  lemma InCountNext(frames: seq<ScriptFrame>, key: string, n: nat)
    requires n < |frames|
    ensures InCount(frames[..n + 1], key) ==
            InCount(frames[..n], key) + (if frames[n].dir == In && SeenKey(frames[n].wire) == key then 1 else 0)
  {
    assert frames[..n + 1][..n] == frames[..n];
  }

  lemma GatesStayMet(frames: seq<ScriptFrame>, pos: nat, n: nat, n': nat)
    requires pos <= |frames| && n <= n' <= |frames|
    requires forall k | 0 <= k < pos :: GateMetBy(frames, k, n)
    ensures forall k | 0 <= k < pos :: GateMetBy(frames, k, n')
  {
    forall k | 0 <= k < pos ensures GateMetBy(frames, k, n') {
      assert GateMetBy(frames, k, n);
      InCountMonotone(frames, frames[k].after, n, n');
    }
  }

  lemma SentKeeps(frames: seq<ScriptFrame>, s: Play, m: Move)
    requires Loadable(frames) && PlayInv(frames, s) && Enabled(frames, s, m) && (m == Deliver || m == Advance)
    ensures PlayInv(frames, After(frames, s, m))
  {
    var s' := After(frames, s, m);
    GatesStayMet(frames, s.pos, s.sent, s'.sent);
    forall key | key != "" ensures Seen(s'.seen, key) == InCount(frames[..s'.sent], key) {
      InCountNext(frames, key, s.sent);
    }
  }

  lemma MoveKeeps(frames: seq<ScriptFrame>, s: Play, m: Move)
    requires Loadable(frames) && PlayInv(frames, s) && Enabled(frames, s, m)
    ensures PlayInv(frames, After(frames, s, m))
  {
    match m
    case Skip | EmitFrame => PosKeeps(frames, s, m);
    case Block =>
    case Wake =>
    case Deliver => SentKeeps(frames, s, m);
    case Advance => SentKeeps(frames, s, m);
  }

  lemma PosKeeps(frames: seq<ScriptFrame>, s: Play, m: Move)
    requires Loadable(frames) && PlayInv(frames, s) && Enabled(frames, s, m) && (m == Skip || m == EmitFrame)
    ensures PlayInv(frames, After(frames, s, m))
  {
    assert frames[..s.pos + 1][..s.pos] == frames[..s.pos];
    assert GateMetBy(frames, s.pos, s.sent);
  }

  lemma {:induction false} RunKeeps(frames: seq<ScriptFrame>, states: seq<Play>, moves: seq<Move>, i: nat)
    requires Loadable(frames) && Run(frames, states, moves) && i < |states|
    ensures PlayInv(frames, states[i])
  {
    if i > 0 {
      RunKeeps(frames, states, moves, i - 1);
      MoveKeeps(frames, states[i - 1], moves[i - 1]);
    }
  }

  lemma ReachableKeeps(frames: seq<ScriptFrame>, s: Play)
    requires Loadable(frames) && Reachable(frames, s)
    ensures PlayInv(frames, s)
  {
    var states, moves :| Run(frames, states, moves) && states[|moves|] == s;
    RunKeeps(frames, states, moves, |moves|);
  }

  // ----- never stuck ------------------------------------------------------------------------------

  predicate Finished(frames: seq<ScriptFrame>, s: Play) {
    s.pos == |frames| && s.sent == |frames|
  }

  /** Every gate asks for in-frames that the script has before it. */
  predicate Satisfiable(frames: seq<ScriptFrame>) {
    forall k | 0 <= k < |frames| :: GateMetBy(frames, k, k)
  }

  /** No wake-up is lost: a player blocked at a gate that is open has been signalled. */
  lemma NoLostWakeup(frames: seq<ScriptFrame>, s: Play)
    requires Loadable(frames) && Reachable(frames, s)
    requires s.waiting.Some? && s.pos < |frames| && GateOpen(s, frames[s.pos])
    ensures Enabled(frames, s, Wake)
  {
    ReachableKeeps(frames, s);
  }

  lemma ProgressPossible(frames: seq<ScriptFrame>, s: Play)
    requires Loadable(frames) && PlayInv(frames, s) && !Finished(frames, s)
    requires s.pos < |frames| ==> GateMetBy(frames, s.pos, s.pos)
    ensures exists m :: Enabled(frames, s, m)
  {
    if s.sent < s.pos || s.pos == |frames| {
      assert Enabled(frames, s, if frames[s.sent].dir == In then Deliver else Advance);
    } else if s.waiting == None {
      assert Enabled(frames, s, if frames[s.pos].dir != Out then Skip
                                else if GateOpen(s, frames[s.pos]) then EmitFrame else Block);
    } else {
      InCountMonotone(frames, frames[s.pos].after, s.pos, s.sent);
      assert GateOpen(s, frames[s.pos]);
      assert Enabled(frames, s, Wake);
    }
  }

  /** What is left to do; every move makes it smaller, so every run is finite. */
  function Work(frames: seq<ScriptFrame>, s: Play): int {
    4 * (|frames| - s.pos) + 4 * (|frames| - s.sent)
    + (match s.waiting case None => 2 case Some(g) => if g < s.gate then 3 else 1)
  }

  lemma MovesShrinkWork(frames: seq<ScriptFrame>, s: Play, m: Move)
    requires Loadable(frames) && Reachable(frames, s) && Enabled(frames, s, m)
    ensures 0 < Work(frames, After(frames, s, m)) < Work(frames, s)
  {
    ReachableKeeps(frames, s);
    MoveKeeps(frames, s, m);
  }

  /** A run that cannot move any more. */
  ghost predicate Maximal(frames: seq<ScriptFrame>, s: Play) {
    Reachable(frames, s) && forall m :: !Enabled(frames, s, m)
  }

  /** Every run that goes on as long as it can ends with exactly the out-frames emitted, in
      order, exactly when every gate is satisfied by the in-frames recorded before it. */
  lemma NeverStuckIff(frames: seq<ScriptFrame>)
    requires Loadable(frames)
    ensures Satisfiable(frames) <==> forall s | Maximal(frames, s) :: Finished(frames, s) && s.emitted == Outs(frames)
  {
    if Satisfiable(frames) {
      forall s | Maximal(frames, s) ensures Finished(frames, s) && s.emitted == Outs(frames) {
        ReachableKeeps(frames, s);
        if !Finished(frames, s) { ProgressPossible(frames, s); }
        assert frames[..|frames|] == frames;
      }
    } else {
      ReachableStart(frames);
      var s := RunOut(frames, START);
      ReachableKeeps(frames, s);
      if Finished(frames, s) {
        FinishedIsSatisfiable(frames, s);
      }
    }
  }

  lemma {:induction false} RunOut(frames: seq<ScriptFrame>, s: Play) returns (last: Play)
    requires Loadable(frames) && Reachable(frames, s)
    ensures Maximal(frames, last)
    decreases Work(frames, s)
  {
    ReachableKeeps(frames, s);
    if m :| Enabled(frames, s, m) {
      MovesShrinkWork(frames, s, m);
      ReachableAfter(frames, s, m);
      last := RunOut(frames, After(frames, s, m));
    } else {
      last := s;
    }
  }

  /** While out-frame k is not emitted the bridge has not sent anything recorded after it, so
      each gate was met by the in-frames before it when the player passed. */
  ghost predicate GatesMetBefore(frames: seq<ScriptFrame>, s: Play) {
    forall k | 0 <= k < |frames| && k < s.pos :: GateMetBy(frames, k, k)
  }

  lemma MoveKeepsGates(frames: seq<ScriptFrame>, s: Play, m: Move)
    requires Loadable(frames) && PlayInv(frames, s) && GatesMetBefore(frames, s) && Enabled(frames, s, m)
    ensures GatesMetBefore(frames, After(frames, s, m))
  {
    if m == EmitFrame {
      var k := s.pos;
      assert s.sent <= k;
      InCountMonotone(frames, frames[k].after, s.sent, k);
    }
  }

  lemma {:induction false} RunKeepsGates(frames: seq<ScriptFrame>, states: seq<Play>, moves: seq<Move>, i: nat)
    requires Loadable(frames) && Run(frames, states, moves) && i < |states|
    ensures GatesMetBefore(frames, states[i])
  {
    if i > 0 {
      RunKeepsGates(frames, states, moves, i - 1);
      RunKeeps(frames, states, moves, i - 1);
      MoveKeepsGates(frames, states[i - 1], moves[i - 1]);
    }
  }

  lemma FinishedIsSatisfiable(frames: seq<ScriptFrame>, s: Play)
    requires Loadable(frames) && Reachable(frames, s) && Finished(frames, s)
    ensures Satisfiable(frames)
  {
    var states, moves :| Run(frames, states, moves) && states[|moves|] == s;
    RunKeepsGates(frames, states, moves, |moves|);
  }

  // ----- recorded scripts ---------------------------------------------------------------------------

  lemma {:induction false} OpenRequestCounted(calls: seq<Call>, key: IdKey, frames: seq<ScriptFrame>)
    requires |frames| == |calls|
    requires forall k | 0 <= k < |calls| :: frames[k].dir == calls[k].dir && frames[k].wire == calls[k].wire
    requires OpenRequest(calls, key).Some?
    ensures OpenRequest(calls, key).value != "" && InCount(frames, OpenRequest(calls, key).value) >= 1
  {
    var n := |calls| - 1;
    var last := calls[n];
    if last.dir == In && ProbeRequestMethod(last.wire).Some? && ProbeRequestMethod(last.wire).value.1 == key {
    } else {
      OpenRequestCounted(calls[..n], key, frames[..n]);
    }
  }

  /** Any recorded script replays: every gate the recorder derives names a request recorded
      before it, so no run of the player sticks and all out-frames come out in order. */
  lemma RecordedScriptReplays(h: Header, calls: seq<Call>)
    requires WireTrace(calls)
    ensures var frames := FramesOf(calls);
            Load(Record(h, calls).file) == Ok(Script(h, frames, [])) && Loadable(frames) && Satisfiable(frames)
            && forall s | Maximal(frames, s) :: Finished(frames, s) && s.emitted == Outs(frames)
  {
    var frames := FramesOf(calls);
    RecordedScriptLoads(h, calls);
    forall k | 0 <= k < |frames| ensures GateMetBy(frames, k, k) {
      if frames[k].after != "" {
        var key := ProbeResponseID(calls[k].wire).value;
        OpenRequestCounted(calls[..k], key, frames[..k]);
      }
    }
    NeverStuckIff(frames);
  }

  // ----- a response and the request it answers -----------------------------------------------------

  /** Out-frame k is emitted only after the bridge sent in-frame j. */
  ghost predicate SentFirst(frames: seq<ScriptFrame>, j: nat, k: nat) {
    forall s | Reachable(frames, s) && s.pos > k :: s.sent > j
  }

  /** A gate at or before k asks for more in-frames than stand before j. */
  predicate HeldByGate(frames: seq<ScriptFrame>, j: nat, k: nat)
    requires j < |frames| && k < |frames|
  {
    exists o | 0 <= o <= k :: !GateMetBy(frames, o, j)
  }

  /** The gate names a method, not a request: an out-frame waits for in-frame j exactly when
      some gate up to it is not already met by the in-frames before j. */
  lemma SentFirstIff(frames: seq<ScriptFrame>, j: nat, k: nat)
    requires Loadable(frames) && Satisfiable(frames) && j < k < |frames|
    ensures SentFirst(frames, j, k) <==> HeldByGate(frames, j, k)
  {
    if HeldByGate(frames, j, k) {
      var o :| 0 <= o <= k && !GateMetBy(frames, o, j);
      forall s | Reachable(frames, s) && s.pos > k ensures s.sent > j {
        ReachableKeeps(frames, s);
        assert GateMetBy(frames, o, s.sent);
        if s.sent <= j { InCountMonotone(frames, frames[o].after, s.sent, j); }
      }
    } else {
      ReachableStart(frames);
      ReachableKeeps(frames, START);
      var s := RunAhead(frames, j, k, START);
      assert !(s.sent > j);
    }
  }

  /** The player runs past k while the bridge stops short of j. */
  lemma {:induction false} RunAhead(frames: seq<ScriptFrame>, j: nat, k: nat, s: Play) returns (last: Play)
    requires Loadable(frames) && Satisfiable(frames) && j < k < |frames| && !HeldByGate(frames, j, k)
    requires Reachable(frames, s) && s.sent <= j && s.sent <= s.pos <= k + 1 && s.waiting == None
    ensures Reachable(frames, last) && last.pos > k && last.sent <= j
    decreases Work(frames, s)
  {
    ReachableKeeps(frames, s);
    if s.pos == k + 1 {
      last := s;
    } else {
      var m := StepAhead(frames, j, k, s);
      MovesShrinkWork(frames, s, m);
      ReachableAfter(frames, s, m);
      last := RunAhead(frames, j, k, After(frames, s, m));
    }
  }

  lemma StepAhead(frames: seq<ScriptFrame>, j: nat, k: nat, s: Play) returns (m: Move)
    requires Loadable(frames) && Satisfiable(frames) && j < k < |frames| && !HeldByGate(frames, j, k)
    requires PlayInv(frames, s) && s.sent <= j && s.sent <= s.pos <= k && s.waiting == None
    ensures Enabled(frames, s, m)
    ensures var s' := After(frames, s, m); s'.sent <= j && s'.sent <= s'.pos <= k + 1 && s'.waiting == None
  {
    if frames[s.pos].dir != Out {
      m := Skip;
    } else if GateOpen(s, frames[s.pos]) {
      m := EmitFrame;
    } else {
      m := if frames[s.sent].dir == In then Deliver else Advance;
      assert GateMetBy(frames, s.pos, j) && GateMetBy(frames, s.pos, s.pos);
      BridgeAhead(frames, s, m);
    }
  }

  /** While the gate at the player's position is closed the bridge has something to send. */
  lemma BridgeAhead(frames: seq<ScriptFrame>, s: Play, m: Move)
    requires PlayInv(frames, s) && s.sent <= s.pos < |frames| && s.waiting == None && frames[s.pos].dir == Out
    requires !GateOpen(s, frames[s.pos]) && GateMetBy(frames, s.pos, s.pos)
    requires m == if frames[s.sent].dir == In then Deliver else Advance
    ensures s.sent < s.pos && Enabled(frames, s, m)
  {
  }

  function Request(m: string, raw: string): Call {
    Call(In, Wire(m, Decoded(m, StringId(raw, raw))))
  }

  function Reply(raw: string): Call {
    Call(Out, Wire("", Decoded("", StringId(raw, raw))))
  }

  /** Two prompts, two replies: the recorded gate of the second reply is met by the first
      prompt, so the player may emit it before the second prompt was sent. */
  lemma SecondReplyMayComeFirst(m: string)
    requires m != ""
    ensures var frames := FramesOf([Request(m, "1"), Reply("1"), Request(m, "2"), Reply("2")]);
            frames[3].after == m && !SentFirst(frames, 2, 3)
  {
    var calls := [Request(m, "1"), Reply("1"), Request(m, "2"), Reply("2")];
    var frames := FramesOf(calls);
    TwoPromptGates(m, calls);
    RecordedScriptReplays(Header("", "", "", ""), calls);
    SentFirstIff(frames, 2, 3);
  }

  lemma TwoPromptGates(m: string, calls: seq<Call>)
    requires m != "" && calls == [Request(m, "1"), Reply("1"), Request(m, "2"), Reply("2")]
    ensures WireTrace(calls) && FramesOf(calls)[3].after == m && !HeldByGate(FramesOf(calls), 2, 3)
  {
    var frames := FramesOf(calls);
    var k1, k2 := NormalizedID(StringId("1", "1")), NormalizedID(StringId("2", "2"));
    assert ("s:" + "1")[2] != ("s:" + "2")[2];
    assert calls[..1] == [Request(m, "1")] && calls[..3] == [Request(m, "1"), Reply("1"), Request(m, "2")];
    assert GateOf(calls, 1) == m && GateOf(calls, 3) == m;
    assert frames[..2] == [frames[0], frames[1]];
    assert frames[..2][..1] == [frames[0]];
    assert InCount([frames[0]], m) == 1;
    assert InCount(frames[..2], m) == 1;
  }

  /** A reply to the first request of its method is held until that request was sent. */
  lemma FirstReplyWaits(calls: seq<Call>, j: nat, k: nat)
    requires WireTrace(calls) && j < k < |calls|
    requires calls[j].dir == In && SeenKey(calls[j].wire) == GateOf(calls, k) != ""
    requires forall i | 0 <= i < j && calls[i].dir == In :: SeenKey(calls[i].wire) != GateOf(calls, k)
    ensures SentFirst(FramesOf(calls), j, k)
  {
    var frames := FramesOf(calls);
    RecordedScriptReplays(Header("", "", "", ""), calls);
    NoneCounted(frames, GateOf(calls, k), j);
    assert !GateMetBy(frames, k, j);
    SentFirstIff(frames, j, k);
  }

  lemma {:induction false} NoneCounted(frames: seq<ScriptFrame>, key: string, n: nat)
    requires n <= |frames| && forall i | 0 <= i < n && frames[i].dir == In :: SeenKey(frames[i].wire) != key
    ensures InCount(frames[..n], key) == 0
  {
    if n > 0 {
      NoneCounted(frames, key, n - 1);
      InCountNext(frames, key, n - 1);
    }
  }
}
