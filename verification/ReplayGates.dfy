/** internal/replay, gates and scripts read off their text: which request a recorded gate names,
    how often a gate must be satisfied before its frame goes out, and what of a script file is
    loaded. */
module ReplayGates {
  import opened Text
  import opened Replay
  import opened ReplayRuns

  // ----- the gate a response is recorded with --------------------------------------------------

  /** A frame of the bridge that asks for method m under this id. */
  predicate Asks(c: Call, id: JsonId, m: string)
    requires HasId(id)
  {
    && c.dir == In && c.wire.probe.Decoded? && c.wire.probe.rpcMethod == m && m != ""
    && HasId(c.wire.probe.id) && SameId(c.wire.probe.id, id)
  }

  /** A frame of the agent that answers the request with this id. */
  predicate Answers(c: Call, id: JsonId)
    requires HasId(id)
  {
    && c.dir != In && c.wire.probe.Decoded? && c.wire.probe.rpcMethod == ""
    && HasId(c.wire.probe.id) && SameId(c.wire.probe.id, id)
  }

  /** Frame j asks for method m under this id, and nothing after it uses the id, as a request or
      as an answer. */
  predicate StillOpen(calls: seq<Call>, j: int, id: JsonId, m: string)
    requires HasId(id)
  {
    && 0 <= j < |calls| && Asks(calls[j], id, m)
    && forall i | j < i < |calls| :: Unused(calls[i], id)
  }

  predicate Unused(c: Call, id: JsonId)
    requires HasId(id)
  {
    !Answers(c, id) && (c.wire.probe.Decoded? ==> !Asks(c, id, c.wire.probe.rpcMethod))
  }

  lemma {:induction false} OpenRequestIff(calls: seq<Call>, id: JsonId, m: string)
    requires HasId(id)
    ensures OpenRequest(calls, NormalizedID(id)) == Some(m) <==> exists j :: StillOpen(calls, j, id, m)
  {
    if calls != [] {
      var n := |calls| - 1;
      OpenRequestIff(calls[..n], id, m);
      LastCall(calls[n], id);
      OpenStep(calls, id, m);
    }
  }

  lemma LastCall(c: Call, id: JsonId)
    requires HasId(id)
    ensures c.dir == In ==>
              forall m :: Asks(c, id, m) <==> ProbeRequestMethod(c.wire) == Some((m, NormalizedID(id)))
    ensures c.dir != In ==> (Answers(c, id) <==> ProbeResponseID(c.wire) == Some(NormalizedID(id)))
  {
    if c.wire.probe.Decoded? && HasId(c.wire.probe.id) {
      NormalizedIDMeaning(c.wire.probe.id, id);
    }
  }

  lemma OpenStep(calls: seq<Call>, id: JsonId, m: string)
    requires HasId(id) && calls != []
    ensures var before, last := calls[..|calls| - 1], calls[|calls| - 1];
            (exists j :: StillOpen(calls, j, id, m))
            <==> Asks(last, id, m) || (Unused(last, id) && exists j :: StillOpen(before, j, id, m))
  {
    var n := |calls| - 1;
    if Asks(calls[n], id, m) {
      assert StillOpen(calls, n, id, m);
    }
    if j :| StillOpen(calls, j, id, m) && j < n {
      assert StillOpen(calls[..n], j, id, m);
    }
    if j :| StillOpen(calls[..n], j, id, m) && Unused(calls[n], id) {
      assert StillOpen(calls, j, id, m);
    }
  }

  /** The gate of every recorded frame: the method of the latest request of the bridge whose id it
      answers, if no other frame used that id in between; nothing for any other frame. */
  lemma GateMeaning(h: Header, calls: seq<Call>, k: nat, m: string)
    requires WireTrace(calls) && k < |calls| && m != ""
    ensures Load(Record(h, calls).file).Ok?
    ensures var script := Load(Record(h, calls).file).script;
            && |script.frames| == |calls|
            && script.frames[k].wire == calls[k].wire && script.frames[k].dir == calls[k].dir
            && (script.frames[k].after == m <==>
                && calls[k].dir != In && calls[k].wire.probe.Decoded? && calls[k].wire.probe.rpcMethod == ""
                && HasId(calls[k].wire.probe.id)
                && exists j :: StillOpen(calls[..k], j, calls[k].wire.probe.id, m))
  {
    RecordedScriptLoads(h, calls);
    var w := calls[k].wire;
    if w.probe.Decoded? && HasId(w.probe.id) {
      OpenRequestIff(calls[..k], w.probe.id, m);
    }
  }

  /** The calls whose frame is JSON. */
  function JsonOnly(calls: seq<Call>): seq<Call> {
    if calls == [] then []
    else
      var last := calls[|calls| - 1];
      JsonOnly(calls[..|calls| - 1]) + (if last.wire.probe == Invalid then [] else [last])
  }

  /** A frame that is not JSON leaves no trace: no line, no number, no pending request. */
  lemma {:induction false} JunkLeavesNoTrace(h: Header, calls: seq<Call>)
    ensures Record(h, calls) == Record(h, JsonOnly(calls)) && !Record(h, calls).closed
  {
    if calls != [] {
      var n := |calls| - 1;
      JunkLeavesNoTrace(h, calls[..n]);
      if calls[n].wire.probe == Invalid {
        assert JsonOnly(calls) == JsonOnly(calls[..n]);
      } else {
        assert JsonOnly(calls)[..|JsonOnly(calls)| - 1] == JsonOnly(calls[..n]);
      }
    }
  }

  /** After Close nothing is recorded any more. */
  lemma {:induction false} ClosedRecordsNothing(r: Recording, calls: seq<Call>)
    requires r.closed
    ensures RecordedAll(r, calls) == r
  {
    if calls != [] {
      ClosedRecordsNothing(r, calls[..|calls| - 1]);
    }
  }

  function RecordedAll(r: Recording, calls: seq<Call>): Recording {
    if calls == [] then r
    else
      var n := |calls| - 1;
      Recorded(RecordedAll(r, calls[..n]), calls[n].dir, calls[n].wire)
  }

  // ----- the occurrence a gate waits for -------------------------------------------------------

  /** This line of the bridge counts for the key: it has that method, or it has none and the key
      is "response:" and the text of its id. */
  predicate CountsFor(w: Wire, key: string) {
    && w.probe.Decoded?
    && if w.probe.rpcMethod != "" then key == w.probe.rpcMethod
       else IdText(w.probe.id) != "" && |key| >= 9 && key[..9] == "response:" && key[9..] == IdText(w.probe.id)
  }

  function IdText(id: JsonId): string {
    if id.Absent? then "" else if id.Null? then "null" else id.raw
  }

  lemma SeenKeyIs(w: Wire, key: string)
    requires key != ""
    ensures SeenKey(w) == key <==> CountsFor(w, key)
  {
    if w.probe.Decoded? && w.probe.rpcMethod == "" {
      var text := IdText(w.probe.id);
      assert ("response:" + text)[..9] == "response:" && ("response:" + text)[9..] == text;
      if |key| >= 9 {
        assert key == key[..9] + key[9..];
      }
    }
  }

  /** The lines among the first n frames that count for the key. */
  ghost function Counted(frames: seq<ScriptFrame>, n: nat, key: string): set<nat>
    requires n <= |frames|
  {
    set k: nat | k < n && frames[k].dir == In && CountsFor(frames[k].wire, key)
  }

  lemma {:induction false} InCountIsNumber(frames: seq<ScriptFrame>, n: nat, key: string)
    requires n <= |frames| && key != ""
    ensures InCount(frames[..n], key) == |Counted(frames, n, key)|
  {
    if n > 0 {
      InCountIsNumber(frames, n - 1, key);
      InCountNext(frames, key, n - 1);
      SeenKeyIs(frames[n - 1].wire, key);
      var before, now := Counted(frames, n - 1, key), Counted(frames, n, key);
      if frames[n - 1].dir == In && CountsFor(frames[n - 1].wire, key) {
        assert now == before + {n - 1};
      } else {
        assert now == before;
      }
    }
  }

  /** In every reachable state, each out-frame the player is past waited for its occurrence: the
      bridge has sent at least one line its gate names, and as many as its afterCount asks for. */
  lemma PassedGatesWaited(frames: seq<ScriptFrame>, s: Play, k: nat)
    requires Loadable(frames) && Reachable(frames, s) && k < s.pos
    ensures s.pos <= |frames| && s.sent <= |frames|
    ensures frames[k].after != "" ==>
              var n := |Counted(frames, s.sent, frames[k].after)|; n >= 1 && n >= frames[k].afterCount
  {
    ReachableKeeps(frames, s);
    if frames[k].after != "" {
      assert GateMetBy(frames, k, s.sent);
      InCountIsNumber(frames, s.sent, frames[k].after);
    }
  }

  /** Conversely a player that is not waiting emits the next out-frame just when its gate has been
      named often enough, and otherwise starts to wait; a waiting player may wake once it has. */
  lemma EmitsIff(frames: seq<ScriptFrame>, s: Play)
    requires Loadable(frames) && Reachable(frames, s) && s.pos < |frames| && frames[s.pos].dir == Out
    ensures s.sent <= |frames|
    ensures var fr := frames[s.pos];
            var n := |Counted(frames, s.sent, fr.after)|;
            var open := fr.after == "" || (n >= 1 && n >= fr.afterCount);
            && (Enabled(frames, s, EmitFrame) <==> s.waiting.None? && open)
            && (Enabled(frames, s, Block) <==> s.waiting.None? && !open)
            && (s.waiting.Some? && open ==> Enabled(frames, s, Wake))
  {
    ReachableKeeps(frames, s);
    if frames[s.pos].after != "" {
      InCountIsNumber(frames, s.sent, frames[s.pos].after);
    }
  }

  // ----- what is loaded ------------------------------------------------------------------------

  function FrameOfLine(e: Entry): seq<ScriptFrame> {
    if e.FrameEntry? then [e.frame] else []
  }

  function WriteOfLine(e: Entry): seq<Write> {
    if e.WriteEntry? then [e.write] else []
  }

  /** The frames of a file, their own gates and counts with them. */
  function FramesIn(entries: seq<Entry>): seq<ScriptFrame> {
    if entries == [] then [] else FrameOfLine(entries[0]) + FramesIn(entries[1..])
  }

  function WritesIn(entries: seq<Entry>): seq<Write> {
    if entries == [] then [] else WriteOfLine(entries[0]) + WritesIn(entries[1..])
  }

  lemma FramesCons(first: Entry, more: seq<Entry>)
    ensures FramesIn([first] + more) == FrameOfLine(first) + FramesIn(more)
  {
    assert ([first] + more)[1..] == more;
  }

  lemma {:induction false} FramesAppend(entries: seq<Entry>, e: Entry)
    ensures FramesIn(entries + [e]) == FramesIn(entries) + FrameOfLine(e)
  {
    if entries == [] {
      FramesCons(e, []);
      assert entries + [e] == [e] + [];
    } else {
      var first, more := entries[0], entries[1..];
      FramesAppend(more, e);
      FramesCons(first, more + [e]);
      assert entries + [e] == [first] + (more + [e]);
      Associate(FrameOfLine(first), FramesIn(more), FrameOfLine(e));
    }
  }

  lemma WritesCons(first: Entry, more: seq<Entry>)
    ensures WritesIn([first] + more) == WriteOfLine(first) + WritesIn(more)
  {
    assert ([first] + more)[1..] == more;
  }

  lemma {:induction false} WritesAppend(entries: seq<Entry>, e: Entry)
    ensures WritesIn(entries + [e]) == WritesIn(entries) + WriteOfLine(e)
  {
    if entries == [] {
      WritesCons(e, []);
      assert entries + [e] == [e] + [];
    } else {
      var first, more := entries[0], entries[1..];
      WritesAppend(more, e);
      WritesCons(first, more + [e]);
      assert entries + [e] == [first] + (more + [e]);
      Associate(WriteOfLine(first), WritesIn(more), WriteOfLine(e));
    }
  }

  lemma Associate<T>(a: seq<T>, b: seq<T>, c: seq<T>)
    ensures a + (b + c) == (a + b) + c
  {
  }

  lemma {:induction false} LoadedSoFar(entries: seq<Entry>)
    requires LoadEntries(entries).Ok?
    ensures var script := LoadEntries(entries).script;
            && script.frames == FramesIn(entries) && script.writes == WritesIn(entries)
            && (entries != [] ==> entries[0].HeaderEntry? && script.header == entries[0].header)
  {
    if entries != [] {
      var n := |entries| - 1;
      LoadedSoFar(entries[..n]);
      FramesAppend(entries[..n], entries[n]);
      WritesAppend(entries[..n], entries[n]);
      assert entries == entries[..n] + [entries[n]];
    }
  }

  /** An accepted script is the file: the header of its first line, and all its frames and all its
      writes in their order, hand-written gates and counts included. */
  lemma LoadedIsFile(entries: seq<Entry>)
    requires Load(entries).Ok?
    ensures var script := Load(entries).script;
            && entries[0].HeaderEntry? && script.header == entries[0].header
            && script.frames == FramesIn(entries) && script.writes == WritesIn(entries)
  {
    LoadedSoFar(entries);
  }

  /** What is wrong with line number i + 1, when the lines before it are good and it is not. */
  function Complaint(entry: Entry, i: nat): LoadError {
    match entry
    case NotJson => LineNotJson(i + 1)
    case OtherEntry(_) => UnknownKind(i + 1)
    case HeaderEntry(_, _) => if i > 0 then HeaderNotFirst(i + 1) else BadEntry(i + 1)
    case FrameEntry(fr, decodes) =>
      if i == 0 then FirstNotHeader(i + 1)
      else if !decodes then BadEntry(i + 1)
      else if fr.dir.OtherDirection? then InvalidDirection(i + 1)
      else if fr.dir == In && fr.after != "" then GateOnInFrame(i + 1)
      else SequenceGap(i + 1)
    case WriteEntry(_, decodes) =>
      if i == 0 then FirstNotHeader(i + 1) else if !decodes then BadEntry(i + 1) else WriteWithoutPath(i + 1)
  }

  /** A refused file is refused for its first bad line, whatever follows; an empty one for that. */
  lemma RefusedForFirstBadLine(entries: seq<Entry>)
    requires Load(entries).Failed?
    ensures if entries == [] then Load(entries).error == EmptyScript
            else exists i :: FirstBad(entries, i) && Load(entries).error == Complaint(entries[i], i)
  {
    if entries != [] {
      var i := FindFirstBad(entries);
    }
  }

  predicate FirstBad(entries: seq<Entry>, i: int) {
    0 <= i < |entries| && !GoodEntry(entries, i) && forall j | 0 <= j < i :: GoodEntry(entries, j)
  }

  lemma {:induction false} FindFirstBad(entries: seq<Entry>) returns (i: nat)
    requires LoadEntries(entries).Failed?
    ensures FirstBad(entries, i) && LoadEntries(entries).error == Complaint(entries[i], i)
  {
    var n := |entries| - 1;
    var before := entries[..n];
    forall j | 0 <= j < n ensures GoodEntry(before, j) <==> GoodEntry(entries, j) {
      assert before[..j] == entries[..j];
    }
    if LoadEntries(before).Failed? {
      i := FindFirstBad(before);
    } else {
      i := n;
      LoadEntriesIff(before);
      LoadEntriesIff(entries);
    }
  }
}
