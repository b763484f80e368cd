/** internal/replay: the recorder that writes a script as frames cross the wire and derives
    the `after` gates, and the loader that validates a script. */
module Replay {
  import opened Text

  // ----- frames -------------------------------------------------------------------------

  /** The id member of a JSON-RPC frame; `raw` is its text, `shown` what %v prints. */
  datatype JsonId =
    | Absent
    | Null
    | StringId(s: string, raw: string)
    | NumberId(n: real, raw: string)
    | OtherId(shown: string, raw: string)

  /** What unmarshalling the method and id members gives: Invalid is no JSON at all, Opaque
      is JSON the probe cannot decode. */
  datatype Probe = Invalid | Opaque | Decoded(rpcMethod: string, id: JsonId)

  datatype Wire = Wire(bytes: string, probe: Probe)

  datatype Direction = In | Out | OtherDirection(name: string)

  datatype ScriptFrame = ScriptFrame(seqNo: int, dir: Direction, wire: Wire, after: string, afterCount: int)

  datatype Header = Header(cliType: string, adapterVersion: string, recordedAt: string, recipe: string)

  datatype Write = Write(path: string, content: string)

  /** One line of a script file, by its "kind"; `decodes` is false when the members have the
      wrong types. */
  datatype Entry =
    | NotJson
    | HeaderEntry(header: Header, decodes: bool)
    | FrameEntry(frame: ScriptFrame, decodes: bool)
    | WriteEntry(write: Write, decodes: bool)
    | OtherEntry(kind: string)

  // ----- ids ------------------------------------------------------------------------------

  datatype IdKey = TextKey(s: string) | NumberKey(n: real)

  predicate HasId(id: JsonId) {
    id != Absent && id != Null
  }

  function NormalizedID(id: JsonId): IdKey
    requires HasId(id)
  {
    match id
    case StringId(s, _) => TextKey("s:" + s)
    case NumberId(n, _) => NumberKey(n)
    case OtherId(shown, _) => TextKey("raw:" + shown)
  }

  /** Equal strings, equal numbers, or other values that are printed alike. */
  predicate SameId(a: JsonId, b: JsonId)
    requires HasId(a) && HasId(b)
  {
    match a
    case StringId(s, _) => b.StringId? && b.s == s
    case NumberId(n, _) => b.NumberId? && b.n == n
    case OtherId(shown, _) => b.OtherId? && b.shown == shown
  }

  /** Ids share a key exactly when they are of one JSON type and agree: a number and the
      string of the same digits do not match. */
  lemma NormalizedIDMeaning(a: JsonId, b: JsonId)
    requires HasId(a) && HasId(b)
    ensures NormalizedID(a) == NormalizedID(b) <==> SameId(a, b)
  {
    if a.StringId? && b.StringId? {
      assert ("s:" + a.s)[2..] == a.s && ("s:" + b.s)[2..] == b.s;
    } else if a.OtherId? && b.OtherId? {
      assert ("raw:" + a.shown)[4..] == a.shown && ("raw:" + b.shown)[4..] == b.shown;
    } else if a.StringId? && b.OtherId? {
      assert ("s:" + a.s)[0] != ("raw:" + b.shown)[0];
    } else if a.OtherId? && b.StringId? {
      assert ("raw:" + a.shown)[0] != ("s:" + b.s)[0];
    }
  }

  /** Method and key of an inbound request: a notification carries no id. */
  function ProbeRequestMethod(w: Wire): Option<(string, IdKey)> {
    match w.probe
    case Decoded(m, id) => if m == "" || !HasId(id) then None else Some((m, NormalizedID(id)))
    case _ => None
  }

  /** Key of an outbound response: a frame with a method is no response. */
  function ProbeResponseID(w: Wire): Option<IdKey> {
    match w.probe
    case Decoded(m, id) => if !HasId(id) || m != "" then None else Some(NormalizedID(id))
    case _ => None
  }

  // ----- the recorder -----------------------------------------------------------------------

  datatype Recording = Recording(file: seq<Entry>, seqNo: int, closed: bool, pending: map<IdKey, string>)

  datatype RecordError = NoError | RecorderClosed | MarshalFailed(seqNo: int)

  function PendingAfter(pending: map<IdKey, string>, dir: Direction, w: Wire): map<IdKey, string> {
    if dir == In then
      match ProbeRequestMethod(w)
      case Some(request) => pending[request.1 := request.0]
      case None => pending
    else
      match ProbeResponseID(w)
      case Some(id) => pending - {id}
      case None => pending
  }

  function Gate(pending: map<IdKey, string>, dir: Direction, w: Wire): string {
    if dir == In then ""
    else match ProbeResponseID(w)
      case Some(id) => if id in pending then pending[id] else ""
      case None => ""
  }

  function Recorded(r: Recording, dir: Direction, w: Wire): Recording {
    if r.closed || w.probe == Invalid then r
    else
      var fr := ScriptFrame(r.seqNo, dir, w, Gate(r.pending, dir, w), 0);
      Recording(r.file + [FrameEntry(fr, true)], r.seqNo + 1, false, PendingAfter(r.pending, dir, w))
  }

  class Recorder {
    var file: seq<Entry>
    var seqNo: int
    var closed: bool
    var pending: map<IdKey, string>

    function State(): Recording
      reads this
    {
      Recording(file, seqNo, closed, pending)
    }

    constructor (h: Header)
      ensures State() == Recording([HeaderEntry(h, true)], 0, false, map[])
    {
      file, seqNo, closed, pending := [HeaderEntry(h, true)], 0, false, map[];
    }

    method Frame(dir: Direction, frame: Wire) returns (err: RecordError)
      modifies this
      ensures State() == Recorded(old(State()), dir, frame)
      ensures err == if old(closed) then RecorderClosed
                     else if frame.probe == Invalid then MarshalFailed(old(seqNo)) else NoError
    {
      if closed {
        return RecorderClosed;
      }
      var fr := ScriptFrame(seqNo, dir, frame, "", 0);
      if dir == In {
        var request := ProbeRequestMethod(frame);
        if request.Some? {
          pending := pending[request.value.1 := request.value.0];
        }
      } else {
        var id := ProbeResponseID(frame);
        if id.Some? {
          if id.value in pending {
            fr := fr.(after := pending[id.value]);
            pending := pending - {id.value};
          }
        }
      }
      if frame.probe == Invalid {
        return MarshalFailed(seqNo);
      }
      file := file + [FrameEntry(fr, true)];
      seqNo := seqNo + 1;
      return NoError;
    }

    method Close()
      modifies this
      ensures State() == old(State()).(closed := true)
    {
      closed := true;
    }
  }

  // ----- the loader -------------------------------------------------------------------------

  datatype Script = Script(header: Header, frames: seq<ScriptFrame>, writes: seq<Write>)

  datatype LoadError =
    | EmptyScript
    | LineNotJson(line: nat)
    | HeaderNotFirst(line: nat)
    | FirstNotHeader(line: nat)
    | BadEntry(line: nat)
    | InvalidDirection(line: nat)
    | GateOnInFrame(line: nat)
    | SequenceGap(line: nat)
    | WriteWithoutPath(line: nat)
    | UnknownKind(line: nat)

  datatype Loaded = Ok(script: Script) | Failed(error: LoadError)

  const NO_HEADER := Header("", "", "", "")

  /** One line of the loader's switch, on the script read so far. */
  function LoadEntry(script: Script, entry: Entry, line: nat): Loaded {
    match entry
    case NotJson => Failed(LineNotJson(line))
    case HeaderEntry(h, decodes) =>
      if line != 1 then Failed(HeaderNotFirst(line))
      else if !decodes then Failed(BadEntry(line))
      else Ok(script.(header := h))
    case FrameEntry(fr, decodes) =>
      if line == 1 then Failed(FirstNotHeader(line))
      else if !decodes then Failed(BadEntry(line))
      else if fr.dir != In && fr.dir != Out then Failed(InvalidDirection(line))
      else if fr.after != "" && fr.dir != Out then Failed(GateOnInFrame(line))
      else if fr.seqNo != |script.frames| then Failed(SequenceGap(line))
      else Ok(script.(frames := script.frames + [fr]))
    case WriteEntry(wr, decodes) =>
      if line == 1 then Failed(FirstNotHeader(line))
      else if !decodes then Failed(BadEntry(line))
      else if wr.path == "" then Failed(WriteWithoutPath(line))
      else Ok(script.(writes := script.writes + [wr]))
    case OtherEntry(_) => Failed(UnknownKind(line))
  }

  /** The script after all the given lines. */
  function LoadEntries(entries: seq<Entry>): Loaded {
    if entries == [] then Ok(Script(NO_HEADER, [], []))
    else
      var n := |entries|;
      match LoadEntries(entries[..n - 1])
      case Failed(e) => Failed(e)
      case Ok(script) => LoadEntry(script, entries[n - 1], n)
  }

  function Load(entries: seq<Entry>): Loaded {
    if entries == [] then Failed(EmptyScript) else LoadEntries(entries)
  }

  method LoadScript(entries: seq<Entry>) returns (result: Loaded)
    ensures result == Load(entries)
  {
    var script := Script(NO_HEADER, [], []);
    var line := 0;
    while line < |entries|
      invariant 0 <= line <= |entries|
      invariant LoadEntries(entries[..line]) == Ok(script)
    {
      var entry := entries[line];
      LoadNext(entries, line);
      line := line + 1;
      match entry
      case NotJson => return LoadFailed(entries, line, LineNotJson(line));
      case HeaderEntry(h, decodes) =>
        if line != 1 { return LoadFailed(entries, line, HeaderNotFirst(line)); }
        if !decodes { return LoadFailed(entries, line, BadEntry(line)); }
        script := script.(header := h);
      case FrameEntry(fr, decodes) =>
        if line == 1 { return LoadFailed(entries, line, FirstNotHeader(line)); }
        if !decodes { return LoadFailed(entries, line, BadEntry(line)); }
        if fr.dir != In && fr.dir != Out { return LoadFailed(entries, line, InvalidDirection(line)); }
        if fr.after != "" && fr.dir != Out { return LoadFailed(entries, line, GateOnInFrame(line)); }
        if fr.seqNo != |script.frames| { return LoadFailed(entries, line, SequenceGap(line)); }
        script := script.(frames := script.frames + [fr]);
      case WriteEntry(wr, decodes) =>
        if line == 1 { return LoadFailed(entries, line, FirstNotHeader(line)); }
        if !decodes { return LoadFailed(entries, line, BadEntry(line)); }
        if wr.path == "" { return LoadFailed(entries, line, WriteWithoutPath(line)); }
        script := script.(writes := script.writes + [wr]);
      case OtherEntry(_) => return LoadFailed(entries, line, UnknownKind(line));
    }
    assert entries[..line] == entries;
    if line == 0 {
      return Failed(EmptyScript);
    }
    return Ok(script);
  }

  lemma LoadNext(entries: seq<Entry>, line: nat)
    requires line < |entries|
    ensures LoadEntries(entries[..line + 1]) ==
            match LoadEntries(entries[..line])
            case Failed(e) => Failed(e)
            case Ok(script) => LoadEntry(script, entries[line], line + 1)
  {
    assert entries[..line + 1][..line] == entries[..line];
  }

  /** The first failing line decides. */
  function LoadFailed(entries: seq<Entry>, line: nat, error: LoadError): (r: Loaded)
    requires line <= |entries| && LoadEntries(entries[..line]) == Failed(error)
    ensures r == Load(entries)
  {
    FailureSticks(entries, line, |entries|);
    assert entries[..|entries|] == entries;
    assert entries != [];
    Failed(error)
  }

  lemma {:induction false} FailureSticks(entries: seq<Entry>, line: nat, n: nat)
    requires line <= n <= |entries| && LoadEntries(entries[..line]).Failed?
    ensures LoadEntries(entries[..n]) == LoadEntries(entries[..line])
  {
    if line < n {
      FailureSticks(entries, line, n - 1);
      LoadNext(entries, n - 1);
    }
  }
}
