/** node/agent/accesslog.go: tailing a preview's access log a window at a time, against one scan
    of the whole file. */
module AccessLog {

  import opened Text

  // ----- lines ---------------------------------------------------------------------------------

  /** bytes.Split at newlines. */
  function Split(s: string): (lines: seq<string>)
    ensures lines != []
  {
    if s == "" then [""] else Extend(Split(s[..|s| - 1]), s[|s| - 1])
  }

  /** The lines after one more byte. */
  function Extend(lines: seq<string>, c: char): (longer: seq<string>)
    requires lines != []
    ensures longer != []
  {
    if c == '\n' then lines + [""] else lines[..|lines| - 1] + [lines[|lines| - 1] + [c]]
  }

  lemma ExtendAfter(done: seq<string>, lines: seq<string>, c: char)
    requires lines != []
    ensures Extend(done + lines, c) == done + Extend(lines, c)
  {
  }

  /** The lines whose newline has been written. */
  function Complete(s: string): seq<string> {
    Split(s)[..|Split(s)| - 1]
  }

  function Torn(s: string): string {
    Split(s)[|Split(s)| - 1]
  }

  /** One past the last newline; 0 when there is none. */
  function LastLineEnd(s: string): (end: nat)
    ensures end <= |s| && (end == 0 || s[end - 1] == '\n')
    ensures forall i | end <= i < |s| :: s[i] != '\n'
  {
    if s == "" then 0 else if s[|s| - 1] == '\n' then |s| else LastLineEnd(s[..|s| - 1])
  }

  predicate AtLineStart(s: string, k: nat)
    requires k <= |s|
  {
    k == 0 || s[k - 1] == '\n'
  }

  /** Splitting goes through at a line start. */
  lemma {:induction false} SplitAtLineStart(a: string, b: string)
    requires AtLineStart(a, |a|)
    ensures Split(a + b) == Complete(a) + Split(b)
  {
    if b == "" {
      assert a + b == a;
      assert Torn(a) == "";
    } else {
      SplitAtLineStart(a, b[..|b| - 1]);
      assert (a + b)[..|a + b| - 1] == a + b[..|b| - 1];
      ExtendAfter(Complete(a), Split(b[..|b| - 1]), b[|b| - 1]);
    }
  }

  lemma CompleteAtLineStart(a: string, b: string)
    requires AtLineStart(a, |a|)
    ensures Complete(a + b) == Complete(a) + Complete(b)
  {
    SplitAtLineStart(a, b);
  }

  /** Only the bytes up to the last newline make complete lines; the rest is one torn line. */
  lemma {:induction false} TornPart(s: string)
    ensures Complete(s[..LastLineEnd(s)]) == Complete(s)
    ensures s[LastLineEnd(s)..] == Torn(s)
    ensures Split(s[..LastLineEnd(s)]) == Complete(s) + [""]
  {
    if s != "" {
      var init, c := s[..|s| - 1], s[|s| - 1];
      TornPart(init);
      if c == '\n' {
        assert s[..|s|] == s;
      } else {
        SameEnd(s);
      }
    }
  }

  lemma SameEnd(s: string)
    requires s != "" && s[|s| - 1] != '\n'
    ensures var init, end := s[..|s| - 1], LastLineEnd(s);
            end == LastLineEnd(init) && s[..end] == init[..end] && s[end..] == init[end..] + [s[|s| - 1]]
  {
  }

  /** Bytes of complete lines, their newlines counted. */
  function Bytes(lines: seq<string>): nat {
    if lines == [] then 0 else Bytes(lines[..|lines| - 1]) + |lines[|lines| - 1]| + 1
  }

  lemma {:induction false} BytesAppend(a: seq<string>, b: seq<string>)
    ensures Bytes(a + b) == Bytes(a) + Bytes(b)
  {
    if b == [] {
      assert a + b == a;
    } else {
      BytesAppend(a, b[..|b| - 1]);
      assert (a + b)[..|a + b| - 1] == a + b[..|b| - 1];
    }
  }

  lemma {:induction false} BytesOfComplete(s: string)
    ensures Bytes(Complete(s)) == LastLineEnd(s)
  {
    if s != "" {
      var init := s[..|s| - 1];
      BytesOfComplete(init);
      if s[|s| - 1] == '\n' {
        TornPart(init);
        assert Complete(s) == Split(init) == Complete(init) + [Torn(init)];
        BytesAppend(Complete(init), [Torn(init)]);
        assert Bytes([Torn(init)]) == Bytes([]) + |Torn(init)| + 1;
      } else {
        assert Complete(s) == Complete(init);
      }
    }
  }

  // ----- one poll ------------------------------------------------------------------------------

  /** What the file system answers: the size, then the bytes from the offset to that size. */
  datatype Section = NoOpen | NoRead | Data(bytes: string)
  datatype Look = NoStat | Sized(size: nat, section: Section)

  predicate Names(line: string, host: string, hostOf: string -> Option<string>) {
    line != "" && hostOf(line).Some? && ToLower(hostOf(line).value) == ToLower(host)
  }

  /** The line has a host, and it is this one, letter by letter, whatever their case. */
  predicate OfHost(line: string, host: string, hostOf: string -> Option<string>) {
    |line| > 0 && hostOf(line).Some? && Alike(hostOf(line).value, host)
  }

  predicate AnyNames(lines: seq<string>, host: string, hostOf: string -> Option<string>) {
    exists i | 0 <= i < |lines| :: Names(lines[i], host, hostOf)
  }

  /** Which lines are hits. */
  lemma AnyNamesMeaning(lines: seq<string>, host: string, hostOf: string -> Option<string>)
    ensures AnyNames(lines, host, hostOf) <==> exists line | line in lines :: OfHost(line, host, hostOf)
  {
    forall i | 0 <= i < |lines| ensures Names(lines[i], host, hostOf) <==> OfHost(lines[i], host, hostOf) {
      if hostOf(lines[i]).Some? {
        ToLowerAlike(hostOf(lines[i]).value, host);
      }
    }
  }

  /** The lines a poll judges. */
  function Judged(look: Look, offset: nat): seq<string> {
    if look.Sized? && look.size > offset && look.section.Data? then Complete(look.section.bytes) else []
  }

  function NextOffset(look: Look, offset: nat): nat {
    if look.NoStat? then offset
    else if look.size < offset then look.size
    else if look.size == offset || look.section.NoOpen? then offset
    else if look.section.NoRead? then look.size
    else offset + LastLineEnd(look.section.bytes)
  }

  method LastIndexNewline(data: string) returns (i: int)
    ensures i == LastLineEnd(data) - 1
  {
    i := |data| - 1;
    while i >= 0 && data[i] != '\n'
      invariant -1 <= i < |data|
      invariant LastLineEnd(data) == LastLineEnd(data[..i + 1])
    {
      assert data[..i + 1][..i] == data[..i];
      i := i - 1;
    }
  }

  method HostTrafficDelta(look: Look, offset: nat, host: string, hostOf: string -> Option<string>)
    returns (hit: bool, newOffset: nat)
    ensures newOffset == NextOffset(look, offset)
    ensures hit == AnyNames(Judged(look, offset), host, hostOf)
    ensures hit <==> look.Sized? && look.size > offset && look.section.Data?
                     && exists line | line in Complete(look.section.bytes) :: OfHost(line, host, hostOf)
  {
    AnyNamesMeaning(Judged(look, offset), host, hostOf);
    if look.NoStat? {
      return false, offset;
    }
    if look.size < offset {
      return false, look.size;
    }
    if look.size == offset {
      return false, offset;
    }
    if look.section.NoOpen? {
      return false, offset;
    }
    if look.section.NoRead? {
      return false, look.size;
    }
    var data := look.section.bytes;
    TornPart(data);
    var i := LastIndexNewline(data);
    if i >= 0 {
      data := data[..i + 1];
    } else {
      data := "";
    }
    hit := AnyLineNames(Split(data), host, hostOf);
    LastIsEmpty(Judged(look, offset), host, hostOf);
    newOffset := offset + |data|;
  }

  method AnyLineNames(lines: seq<string>, host: string, hostOf: string -> Option<string>) returns (hit: bool)
    ensures hit == AnyNames(lines, host, hostOf)
  {
    var want := ToLower(host);
    hit := false;
    for k := 0 to |lines|
      invariant hit == exists i | 0 <= i < k :: Names(lines[i], host, hostOf)
    {
      if |lines[k]| == 0 {
        continue;
      }
      var found := hostOf(lines[k]);
      if found.Some? && ToLower(found.value) == want {
        hit := true;
      }
    }
  }

  lemma LastIsEmpty(lines: seq<string>, host: string, hostOf: string -> Option<string>)
    ensures AnyNames(lines + [""], host, hostOf) == AnyNames(lines, host, hostOf)
  {
    if AnyNames(lines, host, hostOf) {
      var i :| 0 <= i < |lines| && Names(lines[i], host, hostOf);
      assert (lines + [""])[i] == lines[i];
    }
  }

  lemma AnyNamesAppend(a: seq<string>, b: seq<string>, host: string, hostOf: string -> Option<string>)
    ensures AnyNames(a + b, host, hostOf) == (AnyNames(a, host, hostOf) || AnyNames(b, host, hostOf))
  {
    if AnyNames(a, host, hostOf) {
      var i :| 0 <= i < |a| && Names(a[i], host, hostOf);
      assert (a + b)[i] == a[i];
    }
    if AnyNames(b, host, hostOf) {
      var i :| 0 <= i < |b| && Names(b[i], host, hostOf);
      assert (a + b)[|a| + i] == b[i];
    }
  }

  // ----- a file that only grows, polled at arbitrary moments -----------------------------------

  /** `start` is the offset of the first poll; `judged` and `hit` add up what the polls did;
      `lost` counts the bytes of windows that could not be read. */
  datatype Tail = Tail(file: string, start: nat, offset: nat, judged: seq<string>, hit: bool, lost: nat)

  predicate Init(s: Tail) {
    && s.start == s.offset <= |s.file| && AtLineStart(s.file, s.start)
    && s.judged == [] && !s.hit && s.lost == 0
  }

  /** The answers an append-only file can give, failures included. */
  predicate Honest(look: Look, s: Tail)
    requires s.offset <= |s.file|
  {
    look.Sized? ==> look.size == |s.file| && (look.section.Data? ==> look.section.bytes == s.file[s.offset..])
  }

  predicate ReadFails(look: Look, offset: nat) {
    look.Sized? && look.size > offset && look.section.NoRead?
  }

  predicate Grow(s: Tail, t: Tail) {
    s.file <= t.file && t == s.(file := t.file)
  }

  predicate Poll(s: Tail, t: Tail, look: Look, host: string, hostOf: string -> Option<string>) {
    && s.offset <= |s.file| && Honest(look, s)
    && t == s.(offset := NextOffset(look, s.offset), judged := s.judged + Judged(look, s.offset),
               hit := s.hit || AnyNames(Judged(look, s.offset), host, hostOf),
               lost := s.lost + if ReadFails(look, s.offset) then look.size - s.offset else 0)
  }

  ghost predicate Next(s: Tail, t: Tail, host: string, hostOf: string -> Option<string>) {
    Grow(s, t) || exists look :: Poll(s, t, look, host, hostOf)
  }

  ghost predicate Run(states: seq<Tail>, host: string, hostOf: string -> Option<string>) {
    && states != [] && Init(states[0])
    && forall k: nat | k + 1 < |states| :: Next(states[k], states[k + 1], host, hostOf)
  }

  /** Between polls: the offset is at a line start, and the judged lines are exactly the complete
      lines before it, each once and in order. */
  predicate Faithful(s: Tail) {
    && s.start <= s.offset <= |s.file| && AtLineStart(s.file, s.offset)
    && s.judged == Complete(s.file[s.start..s.offset])
  }

  predicate Inv(s: Tail, host: string, hostOf: string -> Option<string>) {
    && s.start <= s.offset <= |s.file| && AtLineStart(s.file, s.start)
    && (s.lost == 0 ==> Faithful(s))
    && Bytes(s.judged) + s.lost == s.offset - s.start
    && s.hit == AnyNames(s.judged, host, hostOf)
  }

  lemma GrowKeeps(s: Tail, t: Tail, host: string, hostOf: string -> Option<string>)
    requires Inv(s, host, hostOf) && Grow(s, t)
    ensures Inv(t, host, hostOf)
  {
    assert t.file[s.start..s.offset] == s.file[s.start..s.offset];
    if s.start > 0 {
      assert t.file[s.start - 1] == s.file[s.start - 1];
    }
    if s.offset > 0 {
      assert t.file[s.offset - 1] == s.file[s.offset - 1];
    }
  }

  /** Reading on from a line start up to the last newline. */
  lemma ReadOn(before: string, window: string)
    requires AtLineStart(before, |before|)
    ensures Complete(before + window[..LastLineEnd(window)]) == Complete(before) + Complete(window)
  {
    TornPart(window);
    CompleteAtLineStart(before, window[..LastLineEnd(window)]);
  }

  lemma Pieces(file: string, start: nat, offset: nat, n: nat)
    requires start <= offset <= offset + n <= |file|
    ensures file[start..offset + n] == file[start..offset] + file[offset..][..n]
    ensures file[start..] == file[start..offset] + file[offset..]
    ensures n > 0 ==> file[offset + n - 1] == file[offset..][n - 1]
  {
  }

  /** A window that was read: it extends the judged lines by just the lines it completes. */
  lemma WindowKeeps(s: Tail, end: nat)
    requires Faithful(s) && AtLineStart(s.file, s.start)
    requires end == s.offset + LastLineEnd(s.file[s.offset..])
    ensures end <= |s.file| && AtLineStart(s.file, end)
    ensures s.judged + Complete(s.file[s.offset..]) == Complete(s.file[s.start..end])
  {
    Pieces(s.file, s.start, s.offset, end - s.offset);
    ReadOn(s.file[s.start..s.offset], s.file[s.offset..]);
  }

  lemma PollKeeps(s: Tail, t: Tail, look: Look, host: string, hostOf: string -> Option<string>)
    requires Inv(s, host, hostOf) && Poll(s, t, look, host, hostOf)
    ensures Inv(t, host, hostOf)
  {
    var lines := Judged(look, s.offset);
    BytesAppend(s.judged, lines);
    AnyNamesAppend(s.judged, lines, host, hostOf);
    assert Bytes([]) == 0;
    if look.Sized? && look.size > s.offset && look.section.Data? {
      BytesOfComplete(look.section.bytes);
      if s.lost == 0 {
        WindowKeeps(s, t.offset);
      }
    } else {
      assert t.judged == s.judged;
    }
  }

  lemma {:induction false} RunKeeps(states: seq<Tail>, k: nat, host: string, hostOf: string -> Option<string>)
    requires Run(states, host, hostOf) && k < |states|
    ensures Inv(states[k], host, hostOf)
  {
    if k == 0 {
      var s := states[0];
      assert s.file[s.start..s.offset] == "";
    } else {
      RunKeeps(states, k - 1, host, hostOf);
      var s, t := states[k - 1], states[k];
      assert Next(states[k - 1], states[k - 1 + 1], host, hostOf);
      if Grow(s, t) {
        GrowKeeps(s, t, host, hostOf);
      } else {
        var look :| Poll(s, t, look, host, hostOf);
        PollKeeps(s, t, look, host, hostOf);
      }
    }
  }

  /** Tailing is faithful in every state of a run exactly as long as no window failed to be read:
      a failed read skips its window for good. */
  lemma TailIsFaithfulIff(states: seq<Tail>, k: nat, host: string, hostOf: string -> Option<string>)
    requires Run(states, host, hostOf) && k < |states|
    ensures Faithful(states[k]) <==> states[k].lost == 0
    ensures states[k].hit == AnyNames(states[k].judged, host, hostOf)
  {
    RunKeeps(states, k, host, hostOf);
    FaithfulIffNothingLost(states[k], host, hostOf);
  }

  lemma FaithfulIffNothingLost(s: Tail, host: string, hostOf: string -> Option<string>)
    requires Inv(s, host, hostOf)
    ensures Faithful(s) <==> s.lost == 0
    ensures s.hit == AnyNames(s.judged, host, hostOf)
  {
    if Faithful(s) {
      WholeLines(s.file[s.start..s.offset]);
    }
  }

  lemma WholeLines(seen: string)
    requires AtLineStart(seen, |seen|)
    ensures Bytes(Complete(seen)) == |seen|
  {
    BytesOfComplete(seen);
  }

  /** Polling in windows comes to the same as one scan of everything written since the start: a
      line torn at one poll is judged whole at a later one. */
  lemma TailEqualsScan(states: seq<Tail>, k: nat, look: Look, host: string, hostOf: string -> Option<string>)
    requires Run(states, host, hostOf) && k + 1 < |states|
    requires Poll(states[k], states[k + 1], look, host, hostOf) && look.Sized? && look.section.Data?
    requires states[k + 1].lost == 0
    ensures var t := states[k + 1];
            && t.start <= |t.file|
            && t.judged == Complete(t.file[t.start..])
            && t.offset == t.start + LastLineEnd(t.file[t.start..])
            && t.hit == AnyNames(Complete(t.file[t.start..]), host, hostOf)
  {
    RunKeeps(states, k, host, hostOf);
    RunKeeps(states, k + 1, host, hostOf);
    var s, t := states[k], states[k + 1];
    var before, window := s.file[s.start..s.offset], s.file[s.offset..];
    Pieces(s.file, s.start, s.offset, 0);
    CompleteAtLineStart(before, window);
    if look.size == s.offset {
      assert window == "" && Complete(window) == [];
    }
    BytesOfComplete(before + window);
  }

  // ----- a file that was replaced between polls ---------------------------------------------------

  /** Where the last line ends, by its two parts. */
  lemma LastLineEndOf(a: string, b: string)
    ensures LastLineEnd(a + b) == if LastLineEnd(b) == 0 then LastLineEnd(a) else |a| + LastLineEnd(b)
  {
    var end := if LastLineEnd(b) == 0 then LastLineEnd(a) else |a| + LastLineEnd(b);
    assert end > 0 ==> (a + b)[end - 1] == '\n';
    EndIs(a + b, end);
  }

  lemma {:induction false} EndIs(s: string, end: nat)
    requires end <= |s| && (end == 0 || s[end - 1] == '\n')
    requires forall i | end <= i < |s| :: s[i] != '\n'
    ensures LastLineEnd(s) == end
  {
    if s != "" && s[|s| - 1] != '\n' {
      EndIs(s[..|s| - 1], end);
    }
  }

  /** Judging a file in two parts finds its lines exactly when the second part begins at a line
      start, or has no complete line. */
  lemma PartsAreLinesIff(a: string, b: string)
    ensures Complete(a + b) == Complete(a) + Complete(b) <==> AtLineStart(a, |a|) || Complete(b) == []
  {
    BytesOfComplete(a);
    BytesOfComplete(b);
    BytesOfComplete(a + b);
    BytesAppend(Complete(a), Complete(b));
    LastLineEndOf(a, b);
    if AtLineStart(a, |a|) {
      CompleteAtLineStart(a, b);
    } else if Complete(b) == [] {
      TornPart(a + b);
      TornPart(a);
      assert (a + b)[..LastLineEnd(a)] == a[..LastLineEnd(a)];
      assert Complete(a) + [] == Complete(a);
    } else {
      EndIs(a, LastLineEnd(a));
    }
  }

  /** The first poll that reads a new file in place of the old one.  It notices, going back and
      judging nothing, exactly when the new file is shorter than the old offset.  Otherwise it
      judges what lies past that offset: the lines before it are passed over, and what it judges
      are lines of the file exactly when the offset happens to be a line start in it. */
  lemma ReplacedFileIsNoticedIff(file: string, look: Look, offset: nat)
    requires look.Sized? && look.size == |file| && look.section.Data?
    requires offset <= |file| ==> look.section.bytes == file[offset..]
    ensures NextOffset(look, offset) < offset <==> |file| < offset
    ensures |file| < offset ==> NextOffset(look, offset) == |file| && Judged(look, offset) == []
    ensures |file| >= offset ==> Judged(look, offset) == Complete(file[offset..])
    ensures |file| >= offset ==>
              (Complete(file) == Complete(file[..offset]) + Judged(look, offset)
               <==> AtLineStart(file, offset) || Judged(look, offset) == [])
  {
    if |file| >= offset {
      assert file[..offset] + file[offset..] == file;
      PartsAreLinesIff(file[..offset], file[offset..]);
      if |file| == offset {
        assert Complete("") == [];
      }
    }
  }
}
