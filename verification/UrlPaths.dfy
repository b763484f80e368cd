/** Reference resolution as in section 5.2 of RFC 3986, on paths as strings, and what it does to
    paths seen as lists of segments. */
module UrlPaths {

  // ----- RFC 3986, sections 5.2.2 to 5.2.4 -----------------------------------------------------

  /** Up to, not including, the last slash: section 5.2.4 removes the last segment this way. */
  function Pop(output: string): string {
    if output == "" then "" else
    if output[|output| - 1] == '/' then output[..|output| - 1] else Pop(output[..|output| - 1])
  }

  /** Position of the first slash at or after `from`, or the length. */
  function SegmentEnd(s: string, from: nat): (end: nat)
    requires from <= |s|
    ensures from <= end <= |s|
    ensures end < |s| ==> s[end] == '/'
    ensures forall i | from <= i < end :: s[i] != '/'
    decreases |s| - from
  {
    if from == |s| || s[from] == '/' then from else SegmentEnd(s, from + 1)
  }

  predicate Starts(s: string, prefix: string) {
    |prefix| <= |s| && forall i | 0 <= i < |prefix| :: s[i] == prefix[i]
  }

  /** Section 5.2.4, steps 2A to 2E on the input and the output buffer. */
  function RemoveDots(input: string, output: string): string
    decreases |input|
  {
    if input == "" then output
    else if Starts(input, "../") then RemoveDots(input[3..], output)
    else if Starts(input, "./") then RemoveDots(input[2..], output)
    else if Starts(input, "/./") then RemoveDots("/" + input[3..], output)
    else if input == "/." then RemoveDots("/", output)
    else if Starts(input, "/../") then RemoveDots("/" + input[4..], Pop(output))
    else if input == "/.." then RemoveDots("/", Pop(output))
    else if input == "." || input == ".." then RemoveDots("", output)
    else
      var end := SegmentEnd(input, 1);
      RemoveDots(input[end..], output + input[..end])
  }

  /** Section 5.2.3, for a base with an authority: all of the base path up to its last slash. */
  function Merge(base: string, path: string): string {
    Pop(base) + "/" + path
  }

  /** Where the path of a reference without scheme and authority ends. */
  function PathEnd(ref: string): (end: nat)
    ensures end <= |ref|
    ensures end < |ref| ==> ref[end] == '?' || ref[end] == '#'
    ensures forall i | 0 <= i < end :: ref[i] != '?' && ref[i] != '#'
  {
    if ref == "" || ref[0] == '?' || ref[0] == '#' then 0 else 1 + PathEnd(ref[1..])
  }

  /** The first colon, slash, question mark or number sign, or the length. */
  function SchemeEnd(ref: string): (end: nat)
    ensures end <= |ref|
  {
    if ref == "" || Delimiter(ref[0]) then 0 else 1 + SchemeEnd(ref[1..])
  }

  predicate Delimiter(c: char) {
    c == ':' || c == '/' || c == '?' || c == '#'
  }

  lemma {:induction false} SchemeEndIs(s: string, k: nat)
    requires k < |s| && Delimiter(s[k]) && forall i | 0 <= i < k :: !Delimiter(s[i])
    ensures SchemeEnd(s) == k
  {
    if k > 0 {
      SchemeEndIs(s[1..], k - 1);
    }
  }

  predicate HasScheme(ref: string) {
    0 < SchemeEnd(ref) < |ref| && ref[SchemeEnd(ref)] == ':'
  }

  predicate HasAuthority(ref: string) {
    |ref| >= 2 && ref[0] == '/' && ref[1] == '/'
  }

  /** The target of a reference: at another origin, or a path with its query and fragment. */
  datatype Target = Elsewhere | Here(path: string, rest: string)

  /** Section 5.2.2 against a base without query and fragment. */
  function Resolve(base: string, ref: string): Target {
    var path, rest := ref[..PathEnd(ref)], ref[PathEnd(ref)..];
    if HasScheme(ref) || HasAuthority(ref) then Elsewhere
    else if path == "" then Here(base, rest)
    else if path[0] == '/' then Here(RemoveDots(path, ""), rest)
    else Here(RemoveDots(Merge(base, path), ""), rest)
  }

  /** A reference leads elsewhere exactly when it names a scheme, a colon after at least one
      character and before any slash, question mark or number sign, or begins with two slashes. */
  lemma ElsewhereIff(base: string, ref: string)
    ensures Resolve(base, ref) == Elsewhere <==> (exists k :: SchemeAt(ref, k)) || "//" <= ref
  {
    if k :| SchemeAt(ref, k) {
      SchemeEndIs(ref, k);
    }
    if HasScheme(ref) {
      NothingBeforeScheme(ref);
      assert SchemeAt(ref, SchemeEnd(ref));
    }
    assert "//"[0] == '/' && "//"[1] == '/';
    assert HasAuthority(ref) ==> ref[..2] == "//";
  }

  predicate SchemeAt(ref: string, k: int) {
    && 0 < k < |ref| && ref[k] == ':'
    && forall i | 0 <= i < k :: ref[i] != ':' && ref[i] != '/' && ref[i] != '?' && ref[i] != '#'
  }

  lemma {:induction false} NothingBeforeScheme(ref: string)
    ensures forall i | 0 <= i < SchemeEnd(ref) :: ref[i] != ':' && ref[i] != '/' && ref[i] != '?' && ref[i] != '#'
  {
    if ref != "" && !Delimiter(ref[0]) {
      NothingBeforeScheme(ref[1..]);
      assert forall i | 0 < i < SchemeEnd(ref) :: ref[i] == ref[1..][i - 1];
    }
  }

  /** Steps 2A and 2D: dot segments without a slash before them go. */
  lemma LeadingDotsGo(more: string, output: string)
    ensures RemoveDots("../" + more, output) == RemoveDots(more, output) == RemoveDots("./" + more, output)
    ensures RemoveDots(".", output) == output == RemoveDots("..", output)
  {
    var two, one := "../" + more, "./" + more;
    assert two[..3] == "../" && two[3..] == more && one[..2] == "./" && one[2..] == more;
    assert two[0] == one[0] == '.' && one[1] == '/';
    assert RemoveDots("", output) == output;
  }

  // ----- the same on segments ------------------------------------------------------------------

  predicate NoSlash(segment: string) {
    '/' !in segment
  }

  predicate Segments(segments: seq<string>) {
    forall i | 0 <= i < |segments| :: NoSlash(segments[i])
  }

  predicate Dotted(segment: string) {
    segment == "." || segment == ".."
  }

  function Path(segments: seq<string>): string {
    if segments == [] then "" else "/" + segments[0] + Path(segments[1..])
  }

  function SplitSlash(s: string): (segments: seq<string>)
    ensures segments != [] && Segments(segments)
  {
    if s == "" then [""]
    else
      var more := SplitSlash(s[1..]);
      if s[0] == '/' then [""] + more else [[s[0]] + more[0]] + more[1..]
  }

  /** Dot segments removed from a list, on top of what is there already; a dot segment at the end
      leaves a trailing slash. */
  function Walk(stack: seq<string>, segments: seq<string>): seq<string>
    decreases |segments|
  {
    if segments == [] then stack
    else
      var above := if segments[0] == ".." && stack != [] then stack[..|stack| - 1] else stack;
      if !Dotted(segments[0]) then Walk(stack + [segments[0]], segments[1..])
      else if |segments| == 1 then above + [""]
      else Walk(above, segments[1..])
  }

  lemma {:induction false} PathOfSplit(s: string)
    ensures Path(SplitSlash(s)) == "/" + s
  {
    if s == "" {
    } else {
      PathOfSplit(s[1..]);
      SplitStep(s[0], s[1..]);
      assert s == [s[0]] + s[1..];
    }
  }

  lemma SplitStep(c: char, s: string)
    requires Path(SplitSlash(s)) == "/" + s
    ensures Path(SplitSlash([c] + s)) == "/" + ([c] + s)
  {
    var more := SplitSlash(s);
    assert ([c] + s)[1..] == s;
    if c != '/' {
      PathLonger(c, s, more);
    }
  }

  lemma PathLonger(c: char, s: string, segments: seq<string>)
    requires segments != [] && Path(segments) == "/" + s
    ensures Path([[c] + segments[0]] + segments[1..]) == "/" + ([c] + s)
  {
    var tail := segments[0] + Path(segments[1..]);
    assert Path(segments) == "/" + tail;
    assert s == Path(segments)[1..] == tail;
    assert ([[c] + segments[0]] + segments[1..])[1..] == segments[1..];
    assert "/" + ([c] + segments[0]) + Path(segments[1..]) == "/" + ([c] + tail);
  }

  lemma {:induction false} PathAppend(a: seq<string>, b: seq<string>)
    ensures Path(a + b) == Path(a) + Path(b)
  {
    if a == [] {
      assert a + b == b;
    } else {
      PathAppend(a[1..], b);
      assert (a + b)[1..] == a[1..] + b && (a + b)[0] == a[0];
      assert Path(a) + Path(b) == "/" + a[0] + (Path(a[1..]) + Path(b));
    }
  }

  lemma PathSnoc(a: seq<string>, segment: string)
    ensures Path(a + [segment]) == Path(a) + "/" + segment
  {
    PathAppend(a, [segment]);
    assert Path([segment]) == "/" + segment + Path([]);
  }

  lemma {:induction false} PopSegment(a: string, segment: string)
    requires NoSlash(segment)
    ensures Pop(a + "/" + segment) == a
  {
    var s := a + "/" + segment;
    if segment == "" {
      assert s[..|s| - 1] == a;
    } else {
      assert s[..|s| - 1] == a + "/" + segment[..|segment| - 1];
      PopSegment(a, segment[..|segment| - 1]);
    }
  }

  lemma PopPath(stack: seq<string>)
    requires Segments(stack)
    ensures Pop(Path(stack)) == Path(if stack == [] then stack else stack[..|stack| - 1])
  {
    if stack != [] {
      var n := |stack| - 1;
      assert stack == stack[..n] + [stack[n]];
      PathSnoc(stack[..n], stack[n]);
      PopSegment(Path(stack[..n]), stack[n]);
    }
  }

  /** Step 2E on one ordinary segment. */
  lemma MoveSegment(segment: string, more: string, output: string)
    requires NoSlash(segment) && !Dotted(segment) && (more == "" || more[0] == '/')
    ensures RemoveDots("/" + segment + more, output) == RemoveDots(more, output + "/" + segment)
  {
    var input := "/" + segment + more;
    forall i | 1 <= i < 1 + |segment| ensures input[i] == segment[i - 1] && input[i] != '/' {
    }
    var end := SegmentEnd(input, 1);
    assert more != "" ==> input[1 + |segment|] == '/';
    assert end == 1 + |segment|;
    assert input[..end] == "/" + segment && input[end..] == more;
    NotADotStep(segment, more);
    assert input[0] == '/';
    assert output + input[..end] == output + "/" + segment;
  }

  lemma NotADotStep(segment: string, more: string)
    requires NoSlash(segment) && !Dotted(segment) && (more == "" || more[0] == '/')
    ensures var input := "/" + segment + more;
            && !Starts(input, "/./") && !Starts(input, "/../") && input != "/." && input != "/.."
  {
    var input := "/" + segment + more;
    assert forall i | 0 <= i < |segment| :: input[i + 1] == segment[i] != '/';
    assert more != "" ==> input[|segment| + 1] == '/';
    if |segment| == 0 {
      assert |input| > 1 ==> input[1] != "/./"[1] && input[1] != "/../"[1];
    } else if |segment| == 1 {
      assert segment == [segment[0]];
      assert input[1] != "/./"[1] && input[1] != "/../"[1];
    } else {
      assert input[2] != "/./"[2];
      if |segment| == 2 {
        assert segment == [segment[0], segment[1]];
        assert input[1] != "/../"[1] || input[2] != "/../"[2];
      } else {
        assert input[3] != "/../"[3];
      }
    }
  }

  /** Step 2B: a single dot goes. */
  lemma DropDot(more: string, output: string)
    requires more == "" || more[0] == '/'
    ensures RemoveDots("/." + more, output) == RemoveDots(if more == "" then "/" else more, output)
  {
    var input := "/." + more;
    assert input[0] == '/' && input[1] == '.';
    if more == "" {
      assert input == "/.";
    } else {
      assert input[2] == '/';
      assert Starts(input, "/./");
      assert "/" + input[3..] == more;
    }
  }

  /** Step 2C: a double dot takes the segment before it along. */
  lemma DropTwoDots(more: string, output: string)
    requires more == "" || more[0] == '/'
    ensures RemoveDots("/.." + more, output) == RemoveDots(if more == "" then "/" else more, Pop(output))
  {
    var input := "/.." + more;
    assert input[0] == '/' && input[1] == '.' && input[2] == '.';
    if more == "" {
      assert input == "/..";
    } else {
      assert input[3] == '/';
      assert Starts(input, "/../");
      assert "/" + input[4..] == more;
    }
  }

  /** The string algorithm does on the text of a path what Walk does on its segments. */
  lemma {:induction false} RemoveDotsIsWalk(segments: seq<string>, stack: seq<string>)
    requires Segments(segments) && Segments(stack)
    ensures RemoveDots(Path(segments), Path(stack)) == Path(Walk(stack, segments))
    decreases |segments|
  {
    if segments != [] {
      var head, more := segments[0], segments[1..];
      assert segments == [head] + more;
      if !Dotted(head) {
        OrdinaryStep(head, more, stack);
        RemoveDotsIsWalk(more, stack + [head]);
      } else {
        var above := if head == ".." && stack != [] then stack[..|stack| - 1] else stack;
        DottedStep(head, more, stack, above);
        if more == [] {
          PathSnoc(above, "");
          assert Path(above) + "/" + "" == Path(above) + "/";
        } else {
          RemoveDotsIsWalk(more, above);
        }
      }
    }
  }

  lemma OrdinaryStep(head: string, more: seq<string>, stack: seq<string>)
    requires NoSlash(head) && !Dotted(head)
    ensures RemoveDots(Path([head] + more), Path(stack)) == RemoveDots(Path(more), Path(stack + [head]))
  {
    assert ([head] + more)[1..] == more;
    MoveSegment(head, Path(more), Path(stack));
    PathSnoc(stack, head);
  }

  lemma DottedStep(head: string, more: seq<string>, stack: seq<string>, above: seq<string>)
    requires Segments(stack) && Dotted(head)
    requires above == if head == ".." && stack != [] then stack[..|stack| - 1] else stack
    ensures RemoveDots(Path([head] + more), Path(stack))
         == RemoveDots(if more == [] then "/" else Path(more), Path(above))
  {
    assert ([head] + more)[1..] == more;
    assert more != [] ==> Path(more) != "";
    if head == "." {
      assert "/" + head + Path(more) == "/." + Path(more);
      DropDot(Path(more), Path(stack));
    } else {
      assert "/" + head + Path(more) == "/.." + Path(more);
      DropTwoDots(Path(more), Path(stack));
      PopPath(stack);
    }
  }

  // ----- walking under a prefix ----------------------------------------------------------------

  /** Going through the segments from `depth` directories below the top, some double dot would
      leave the top. */
  predicate Climbs(depth: nat, segments: seq<string>)
    decreases |segments|
  {
    && segments != []
    && if segments[0] == ".." then depth == 0 || Climbs(depth - 1, segments[1..])
       else Climbs(if segments[0] == "." then depth else depth + 1, segments[1..])
  }

  lemma {:induction false} WalkUnder(under: seq<string>, stack: seq<string>, segments: seq<string>)
    requires !Climbs(|stack|, segments)
    ensures Walk(under + stack, segments) == under + Walk(stack, segments)
    decreases |segments|
  {
    if segments != [] {
      var both := under + stack;
      if !Dotted(segments[0]) {
        assert both + [segments[0]] == under + (stack + [segments[0]]);
        WalkUnder(under, stack + [segments[0]], segments[1..]);
      } else if segments[0] == "." {
        assert both + [""] == under + (stack + [""]);
        if |segments| > 1 {
          WalkUnder(under, stack, segments[1..]);
        }
      } else {
        var above := stack[..|stack| - 1];
        assert both[..|both| - 1] == under + above;
        assert under + above + [""] == under + (above + [""]);
        if |segments| > 1 {
          WalkUnder(under, above, segments[1..]);
        }
      }
    }
  }

  /** Once a path climbs out of the prefix it ends up short of it, whatever comes next. */
  lemma {:induction false} WalkFallsShort(stack: seq<string>, base: nat, other: seq<string>, segments: seq<string>)
    requires base > 0
    requires |stack| < base + |other| || (|stack| == base + |other| && Climbs(|other|, segments))
    ensures |Walk(stack, segments)| < base + |Walk(other, segments)|
    decreases |segments|
  {
    if segments != [] {
      if !Dotted(segments[0]) {
        WalkFallsShort(stack + [segments[0]], base, other + [segments[0]], segments[1..]);
      } else if |segments| > 1 {
        var above := if segments[0] == ".." && stack != [] then stack[..|stack| - 1] else stack;
        var above' := if segments[0] == ".." && other != [] then other[..|other| - 1] else other;
        WalkFallsShort(above, base, above', segments[1..]);
      }
    }
  }

  /** A walk through ordinary segments only adds them. */
  lemma {:induction false} WalkOrdinary(stack: seq<string>, ordinary: seq<string>, more: seq<string>)
    requires forall i | 0 <= i < |ordinary| :: !Dotted(ordinary[i])
    ensures Walk(stack, ordinary + more) == Walk(stack + ordinary, more)
    decreases |ordinary|
  {
    if ordinary == [] {
      assert ordinary + more == more && stack + ordinary == stack;
    } else {
      assert (ordinary + more)[1..] == ordinary[1..] + more;
      assert stack + [ordinary[0]] + ordinary[1..] == stack + ordinary;
      WalkOrdinary(stack + [ordinary[0]], ordinary[1..], more);
    }
  }

  function Ups(n: nat): (ups: seq<string>)
    ensures |ups| == n && Segments(ups)
  {
    if n == 0 then [] else [".."] + Ups(n - 1)
  }

  /** As many double dots as there are directories lead back to where they started. */
  lemma {:induction false} WalkUp(stack: seq<string>, dirs: seq<string>, more: seq<string>)
    requires more != []
    ensures Walk(stack + dirs, Ups(|dirs|) + more) == Walk(stack, more)
    decreases |dirs|
  {
    if dirs == [] {
      assert stack + dirs == stack && Ups(0) + more == more;
    } else {
      var n := |dirs| - 1;
      assert (stack + dirs)[..|stack + dirs| - 1] == stack + dirs[..n];
      assert (Ups(n + 1) + more)[1..] == Ups(n) + more;
      WalkUp(stack, dirs[..n], more);
    }
  }

  /** Paths are told apart by how many segments they have. */
  lemma {:induction false} SlashesOfPath(segments: seq<string>)
    requires Segments(segments)
    ensures multiset(Path(segments))['/'] == |segments|
  {
    if segments != [] {
      SlashesOfPath(segments[1..]);
      assert '/' !in multiset(segments[0]);
      assert Path(segments) == "/" + segments[0] + Path(segments[1..]);
    }
  }

  lemma {:induction false} WalkSegments(stack: seq<string>, segments: seq<string>)
    requires Segments(stack) && Segments(segments)
    ensures Segments(Walk(stack, segments))
    decreases |segments|
  {
    if segments != [] {
      var above := if segments[0] == ".." && stack != [] then stack[..|stack| - 1] else stack;
      if !Dotted(segments[0]) {
        WalkSegments(stack + [segments[0]], segments[1..]);
      } else if |segments| > 1 {
        WalkSegments(above, segments[1..]);
      }
    }
  }

  /** A path walked from below a prefix stays what it is under the prefix, exactly when it does
      not climb out or there is no prefix to climb out of. */
  lemma WalkUnderIff(under: seq<string>, segments: seq<string>)
    requires Segments(under) && Segments(segments)
    ensures Path(Walk(under, segments)) == Path(under) + Path(Walk([], segments))
            <==> under == [] || !Climbs(0, segments)
  {
    var here, there := Walk([], segments), Walk(under, segments);
    if under == [] {
    } else if !Climbs(0, segments) {
      assert under + [] == under;
      WalkUnder(under, [], segments);
      PathAppend(under, here);
    } else {
      WalkFallsShort(under, |under|, [], segments);
      WalkSegments(under, segments);
      WalkSegments([], segments);
      PathAppend(under, here);
      SlashesOfPath(there);
      SlashesOfPath(under + here);
    }
  }
}
