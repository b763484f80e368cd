/** internal/markdown/boundary.go: line classification and the scan that finds the last safe
    cut.  The scan is specified on the kinds of the lines, then tied to byte offsets. */
module Markdown {
  import opened Text

  // ----- line classification -----------------------------------------------------------

  const BLOCK_NAMES: seq<string> := [
    "div", "table", "pre", "blockquote", "ul", "ol", "dl", "figure", "section", "article", "aside",
    "header", "footer", "nav", "main", "form", "fieldset", "details"
  ]

  /** At least three equal fence characters. */
  predicate IsFence(t: string) {
    |t| >= 3 && (t[0] == '`' || t[0] == '~') && t[1] == t[0] && t[2] == t[0]
  }

  method IsCodeFence(trimmed: string) returns (r: bool)
    ensures r == IsFence(trimmed)
  {
    if |trimmed| < 3 { return false; }
    var ch := trimmed[0];
    if ch != '`' && ch != '~' { return false; }
    var i := 1;
    while i < |trimmed| && i < 10
      invariant 1 <= i <= |trimmed|
      invariant forall j | 1 <= j < i :: trimmed[j] == ch
    {
      if trimmed[i] != ch { return i >= 3; }
      i := i + 1;
    }
    return |trimmed| >= 3;
  }

  function SplitBars(s: string): (r: seq<string>)
    ensures |r| >= 1
  {
    if s == "" then [""]
    else if s[0] == '|' then [""] + SplitBars(s[1..])
    else var rest := SplitBars(s[1..]); [[s[0]] + rest[0]] + rest[1..]
  }

  predicate IsTableSeparator(inner: string) {
    forall part | part in SplitBars(inner) ::
      var col := TrimSpace(part); forall i | 0 <= i < |col| :: col[i] == '-' || col[i] == ':'
  }

  predicate IsTableRow(t: string) {
    if |t| < 3 then false
    else if t[0] != '|' || t[|t| - 1] != '|' then false
    else
      var inner := t[1..|t| - 1];
      IsTableSeparator(inner) || |TrimSpace(inner)| > 0
  }

  /** The look at the cells decides nothing: a row is any trimmed line of three bytes or
      more that starts and ends with a bar. */
  lemma TableRowMeaning(t: string)
    ensures IsTableRow(t) <==> |t| >= 3 && t[0] == '|' && t[|t| - 1] == '|'
  {
    if |t| >= 3 && t[0] == '|' && t[|t| - 1] == '|' {
      var inner := t[1..|t| - 1];
      TrimSpaceEmpty(inner);
      if Blank(inner) {
        BlankHasNoBars(inner);
        assert SplitBars(inner) == [inner];
        assert TrimSpace(inner) == "";
      }
    }
  }

  lemma {:induction false} BlankHasNoBars(s: string)
    requires Blank(s)
    ensures SplitBars(s) == [s]
  {
    if s != "" {
      assert Blank(s[1..]);
      BlankHasNoBars(s[1..]);
      assert [s[0]] + s[1..] == s;
    }
  }

  predicate StartsHtmlBlock(t: string) {
    |t| >= 2 && t[0] == '<' && exists k | 0 <= k < |BLOCK_NAMES| :: "<" + BLOCK_NAMES[k] <= ToLower(t)
  }

  predicate EndsHtmlBlock(t: string) {
    |t| >= 4 && exists k | 0 <= k < |BLOCK_NAMES| :: Contains(ToLower(t), "</" + BLOCK_NAMES[k] + ">")
  }

  /** What the scan tells lines apart by, in the order of its tests. */
  datatype Kind = Fence | Row | Open | OpenClose | Close | Plain

  function KindOf(line: string): Kind {
    var t := TrimSpace(line);
    if IsFence(t) then Fence
    else if IsTableRow(t) then Row
    else if StartsHtmlBlock(t) then (if EndsHtmlBlock(t) then OpenClose else Open)
    else if EndsHtmlBlock(t) then Close
    else Plain
  }

  function Kinds(lines: seq<string>): (r: seq<Kind>)
    ensures |r| == |lines|
    ensures forall i | 0 <= i < |lines| :: r[i] == KindOf(lines[i])
  {
    seq(|lines|, i requires 0 <= i < |lines| => KindOf(lines[i]))
  }

  // ----- the scan on kinds ---------------------------------------------------------------

  datatype State = State(code: bool, table: bool, html: bool)

  function Next(st: State, kind: Kind): State {
    if kind == Fence then st.(code := !st.code)
    else if st.code then st
    else match kind
      case Row => st.(table := true)
      case Open => st.(table := false, html := true)
      case OpenClose | Close => st.(table := false, html := false)
      case Plain => st.(table := false)
  }

  /** The cut, as a number of lines, after line number i of this kind. */
  function CutAfter(st: State, kind: Kind, i: nat, cut: nat): nat {
    if kind == Fence then (if st.code then i + 1 else if i > 0 then i else cut)
    else if st.code then cut
    else match kind
      case Row => if !st.table && i > 0 then i else cut
      case Open => if !st.html && i > 0 then i else cut
      case OpenClose => i + 1
      case Close => i + 1
      case Plain => if st.html then cut else i + 1
  }

  function StateOf(kinds: seq<Kind>): State {
    if kinds == [] then State(false, false, false)
    else Next(StateOf(kinds[..|kinds| - 1]), kinds[|kinds| - 1])
  }

  /** Number of lines in front of the last safe cut. */
  function LineCut(kinds: seq<Kind>): (c: nat)
    ensures c <= |kinds|
  {
    if kinds == [] then 0
    else
      var n := |kinds| - 1;
      CutAfter(StateOf(kinds[..n]), kinds[n], n, LineCut(kinds[..n]))
  }

  // ----- lines and offsets ---------------------------------------------------------------

  function IndexOfNewline(s: string): (r: int)
    ensures r == -1 ==> '\n' !in s
    ensures r != -1 ==> 0 <= r < |s| && s[r] == '\n' && '\n' !in s[..r]
  {
    if s == "" then -1
    else if s[0] == '\n' then 0
    else var k := IndexOfNewline(s[1..]);
      if k == -1 then -1
      else
        assert s[..k + 1] == [s[0]] + s[1..][..k];
        k + 1
  }

  function Lines(s: string): (r: seq<string>)
    ensures forall i | 0 <= i < |r| :: r[i] != ""
    ensures s == "" <==> r == []
    decreases |s|
  {
    var idx := IndexOfNewline(s);
    if s == "" then []
    else if idx == -1 then [s]
    else [s[..idx + 1]] + Lines(s[idx + 1..])
  }

  function Concat(lines: seq<string>): string {
    if lines == [] then "" else lines[0] + Concat(lines[1..])
  }

  /** The lines found so far, and those of the rest. */
  predicate SplitSoFar(lines: seq<string>, rest: string, content: string) {
    lines + Lines(rest) == Lines(content)
  }

  lemma OneLineMore(lines: seq<string>, rest: string, content: string)
    requires SplitSoFar(lines, rest, content) && IndexOfNewline(rest) >= 0
    ensures var end := IndexOfNewline(rest) + 1; SplitSoFar(lines + [rest[..end]], rest[end..], content)
  {
    var end := IndexOfNewline(rest) + 1;
    Reassociate(lines, rest[..end], Lines(rest[end..]));
  }

  lemma Reassociate<T>(a: seq<T>, x: T, b: seq<T>)
    ensures (a + [x]) + b == a + ([x] + b)
  {
  }

  lemma LastLine(lines: seq<string>, rest: string, content: string)
    requires SplitSoFar(lines, rest, content) && IndexOfNewline(rest) == -1
    ensures (if rest != "" then lines + [rest] else lines) == Lines(content)
  {
  }

  method SplitLines(content: string) returns (lines: seq<string>)
    ensures lines == Lines(content)
  {
    lines := [];
    var rest := content;
    while true
      invariant SplitSoFar(lines, rest, content)
      decreases |rest|
    {
      var idx := IndexOfNewline(rest);
      if idx == -1 {
        LastLine(lines, rest, content);
        if rest != "" {
          lines := lines + [rest];
        }
        return;
      }
      OneLineMore(lines, rest, content);
      lines := lines + [rest[..idx + 1]];
      rest := rest[idx + 1..];
    }
  }

  /** Byte offset of the boundary after the first k lines. */
  function Offset(lines: seq<string>, k: nat): nat
    requires k <= |lines|
  {
    if k == 0 then 0 else Offset(lines, k - 1) + |lines[k - 1]|
  }

  /** The cut as a line number, and as the byte offset FindSafeCut returns. */
  function CutIndex(content: string): (k: nat)
    ensures k <= |Lines(content)|
  {
    LineCut(Kinds(Lines(content)))
  }

  function SafeCut(content: string): nat {
    Offset(Lines(content), CutIndex(content))
  }

  lemma ScanStep(kinds: seq<Kind>, i: nat)
    requires i < |kinds|
    ensures StateOf(kinds[..i + 1]) == Next(StateOf(kinds[..i]), kinds[i])
    ensures LineCut(kinds[..i + 1]) == CutAfter(StateOf(kinds[..i]), kinds[i], i, LineCut(kinds[..i]))
  {
    assert kinds[..i + 1][..i] == kinds[..i];
  }

  lemma {:induction false} OffsetGrows(lines: seq<string>, k: nat)
    requires k <= |lines| && forall i | 0 <= i < |lines| :: lines[i] != ""
    ensures k > 0 <==> Offset(lines, k) > 0
  {
  }

  /** The offset of the cut after a line that goes from lineStart to lineEnd. */
  function OffsetAfter(st: State, kind: Kind, lineStart: nat, lineEnd: nat, last: nat): nat {
    if kind == Fence then (if st.code then lineEnd else if lineStart > 0 then lineStart else last)
    else if st.code then last
    else match kind
      case Row => if !st.table && lineStart > 0 then lineStart else last
      case Open => if !st.html && lineStart > 0 then lineStart else last
      case OpenClose => lineEnd
      case Close => lineEnd
      case Plain => if st.html then last else lineEnd
  }

  /** In front of line i: where it starts, the flags, and the last safe offset. */
  predicate ScanAt(lines: seq<string>, kinds: seq<Kind>, i: nat, lineStart: nat, st: State, last: nat)
    requires i <= |lines| == |kinds|
  {
    lineStart == Offset(lines, i) && st == StateOf(kinds[..i]) && last == Offset(lines, LineCut(kinds[..i]))
  }

  lemma ScanAdvances(lines: seq<string>, kinds: seq<Kind>, i: nat, lineStart: nat, st: State, last: nat)
    requires i < |lines| == |kinds| && forall k | 0 <= k < |lines| :: lines[k] != ""
    requires ScanAt(lines, kinds, i, lineStart, st, last)
    ensures var lineEnd := lineStart + |lines[i]|;
            ScanAt(lines, kinds, i + 1, lineEnd, Next(st, kinds[i]),
                   OffsetAfter(st, kinds[i], lineStart, lineEnd, last))
  {
    OffsetsAdvance(lines, kinds, i);
  }

  lemma OffsetsAdvance(lines: seq<string>, kinds: seq<Kind>, i: nat)
    requires i < |lines| == |kinds| && forall k | 0 <= k < |lines| :: lines[k] != ""
    ensures var st, lineStart := StateOf(kinds[..i]), Offset(lines, i);
            && Offset(lines, i + 1) == lineStart + |lines[i]| && StateOf(kinds[..i + 1]) == Next(st, kinds[i])
            && LineCut(kinds[..i + 1]) <= |lines|
            && Offset(lines, LineCut(kinds[..i + 1]))
               == OffsetAfter(st, kinds[i], lineStart, lineStart + |lines[i]|, Offset(lines, LineCut(kinds[..i])))
  {
    ScanStep(kinds, i);
    OffsetGrows(lines, i);
  }

  /** The body of FindSafeCut's loop, for one line: the new flags and last safe offset. */
  method ScanLine(line: string, lineStart: nat, inCodeBlock: bool, inTable: bool, inHtmlBlock: bool,
                  lastSafeOffset: nat)
    returns (code: bool, table: bool, html: bool, last: nat)
    ensures var st, kind := State(inCodeBlock, inTable, inHtmlBlock), KindOf(line);
            && State(code, table, html) == Next(st, kind)
            && last == OffsetAfter(st, kind, lineStart, lineStart + |line|, lastSafeOffset)
  {
    code, table, html, last := inCodeBlock, inTable, inHtmlBlock, lastSafeOffset;
    var lineEnd := lineStart + |line|;
    var trimmed := TrimSpace(line);
    var fence := IsCodeFence(trimmed);
    if fence {
      if code {
        code := false;
        last := lineEnd;
      } else {
        if lineStart > 0 { last := lineStart; }
        code := true;
      }
      return;
    }
    if code { return; }
    if IsTableRow(trimmed) {
      if !table {
        if lineStart > 0 { last := lineStart; }
        table := true;
      }
      return;
    }
    table := false;
    if StartsHtmlBlock(trimmed) {
      if !html && lineStart > 0 { last := lineStart; }
      html := true;
      if EndsHtmlBlock(trimmed) {
        html := false;
        last := lineEnd;
      }
      return;
    }
    if html {
      if EndsHtmlBlock(trimmed) {
        html := false;
        last := lineEnd;
      }
      return;
    }
    last := lineEnd;
  }

  method FindSafeCut(content: string) returns (cut: nat)
    ensures cut == SafeCut(content)
  {
    if content == "" { return 0; }
    var inCodeBlock, inTable, inHtmlBlock := false, false, false;
    var lastSafeOffset: nat := 0;
    var lines := SplitLines(content);
    ghost var kinds := Kinds(lines);
    var offset: nat := 0;
    for i := 0 to |lines|
      invariant ScanAt(lines, kinds, i, offset, State(inCodeBlock, inTable, inHtmlBlock), lastSafeOffset)
    {
      ScanAdvances(lines, kinds, i, offset, State(inCodeBlock, inTable, inHtmlBlock), lastSafeOffset);
      inCodeBlock, inTable, inHtmlBlock, lastSafeOffset :=
        ScanLine(lines[i], offset, inCodeBlock, inTable, inHtmlBlock, lastSafeOffset);
      offset := offset + |lines[i]|;
    }
    assert kinds[..|lines|] == kinds;
    return lastSafeOffset;
  }
}
