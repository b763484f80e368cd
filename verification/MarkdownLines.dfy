/** internal/markdown/boundary.go, its lines read off their bytes: which are fences, which are
    rows, which open and which close an HTML block, and what that means for the cut of a text. */
module MarkdownLines {
  import opened Text
  import opened Markdown
  import opened MarkdownCuts
  import opened MarkdownGrowth

  // ----- trimmed lines --------------------------------------------------------------------

  /** Only white space before byte p. */
  predicate BlankBefore(s: string, p: int)
    requires 0 <= p <= |s|
  {
    forall i | 0 <= i < p :: IsSpace(s[i])
  }

  predicate BlankFrom(s: string, q: int)
    requires 0 <= q <= |s|
  {
    forall i | q <= i < |s| :: IsSpace(s[i])
  }

  /** The trimmed text stands from p to q. */
  predicate TrimmedAt(s: string, p: nat, q: nat) {
    && p <= q <= |s| && BlankBefore(s, p) && BlankFrom(s, q) && TrimSpace(s) == s[p..q]
    && (p < q ==> !IsSpace(s[p]) && !IsSpace(s[q - 1]))
  }

  lemma {:induction false} LeftTrimmed(s: string) returns (p: nat)
    ensures p <= |s| && BlankBefore(s, p) && TrimLeft(s) == s[p..]
  {
    if s != "" && IsSpace(s[0]) {
      p := LeftTrimmed(s[1..]);
      assert forall i | 0 < i < p + 1 :: s[i] == s[1..][i - 1];
      p := p + 1;
    } else {
      p := 0;
    }
  }

  lemma {:induction false} RightTrimmed(s: string)
    ensures BlankFrom(s, |TrimRight(s)|)
  {
    if s != "" && IsSpace(s[|s| - 1]) {
      var init := s[..|s| - 1];
      RightTrimmed(init);
      assert forall i | 0 <= i < |init| :: init[i] == s[i];
    }
  }

  lemma TrimPlace(s: string) returns (p: nat, q: nat)
    ensures TrimmedAt(s, p, q)
  {
    p := LeftTrimmed(s);
    var t := s[p..];
    RightTrimmed(t);
    q := p + |TrimRight(t)|;
    assert forall i | q <= i < |s| :: s[i] == t[i - p];
    assert s[p..q] == t[..|TrimRight(t)|];
  }

  // ----- one line --------------------------------------------------------------------------

  /** Three equal backticks or tildes, white space before them aside. */
  predicate FenceAt(line: string, p: int) {
    && 0 <= p <= |line| - 3 && BlankBefore(line, p)
    && (line[p] == '`' || line[p] == '~') && line[p + 1] == line[p] && line[p + 2] == line[p]
  }

  /** A bar, at least one more byte, and a bar, white space around them aside. */
  predicate RowAt(line: string, p: int, q: int) {
    && 0 <= p && p + 2 <= q < |line| && BlankBefore(line, p) && BlankFrom(line, q + 1)
    && line[p] == '|' && line[q] == '|'
  }

  /** A less-than sign, white space before it aside, and right after it a block name in any case;
      whatever follows the name. */
  predicate OpensAt(line: string, p: int, k: int) {
    && 0 <= p < |line| && BlankBefore(line, p) && line[p] == '<'
    && 0 <= k < |BLOCK_NAMES| && ReadsAt(line, p + 1, BLOCK_NAMES[k])
  }

  /** The closing tag of a block name in any case. */
  predicate ClosesAt(line: string, p: int, k: int) {
    0 <= k < |BLOCK_NAMES| && ReadsAt(line, p, "</" + BLOCK_NAMES[k] + ">")
  }

  ghost predicate IsFenceLine(line: string) {
    exists p :: FenceAt(line, p)
  }

  ghost predicate IsRowLine(line: string) {
    exists p, q :: RowAt(line, p, q)
  }

  ghost predicate Opens(line: string) {
    exists p, k :: OpensAt(line, p, k)
  }

  ghost predicate Closes(line: string) {
    exists p, k :: ClosesAt(line, p, k)
  }

  lemma FenceIff(line: string, p: nat, q: nat)
    requires TrimmedAt(line, p, q)
    ensures IsFence(line[p..q]) <==> IsFenceLine(line)
  {
    if IsFence(line[p..q]) {
      assert FenceAt(line, p);
    }
    if i :| FenceAt(line, i) {
      assert i == p;
      assert !IsSpace(line[i + 2]);
    }
  }

  lemma RowIff(line: string, p: nat, q: nat)
    requires TrimmedAt(line, p, q)
    ensures IsTableRow(line[p..q]) <==> IsRowLine(line)
  {
    TableRowMeaning(line[p..q]);
    if IsTableRow(line[p..q]) {
      assert RowAt(line, p, q - 1);
    }
    if i, j :| RowAt(line, i, j) {
      assert i == p;
      assert j == q - 1;
    }
  }

  lemma LowerNames(k: nat)
    requires k < |BLOCK_NAMES|
    ensures Lower(BLOCK_NAMES[k])
  {
    if k < 9 { LowerNamesOne(k); } else { LowerNamesTwo(k); }
  }

  lemma LowerNamesOne(k: nat)
    requires k < 9
    ensures Lower(BLOCK_NAMES[k])
  {
  }

  lemma LowerNamesTwo(k: nat)
    requires 9 <= k < |BLOCK_NAMES|
    ensures Lower(BLOCK_NAMES[k])
  {
  }

  lemma StartsIff(t: string)
    requires t != "" ==> !IsSpace(t[0])
    ensures StartsHtmlBlock(t) <==> Opens(t)
  {
    forall k | 0 <= k < |BLOCK_NAMES|
      ensures "<" + BLOCK_NAMES[k] <= ToLower(t) <==> t != "" && t[0] == '<' && ReadsAt(t, 1, BLOCK_NAMES[k])
    {
      StartsWith(t, k);
    }
    if StartsHtmlBlock(t) {
      var k :| 0 <= k < |BLOCK_NAMES| && "<" + BLOCK_NAMES[k] <= ToLower(t);
      assert OpensAt(t, 0, k);
    }
    if p, k :| OpensAt(t, p, k) {
      assert p == 0;
      NameNotEmpty(k);
    }
  }

  lemma NameNotEmpty(k: nat)
    requires k < |BLOCK_NAMES|
    ensures BLOCK_NAMES[k] != ""
  {
  }

  lemma StartsWith(t: string, k: nat)
    requires k < |BLOCK_NAMES|
    ensures "<" + BLOCK_NAMES[k] <= ToLower(t) <==> t != "" && t[0] == '<' && ReadsAt(t, 1, BLOCK_NAMES[k])
  {
    var name := BLOCK_NAMES[k];
    LowerNames(k);
    LowerReads(t, 0, "<" + name);
    assert ToLower(t)[0..] == ToLower(t);
    OneLonger(t, name);
  }

  lemma OneLonger(t: string, name: string)
    ensures ReadsAt(t, 0, "<" + name) <==> t != "" && t[0] == '<' && ReadsAt(t, 1, name)
  {
    var text := "<" + name;
    if ReadsAt(t, 0, text) {
      assert SameLetter(t[0 + 0], text[0]);
      forall j | 0 <= j < |name| ensures SameLetter(t[1 + j], name[j]) {
        assert SameLetter(t[0 + (j + 1)], text[j + 1]);
      }
    }
  }

  lemma EndsIff(t: string)
    ensures EndsHtmlBlock(t) <==> Closes(t)
  {
    forall k, i: nat | 0 <= k < |BLOCK_NAMES| && i <= |t|
      ensures "</" + BLOCK_NAMES[k] + ">" <= ToLower(t)[i..] <==> ClosesAt(t, i, k)
    {
      TagAt(t, i, k);
    }
    if EndsHtmlBlock(t) {
      var k :| 0 <= k < |BLOCK_NAMES| && Contains(ToLower(t), "</" + BLOCK_NAMES[k] + ">");
      var i :| 0 <= i <= |t| && "</" + BLOCK_NAMES[k] + ">" <= ToLower(t)[i..];
      assert ClosesAt(t, i, k);
    }
    if i, k :| ClosesAt(t, i, k) {
      NameNotEmpty(k);
      assert "</" + BLOCK_NAMES[k] + ">" <= ToLower(t)[i..];
    }
  }

  lemma TagAt(t: string, i: nat, k: nat)
    requires k < |BLOCK_NAMES| && i <= |t|
    ensures "</" + BLOCK_NAMES[k] + ">" <= ToLower(t)[i..] <==> ClosesAt(t, i, k)
  {
    LowerNames(k);
    LowerReads(t, i, "</" + BLOCK_NAMES[k] + ">");
  }

  lemma OpensWithin(line: string, p: nat, q: nat)
    requires TrimmedAt(line, p, q)
    ensures Opens(line[p..q]) <==> Opens(line)
  {
    var t := line[p..q];
    if i, k :| OpensAt(t, i, k) {
      assert i == 0;
      ReadsWithin(line, p, q, 1, BLOCK_NAMES[k]);
      assert OpensAt(line, p, k);
    }
    if i, k :| OpensAt(line, i, k) {
      assert i == p;
      LastNotSpace(line, p + 1, BLOCK_NAMES[k], k);
      ReadsWithin(line, p, q, 1, BLOCK_NAMES[k]);
      assert OpensAt(t, 0, k);
    }
  }

  lemma LastNotSpace(line: string, i: nat, text: string, k: nat)
    requires k < |BLOCK_NAMES| && text == BLOCK_NAMES[k] && ReadsAt(line, i, text)
    ensures text != "" && !IsSpace(line[i + |text| - 1])
  {
    NameNotEmpty(k);
    NameLetters(k);
    assert SameLetter(line[i + (|text| - 1)], text[|text| - 1]);
  }

  lemma NameLetters(k: nat)
    requires k < |BLOCK_NAMES|
    ensures BLOCK_NAMES[k] != "" && 'a' <= BLOCK_NAMES[k][|BLOCK_NAMES[k]| - 1] <= 'z'
  {
  }

  lemma ReadsWithin(line: string, p: nat, q: nat, i: int, text: string)
    requires p <= q <= |line| && 0 <= i
    ensures ReadsAt(line[p..q], i, text) <==> ReadsAt(line, p + i, text) && p + i + |text| <= q
  {
    var t := line[p..q];
    if ReadsAt(t, i, text) {
      forall j | 0 <= j < |text| ensures SameLetter(line[p + i + j], text[j]) {
        assert t[i + j] == line[p + i + j];
      }
    }
    if ReadsAt(line, p + i, text) && p + i + |text| <= q {
      forall j | 0 <= j < |text| ensures SameLetter(t[i + j], text[j]) {
        assert t[i + j] == line[p + i + j];
      }
    }
  }

  lemma ClosesWithin(line: string, p: nat, q: nat)
    requires TrimmedAt(line, p, q)
    ensures Closes(line[p..q]) <==> Closes(line)
  {
    if i, k :| ClosesAt(line[p..q], i, k) {
      ReadsWithin(line, p, q, i, "</" + BLOCK_NAMES[k] + ">");
      assert ClosesAt(line, p + i, k);
    }
    if i, k :| ClosesAt(line, i, k) {
      var text := "</" + BLOCK_NAMES[k] + ">";
      assert SameLetter(line[i + 0], text[0]) && SameLetter(line[i + (|text| - 1)], text[|text| - 1]);
      ReadsWithin(line, p, q, i - p, text);
      assert ClosesAt(line[p..q], i - p, k);
    }
  }

  /** The kind of every line, read off its bytes. */
  lemma KindMeaning(line: string)
    ensures KindOf(line) ==
            if IsFenceLine(line) then Fence
            else if IsRowLine(line) then Row
            else if Opens(line) then (if Closes(line) then OpenClose else Open)
            else if Closes(line) then Close
            else Plain
  {
    var p, q := TrimPlace(line);
    FenceIff(line, p, q);
    RowIff(line, p, q);
    StartsIff(line[p..q]);
    EndsIff(line[p..q]);
    OpensWithin(line, p, q);
    ClosesWithin(line, p, q);
  }

  /** A line that opens a block is neither a fence nor a row. */
  lemma OpeningIsNoOther(line: string)
    requires Opens(line)
    ensures !IsFenceLine(line) && !IsRowLine(line)
  {
    var p, k :| OpensAt(line, p, k);
    forall i ensures !FenceAt(line, i) {
      assert FenceAt(line, i) ==> i == p;
    }
    forall i, j ensures !RowAt(line, i, j) {
      assert RowAt(line, i, j) ==> i == p;
    }
  }

  // ----- the cut of a text -----------------------------------------------------------------

  /** No cut in a text, on its lines: it is empty, or its first line is its only fence, or all its
      lines are rows, or its first line opens an HTML block and no line closes one or is a fence
      or a row. */
  lemma NoCutIff(content: string)
    ensures var lines := Lines(content);
            SafeCut(content) == 0 <==>
            || lines == []
            || (IsFenceLine(lines[0]) && forall i | 0 < i < |lines| :: !IsFenceLine(lines[i]))
            || (forall i | 0 <= i < |lines| :: IsRowLine(lines[i]))
            || (Opens(lines[0]) && forall i | 0 <= i < |lines| :: StaysInHtml(lines[i]))
  {
    var lines := Lines(content);
    OffsetGrows(lines, CutIndex(content));
    NothingSafeIff(Kinds(lines));
    forall i | 0 <= i < |lines|
      ensures Kinds(lines)[i] == Fence <==> IsFenceLine(lines[i])
      ensures Kinds(lines)[i] == Row <==> IsRowLine(lines[i])
      ensures Kinds(lines)[i] == Open <==> Opens(lines[i]) && StaysInHtml(lines[i])
      ensures Kinds(lines)[i] == Open || Kinds(lines)[i] == Plain <==> StaysInHtml(lines[i])
    {
      KindTests(lines[i]);
    }
    UnfinishedLines(lines, Kinds(lines));
  }

  /** Neither a fence nor a row, and closing nothing. */
  ghost predicate StaysInHtml(line: string) {
    !IsFenceLine(line) && !IsRowLine(line) && !Closes(line)
  }

  lemma FenceIsNoRow(line: string)
    ensures !(IsFenceLine(line) && IsRowLine(line))
  {
    if i :| FenceAt(line, i) {
      forall p, q ensures !RowAt(line, p, q) {
        assert RowAt(line, p, q) ==> i == p;
      }
    }
  }

  lemma KindTests(line: string)
    ensures KindOf(line) == Fence <==> IsFenceLine(line)
    ensures KindOf(line) == Row <==> IsRowLine(line)
    ensures KindOf(line) == Open <==> Opens(line) && StaysInHtml(line)
    ensures KindOf(line) == Open || KindOf(line) == Plain <==> StaysInHtml(line)
  {
    KindMeaning(line);
    FenceIsNoRow(line);
  }

  lemma UnfinishedLines(lines: seq<string>, kinds: seq<Kind>)
    requires |kinds| == |lines|
    requires forall i | 0 <= i < |lines| :: kinds[i] == Fence <==> IsFenceLine(lines[i])
    requires forall i | 0 <= i < |lines| :: kinds[i] == Row <==> IsRowLine(lines[i])
    requires forall i | 0 <= i < |lines| :: kinds[i] == Open <==> Opens(lines[i]) && StaysInHtml(lines[i])
    requires forall i | 0 <= i < |lines| :: kinds[i] == Open || kinds[i] == Plain <==> StaysInHtml(lines[i])
    ensures Unfinished(kinds) <==>
            || lines == []
            || (IsFenceLine(lines[0]) && forall i | 0 < i < |lines| :: !IsFenceLine(lines[i]))
            || (forall i | 0 <= i < |lines| :: IsRowLine(lines[i]))
            || (Opens(lines[0]) && forall i | 0 <= i < |lines| :: StaysInHtml(lines[i]))
  {
  }

  /** A text in which no line is a fence, a row, or opens an HTML block is safe to the end. */
  lemma QuietTextIsSafe(content: string)
    requires forall i | 0 <= i < |Lines(content)| ::
               !IsFenceLine(Lines(content)[i]) && !IsRowLine(Lines(content)[i]) && !Opens(Lines(content)[i])
    ensures SafeCut(content) == |content|
  {
    var lines := Lines(content);
    forall i | 0 <= i < |lines| ensures Kinds(lines)[i] == Plain || Kinds(lines)[i] == Close {
      KindMeaning(lines[i]);
    }
    QuietKindsAreSafe(Kinds(lines));
    WholeOffset(lines);
    LinesConcat(content);
  }

  lemma {:induction false} QuietKindsAreSafe(kinds: seq<Kind>)
    requires forall i | 0 <= i < |kinds| :: kinds[i] == Plain || kinds[i] == Close
    ensures LineCut(kinds) == |kinds| && StateOf(kinds) == State(false, false, false)
  {
    if kinds != [] {
      QuietKindsAreSafe(kinds[..|kinds| - 1]);
    }
  }

  /** Every block name, whatever follows it: it opens a block, and its closing tag closes one. */
  lemma EveryBlockName(name: string, tail: string)
    requires name in {"div", "table", "pre", "blockquote", "ul", "ol", "dl", "figure", "section", "article",
                      "aside", "header", "footer", "nav", "main", "form", "fieldset", "details"}
    ensures '/' !in tail ==> KindOf("<" + name + tail) == Open
    ensures KindOf("</" + name + ">" + tail) == Close
  {
    var k := NameIndex(name);
    NameOpens(name, tail, k);
    NameCloses(name, tail, k);
  }

  lemma NameOpens(name: string, tail: string, k: nat)
    requires k < |BLOCK_NAMES| && BLOCK_NAMES[k] == name && '/' !in name
    ensures '/' !in tail ==> KindOf("<" + name + tail) == Open
  {
    var line := "<" + name + tail;
    assert OpensAt(line, 0, k) by { HeadReads("<", name, tail); }
    KindMeaning(line);
    OpeningIsNoOther(line);
    if '/' !in tail {
      assert '/' !in line;
      NoSlashClosesNothing(line);
    }
  }

  lemma HeadReads(before: string, name: string, tail: string)
    ensures ReadsAt(before + name + tail, |before|, name)
  {
  }

  lemma NoSlashClosesNothing(line: string)
    requires '/' !in line
    ensures !Closes(line)
  {
    forall p, j ensures !ClosesAt(line, p, j) {
      NoClosingTag(line, p, j);
    }
  }

  lemma NameCloses(name: string, tail: string, k: nat)
    requires k < |BLOCK_NAMES| && BLOCK_NAMES[k] == name
    ensures KindOf("</" + name + ">" + tail) == Close
  {
    var line := "</" + name + ">" + tail;
    KindMeaning(line);
    assert ClosesAt(line, 0, k);
    ClosingIsNoOther(line);
  }

  lemma NameIndex(name: string) returns (k: nat)
    requires name in {"div", "table", "pre", "blockquote", "ul", "ol", "dl", "figure", "section", "article",
                      "aside", "header", "footer", "nav", "main", "form", "fieldset", "details"}
    ensures k < |BLOCK_NAMES| && BLOCK_NAMES[k] == name && '/' !in name
  {
    assert name in BLOCK_NAMES;
    k :| 0 <= k < |BLOCK_NAMES| && BLOCK_NAMES[k] == name;
  }

  lemma NoClosingTag(line: string, p: int, k: int)
    requires '/' !in line
    ensures !ClosesAt(line, p, k)
  {
    assert ClosesAt(line, p, k) ==> SameLetter(line[p + 1], ("</" + BLOCK_NAMES[k] + ">")[1]);
  }

  lemma FirstLetter(k: nat)
    requires k < |BLOCK_NAMES|
    ensures BLOCK_NAMES[k] != "" && 'a' <= BLOCK_NAMES[k][0] <= 'z'
  {
  }

  lemma ClosingIsNoOther(line: string)
    requires |line| >= 2 && line[0] == '<' && line[1] == '/'
    ensures !IsFenceLine(line) && !IsRowLine(line) && !Opens(line)
  {
    forall i ensures !FenceAt(line, i) {
      assert i > 0 ==> !IsSpace(line[0]);
    }
    forall i, j ensures !RowAt(line, i, j) {
      assert i > 0 ==> !IsSpace(line[0]);
    }
    forall p, k ensures !OpensAt(line, p, k) {
      SlashOpensNothing(line, p, k);
    }
  }

  lemma SlashOpensNothing(line: string, p: int, k: int)
    requires |line| >= 2 && line[0] == '<' && line[1] == '/'
    ensures !OpensAt(line, p, k)
  {
    if p == 0 && 0 <= k < |BLOCK_NAMES| {
      FirstLetter(k);
      assert !SameLetter(line[1], BLOCK_NAMES[k][0]);
    } else {
      assert p > 0 ==> !IsSpace(line[0]);
    }
  }

  /** An open block is held, whatever attributes its tag has, and the plain line after it too. */
  lemma OpenBlockIsHeld(name: string, attributes: string, more: string)
    requires name in {"div", "table", "pre", "blockquote", "ul", "ol", "dl", "figure", "section", "article",
                      "aside", "header", "footer", "nav", "main", "form", "fieldset", "details"}
    requires '/' !in attributes && '\n' !in attributes
    requires more != "" && '\n' !in more[..|more| - 1] && KindOf(more) == Plain
    ensures SafeCut(("<" + name + (attributes + "\n")) + more) == 0
  {
    var k := NameIndex(name);
    EveryBlockName(name, attributes + "\n");
    NoNewlineInName(k);
    OneWholeLine("<" + name + attributes);
    assert "<" + name + attributes + "\n" == "<" + name + (attributes + "\n");
    OpenThenPlain("<" + name + (attributes + "\n"), more);
  }

  lemma NoNewlineInName(k: nat)
    requires k < |BLOCK_NAMES|
    ensures '\n' !in BLOCK_NAMES[k]
  {
  }

  lemma OneWholeLine(head: string)
    requires '\n' !in head
    ensures var line := head + "\n"; line != "" && '\n' !in line[..|line| - 1] && line[|line| - 1] == '\n'
  {
    assert (head + "\n")[..|head|] == head;
  }

  lemma OpenThenPlain(first: string, second: string)
    requires KindOf(first) == Open && KindOf(second) == Plain
    requires first != "" && '\n' !in first[..|first| - 1] && first[|first| - 1] == '\n'
    requires second != "" && '\n' !in second[..|second| - 1]
    ensures SafeCut(first + second) == 0
  {
    TwoLines(first, second);
    KindTests(first);
    KindTests(second);
    NoCutIff(first + second);
  }
}
