/** Properties of FindSafeCut: where a cut may fall, when it stays out of HTML blocks, and
    when the part after a cut is held together by the next scan. */
module MarkdownCuts {
  import opened Text
  import opened Markdown

  // ----- where a cut falls -----------------------------------------------------------------

  function FenceCount(kinds: seq<Kind>): nat {
    if kinds == [] then 0
    else FenceCount(kinds[..|kinds| - 1]) + (if kinds[|kinds| - 1] == Fence then 1 else 0)
  }

  /** Inside a code block: an odd number of fences so far. */
  predicate InCode(kinds: seq<Kind>) {
    FenceCount(kinds) % 2 == 1
  }

  /** Inside an HTML block: an opening line, outside code, not closed since. */
  predicate InHtml(kinds: seq<Kind>) {
    if kinds == [] then false
    else
      var before, last := kinds[..|kinds| - 1], kinds[|kinds| - 1];
      if InCode(before) then InHtml(before)
      else match last
        case Open => true
        case OpenClose | Close => false
        case Fence | Row | Plain => InHtml(before)
  }

  lemma {:induction false} StateMeaning(kinds: seq<Kind>)
    ensures StateOf(kinds).code == InCode(kinds)
    ensures StateOf(kinds).html == InHtml(kinds)
  {
    if kinds != [] { StateMeaning(kinds[..|kinds| - 1]); }
  }

  /** The prefix is outside code, and the lines on both sides are not both table rows. */
  predicate SafeAt(kinds: seq<Kind>, c: nat)
    requires c <= |kinds|
  {
    && !InCode(kinds[..c])
    && (0 < c < |kinds| ==> !(kinds[c - 1] == Row && kinds[c] == Row))
  }

  /** Every cut is safe: it never falls inside a code block nor between two table rows. */
  lemma {:induction false} CutIsSafe(kinds: seq<Kind>)
    ensures SafeAt(kinds, LineCut(kinds))
  {
    if kinds != [] {
      var n := |kinds| - 1;
      var before := kinds[..n];
      var c := LineCut(kinds);
      CutIsSafe(before);
      StateMeaning(before);
      StateMeaning(kinds);
      if c == n + 1 {
        assert kinds[..c] == kinds;
      } else {
        assert kinds[..c] == before[..c];
        if c == n {
          assert before[..c] == before;
          if n > 0 {
            assert before[n - 1] == kinds[n - 1];
          }
        }
      }
    }
  }

  /** FindSafeCut returns a line boundary (0 and the length included) with an even number of
      fence lines in front of it and not two table rows around it. */
  lemma CutOnSafeLineBoundary(content: string)
    ensures var lines, k := Lines(content), CutIndex(content);
            && Concat(lines) == content
            && SafeCut(content) <= |content|
            && content[..SafeCut(content)] == Concat(lines[..k])
            && content[SafeCut(content)..] == Concat(lines[k..])
            && FenceCount(Kinds(lines)[..k]) % 2 == 0
            && (0 < k < |lines| ==> !(IsTableRow(TrimSpace(lines[k - 1])) && IsTableRow(TrimSpace(lines[k]))))
  {
    var lines, k := Lines(content), CutIndex(content);
    LinesConcat(content);
    ConcatSplit(lines, k);
    CutIsSafe(Kinds(lines));
    if 0 < k < |lines| {
      RowMeaning(lines[k - 1]);
      RowMeaning(lines[k]);
    }
  }

  lemma RowMeaning(line: string)
    ensures KindOf(line) == Row <==> IsTableRow(TrimSpace(line))
  {
  }

  lemma {:induction false} LinesConcat(s: string)
    ensures Concat(Lines(s)) == s
    decreases |s|
  {
    var idx := IndexOfNewline(s);
    if s != "" {
      if idx == -1 {
        assert [s][1..] == [];
      } else {
        LinesConcat(s[idx + 1..]);
        ConcatHead(s[..idx + 1], Lines(s[idx + 1..]));
        CutAndJoin(s, idx + 1);
      }
    }
  }

  lemma CutAndJoin(s: string, n: nat)
    requires n <= |s|
    ensures s[..n] + s[n..] == s
  {
  }

  lemma ConcatHead(line: string, lines: seq<string>)
    ensures Concat([line] + lines) == line + Concat(lines)
  {
    assert ([line] + lines)[1..] == lines;
  }

  /** Line k ends with its only newline; only the last may have none. */
  predicate Shaped(lines: seq<string>, k: nat)
    requires k < |lines| && lines[k] != ""
  {
    var line := lines[k];
    && '\n' !in line[..|line| - 1]
    && (k < |lines| - 1 ==> line[|line| - 1] == '\n')
  }

  /** Every line but the last ends with its only newline; the last may have none. */
  lemma {:induction false} LineShape(s: string, k: nat)
    requires k < |Lines(s)|
    ensures Shaped(Lines(s), k)
    decreases |s|
  {
    var idx := IndexOfNewline(s);
    if idx != -1 {
      var rest := Lines(s[idx + 1..]);
      if k == 0 {
        HeadShaped(s, idx, rest);
      } else {
        LineShape(s[idx + 1..], k - 1);
        TailShaped(s[..idx + 1], rest, k);
      }
    }
  }

  lemma HeadShaped(s: string, idx: nat, rest: seq<string>)
    requires idx < |s| && s[idx] == '\n' && '\n' !in s[..idx]
    ensures Shaped([s[..idx + 1]] + rest, 0)
  {
    assert s[..idx + 1][..idx] == s[..idx];
  }

  lemma TailShaped(line: string, rest: seq<string>, k: nat)
    requires 0 < k <= |rest| && rest[k - 1] != "" && Shaped(rest, k - 1)
    ensures Shaped([line] + rest, k)
  {
    assert ([line] + rest)[k] == rest[k - 1];
  }

  lemma {:induction false} ConcatSplit(lines: seq<string>, k: nat)
    requires k <= |lines|
    ensures Offset(lines, k) <= |Concat(lines)|
    ensures Concat(lines)[..Offset(lines, k)] == Concat(lines[..k])
    ensures Concat(lines)[Offset(lines, k)..] == Concat(lines[k..])
  {
    ConcatAppend(lines[..k], lines[k..]);
    assert lines[..k] + lines[k..] == lines;
    OffsetIsLength(lines, k);
  }

  lemma {:induction false} ConcatAppend(a: seq<string>, b: seq<string>)
    ensures Concat(a + b) == Concat(a) + Concat(b)
  {
    if a == [] {
      assert a + b == b;
    } else {
      ConcatAppend(a[1..], b);
      assert (a + b)[1..] == a[1..] + b && (a + b)[0] == a[0];
      Regroup(a[0], Concat(a[1..]), Concat(b));
    }
  }

  lemma Regroup<T>(a: seq<T>, b: seq<T>, c: seq<T>)
    ensures (a + b) + c == a + (b + c)
  {
  }

  lemma {:induction false} OffsetIsLength(lines: seq<string>, k: nat)
    requires k <= |lines|
    ensures Offset(lines, k) == |Concat(lines[..k])|
  {
    if k > 0 {
      OffsetIsLength(lines, k - 1);
      ConcatAppend(lines[..k - 1], [lines[k - 1]]);
      assert lines[..k] == lines[..k - 1] + [lines[k - 1]];
    }
  }

  // ----- HTML blocks -------------------------------------------------------------------------

  /** Line k, outside code, is a fence or a table row and stands inside an HTML block. */
  predicate StructureInHtmlAt(kinds: seq<Kind>, k: int) {
    0 <= k < |kinds| && (kinds[k] == Fence || kinds[k] == Row) && !InCode(kinds[..k]) && InHtml(kinds[..k])
  }

  ghost predicate NoStructureInHtml(kinds: seq<Kind>) {
    forall k :: !StructureInHtmlAt(kinds, k)
  }

  lemma NoStructurePrefix(kinds: seq<Kind>)
    requires kinds != []
    ensures NoStructureInHtml(kinds) <==>
            NoStructureInHtml(kinds[..|kinds| - 1]) && !StructureInHtmlAt(kinds, |kinds| - 1)
  {
    var n := |kinds| - 1;
    assert forall k | 0 <= k <= n :: kinds[..n][..k] == kinds[..k];
    assert forall k :: StructureInHtmlAt(kinds[..n], k) ==> StructureInHtmlAt(kinds, k);
    assert forall k | k < n :: StructureInHtmlAt(kinds, k) ==> StructureInHtmlAt(kinds[..n], k);
  }

  /** Without structure inside HTML the scan is never in a table while in an HTML block. */
  lemma {:induction false} HtmlIsNotTable(kinds: seq<Kind>)
    requires NoStructureInHtml(kinds)
    ensures StateOf(kinds).html ==> !StateOf(kinds).table
  {
    if kinds != [] {
      var n := |kinds| - 1;
      NoStructurePrefix(kinds);
      HtmlIsNotTable(kinds[..n]);
      StateMeaning(kinds[..n]);
    }
  }

  lemma {:induction false} CutOutsideHtml(kinds: seq<Kind>)
    requires NoStructureInHtml(kinds)
    ensures !InHtml(kinds[..LineCut(kinds)])
  {
    if kinds != [] {
      var n := |kinds| - 1;
      var c := LineCut(kinds);
      NoStructurePrefix(kinds);
      CutOutsideHtml(kinds[..n]);
      StateMeaning(kinds[..n]);
      StateMeaning(kinds);
      if c == n + 1 {
        assert kinds[..c] == kinds;
        InCodeKeepsHtml(kinds);
      } else {
        assert kinds[..c] == kinds[..n][..c];
        if c == n { assert kinds[..n][..n] == kinds[..n]; }
      }
    }
  }

  /** Without structure inside HTML, a code block is never inside an HTML block. */
  lemma {:induction false} InCodeKeepsHtml(kinds: seq<Kind>)
    requires NoStructureInHtml(kinds)
    ensures InCode(kinds) ==> !InHtml(kinds)
    ensures kinds != [] && LineCut(kinds) == |kinds| ==> !InHtml(kinds)
  {
    if kinds != [] {
      var n := |kinds| - 1;
      NoStructurePrefix(kinds);
      InCodeKeepsHtml(kinds[..n]);
      StateMeaning(kinds[..n]);
      assert LineCut(kinds[..n]) <= n;
    }
  }

  // ----- how far a cut reaches ------------------------------------------------------------------

  /** Ends outside code, its last line is not a table row, and it ends outside HTML or right
      after a fence. */
  predicate Finished(kinds: seq<Kind>)
    requires kinds != []
  {
    var last := kinds[|kinds| - 1];
    !InCode(kinds) && last != Row && (!InHtml(kinds) || last == Fence)
  }

  /** All the text is safe to send exactly when it is finished. */
  lemma EverythingSafeIff(kinds: seq<Kind>)
    requires kinds != []
    ensures LineCut(kinds) == |kinds| <==> Finished(kinds)
  {
    var n := |kinds| - 1;
    StateMeaning(kinds[..n]);
    StateMeaning(kinds);
    assert LineCut(kinds[..n]) <= n;
  }

  predicate AllRows(kinds: seq<Kind>) {
    forall i | 0 <= i < |kinds| :: kinds[i] == Row
  }

  /** One unfinished block: a code block not closed, rows only, or an HTML block of plain and
      opening lines only. */
  predicate Unfinished(kinds: seq<Kind>) {
    || kinds == []
    || OpenCode(kinds)
    || AllRows(kinds)
    || OpenHtml(kinds)
  }

  predicate OpenCode(kinds: seq<Kind>) {
    kinds != [] && kinds[0] == Fence && forall i | 0 < i < |kinds| :: kinds[i] != Fence
  }

  predicate OpenHtml(kinds: seq<Kind>) {
    kinds != [] && kinds[0] == Open && forall i | 0 < i < |kinds| :: kinds[i] == Open || kinds[i] == Plain
  }

  /** There is no cut at all exactly when the lines are one unfinished block. */
  lemma {:induction false} NothingSafeIff(kinds: seq<Kind>)
    ensures LineCut(kinds) == 0 <==> Unfinished(kinds)
    ensures OpenCode(kinds) ==> StateOf(kinds).code
    ensures kinds != [] && AllRows(kinds) ==> StateOf(kinds) == State(false, true, false)
    ensures OpenHtml(kinds) ==> StateOf(kinds) == State(false, false, true)
  {
    if |kinds| == 1 {
      assert kinds[..0] == [];
    } else if kinds != [] {
      var n := |kinds| - 1;
      NothingSafeIff(kinds[..n]);
      UnfinishedStep(kinds);
    }
  }

  lemma UnfinishedStep(kinds: seq<Kind>)
    requires |kinds| > 1
    ensures var before, last := kinds[..|kinds| - 1], kinds[|kinds| - 1];
            && (OpenCode(kinds) <==> OpenCode(before) && last != Fence)
            && (AllRows(kinds) <==> AllRows(before) && last == Row)
            && (OpenHtml(kinds) <==> OpenHtml(before) && (last == Open || last == Plain))
  {
    var before, last := kinds[..|kinds| - 1], kinds[|kinds| - 1];
    assert kinds == before + [last];
    OpenCodeStep(before, last);
    RowsStep(before, last);
    OpenHtmlStep(before, last);
  }

  lemma OpenCodeStep(before: seq<Kind>, last: Kind)
    requires before != []
    ensures OpenCode(before + [last]) <==> OpenCode(before) && last != Fence
  {
    assert forall i | 0 < i < |before| :: (before + [last])[i] == before[i];
    assert (before + [last])[|before|] == last;
  }

  lemma RowsStep(before: seq<Kind>, last: Kind)
    ensures AllRows(before + [last]) <==> AllRows(before) && last == Row
  {
    assert forall i | 0 <= i < |before| :: (before + [last])[i] == before[i];
    assert (before + [last])[|before|] == last;
  }

  lemma OpenHtmlStep(before: seq<Kind>, last: Kind)
    requires before != []
    ensures OpenHtml(before + [last]) <==> OpenHtml(before) && (last == Open || last == Plain)
  {
    assert forall i | 0 < i < |before| :: (before + [last])[i] == before[i];
    assert (before + [last])[|before|] == last;
  }

  /** More lines never move the cut back, and a moved cut is at the new line. */
  lemma CutAdvances(kinds: seq<Kind>, i: nat)
    requires i < |kinds|
    ensures LineCut(kinds[..i]) <= LineCut(kinds[..i + 1])
    ensures LineCut(kinds[..i + 1]) in {LineCut(kinds[..i]), i, i + 1}
  {
    ScanStep(kinds, i);
  }

  lemma {:induction false} CutMonotone(kinds: seq<Kind>, i: nat, j: nat)
    requires i <= j <= |kinds|
    ensures LineCut(kinds[..i]) <= LineCut(kinds[..j])
  {
    if i < j {
      CutMonotone(kinds, i, j - 1);
      CutAdvances(kinds, j - 1);
    }
  }

  // ----- the part after the cut ------------------------------------------------------------------

  /** The scan stands at a proper cut c of kinds: past line c nothing moved it any more. */
  predicate ProperCut(kinds: seq<Kind>, c: nat) {
    0 < c < |kinds| && LineCut(kinds) == c
  }

  /** After a proper cut, line d neither starts nor ends a safe stretch. */
  lemma QuietAfterCut(kinds: seq<Kind>, c: nat, d: nat)
    requires ProperCut(kinds, c) && c <= d < |kinds|
    ensures LineCut(kinds[..d + 1]) == c
    ensures c < d ==> LineCut(kinds[..d]) == c
  {
    assert kinds[..|kinds|] == kinds;
    CutMonotone(kinds, d + 1, |kinds|);
    CutMonotone(kinds, d, |kinds|);
    ReachesCut(kinds, c, d + 1);
    if c < d { ReachesCut(kinds, c, d); }
  }

  lemma {:induction false} ReachesCut(kinds: seq<Kind>, c: nat, d: nat)
    requires ProperCut(kinds, c) && c < d <= |kinds|
    ensures LineCut(kinds[..d]) == c
    decreases |kinds| - d
  {
    if d == |kinds| {
      assert kinds[..d] == kinds;
    } else {
      ReachesCut(kinds, c, d + 1);
      CutAdvances(kinds, d);
    }
  }

  /** Line c itself is outside code. */
  lemma CutOutsideCode(kinds: seq<Kind>, c: nat)
    requires ProperCut(kinds, c)
    ensures !StateOf(kinds[..c]).code
    ensures kinds[c] in {Fence, Open, Row} || (kinds[c] == Plain && StateOf(kinds[..c]).html)
    ensures kinds[c] == Open ==> !StateOf(kinds[..c + 1]).table
  {
    CutIsSafe(kinds);
    StateMeaning(kinds[..c]);
    QuietAfterCut(kinds, c, c);
    ScanStep(kinds, c);
  }

  /** The states at line d of the whole text and of the part after c. */
  lemma RemainderStep(kinds: seq<Kind>, c: nat, d: nat)
    requires c <= d < |kinds|
    ensures StateOf(kinds[..d + 1]) == Next(StateOf(kinds[..d]), kinds[d])
    ensures StateOf(kinds[c..d + 1]) == Next(StateOf(kinds[c..d]), kinds[d])
    ensures LineCut(kinds[..d + 1]) == CutAfter(StateOf(kinds[..d]), kinds[d], d, LineCut(kinds[..d]))
    ensures LineCut(kinds[c..d + 1]) == CutAfter(StateOf(kinds[c..d]), kinds[d], d - c, LineCut(kinds[c..d]))
  {
    ScanStep(kinds, d);
    ScanStep(kinds[c..], d - c);
    SliceOfSuffix(kinds, c, d);
    SliceOfSuffix(kinds, c, d + 1);
  }

  lemma SliceOfSuffix(kinds: seq<Kind>, c: nat, d: nat)
    requires c <= d <= |kinds|
    ensures kinds[c..][..d - c] == kinds[c..d]
  {
  }

  /** A remainder that begins with a fence is an unfinished code block. */
  lemma {:induction false} CodeRemainder(kinds: seq<Kind>, c: nat, d: nat)
    requires ProperCut(kinds, c) && kinds[c] == Fence && c < d <= |kinds|
    ensures StateOf(kinds[..d]).code && StateOf(kinds[c..d]).code && LineCut(kinds[c..d]) == 0
  {
    RemainderStep(kinds, c, d - 1);
    if d == c + 1 {
      CutOutsideCode(kinds, c);
      assert kinds[c..c] == [];
    } else {
      CodeRemainder(kinds, c, d - 1);
      QuietAfterCut(kinds, c, d - 1);
    }
  }

  /** A remainder that begins with an opening line is an unfinished HTML block. */
  lemma {:induction false} HtmlRemainder(kinds: seq<Kind>, c: nat, d: nat)
    requires ProperCut(kinds, c) && kinds[c] == Open && c < d <= |kinds|
    ensures StateOf(kinds[..d]) == State(false, false, true) == StateOf(kinds[c..d]) && LineCut(kinds[c..d]) == 0
  {
    RemainderStep(kinds, c, d - 1);
    if d == c + 1 {
      CutOutsideCode(kinds, c);
      assert kinds[c..c] == [];
    } else {
      HtmlRemainder(kinds, c, d - 1);
      QuietAfterCut(kinds, c, d - 1);
    }
  }

  /** While the remainder shows rows only, both scans are in a table. */
  lemma {:induction false} RowsRemainder(kinds: seq<Kind>, c: nat, d: nat)
    requires ProperCut(kinds, c) && c < d <= |kinds| && AllRows(kinds[c..d])
    ensures StateOf(kinds[..d]) == State(false, true, StateOf(kinds[..c]).html)
    ensures StateOf(kinds[c..d]) == State(false, true, false) && LineCut(kinds[c..d]) == 0
  {
    assert kinds[d - 1] == kinds[c..d][d - 1 - c];
    RemainderStep(kinds, c, d - 1);
    if d == c + 1 {
      CutOutsideCode(kinds, c);
      assert kinds[c..c] == [];
    } else {
      assert kinds[c..d][..d - 1 - c] == kinds[c..d - 1];
      RowsRemainder(kinds, c, d - 1);
    }
  }

  /** Outside HTML, a remainder that begins with a row is rows throughout. */
  lemma {:induction false} OnlyRows(kinds: seq<Kind>, c: nat, d: nat)
    requires ProperCut(kinds, c) && !StateOf(kinds[..c]).html && kinds[c] == Row && c < d <= |kinds|
    ensures AllRows(kinds[c..d])
  {
    if d == c + 1 {
      assert kinds[c..d] == [Row];
    } else {
      OnlyRows(kinds, c, d - 1);
      RowsRemainder(kinds, c, d - 1);
      NextIsRow(kinds, c, d);
      assert kinds[c..d] == kinds[c..d - 1] + [kinds[d - 1]];
    }
  }

  lemma NextIsRow(kinds: seq<Kind>, c: nat, d: nat)
    requires ProperCut(kinds, c) && c + 1 < d <= |kinds| && StateOf(kinds[..d - 1]) == State(false, true, false)
    ensures kinds[d - 1] == Row
  {
    ScanStep(kinds, d - 1);
    QuietAfterCut(kinds, c, d - 1);
  }

  /** Inside HTML, a remainder that begins with rows (or none) and then has another line is
      cut again by the next scan, which no longer knows of the HTML block. */
  lemma CutAgain(kinds: seq<Kind>, c: nat, d: nat)
    requires ProperCut(kinds, c) && StateOf(kinds[..c]).html
    requires c <= d < |kinds| && AllRows(kinds[c..d]) && kinds[d] != Row && (d == c ==> kinds[c] == Plain)
    ensures LineCut(kinds[c..]) > 0
  {
    CutAgainHere(kinds, c, d);
    CutMonotone(kinds[c..], d + 1 - c, |kinds| - c);
    assert kinds[c..][..d + 1 - c] == kinds[c..d + 1];
    assert kinds[c..][..|kinds| - c] == kinds[c..];
  }

  lemma CutAgainHere(kinds: seq<Kind>, c: nat, d: nat)
    requires ProperCut(kinds, c) && StateOf(kinds[..c]).html
    requires c <= d < |kinds| && AllRows(kinds[c..d]) && kinds[d] != Row && (d == c ==> kinds[c] == Plain)
    ensures LineCut(kinds[c..d + 1]) > 0
  {
    RemainderStep(kinds, c, d);
    QuietAfterCut(kinds, c, d);
    CutOutsideCode(kinds, c);
    if d > c {
      RowsRemainder(kinds, c, d);
    } else {
      assert kinds[c..c] == [];
    }
  }

  lemma CutAgainInHtml(kinds: seq<Kind>, c: nat)
    requires ProperCut(kinds, c) && StateOf(kinds[..c]).html
    requires (kinds[c] == Row || kinds[c] == Plain) && !AllRows(kinds[c..])
    ensures LineCut(kinds[c..]) > 0
  {
    var rest := kinds[c..];
    var j := FirstOther(rest);
    assert rest[..j] == kinds[c..c + j] && rest[j] == kinds[c + j];
    CutAgain(kinds, c, c + j);
  }

  lemma {:induction false} FirstOther(kinds: seq<Kind>) returns (j: nat)
    requires !AllRows(kinds)
    ensures j < |kinds| && kinds[j] != Row && AllRows(kinds[..j])
  {
    if kinds[0] != Row {
      j := 0;
    } else {
      assert forall i | 1 <= i < |kinds| :: kinds[i] == kinds[1..][i - 1];
      j := FirstOther(kinds[1..]);
      j := j + 1;
      forall i | 0 <= i < j ensures kinds[..j][i] == Row {
        if i > 0 { assert kinds[i] == kinds[1..][..j - 1][i - 1]; }
      }
    }
  }

  lemma HeldTogether(kinds: seq<Kind>, c: nat)
    requires ProperCut(kinds, c)
    requires !StateOf(kinds[..c]).html || kinds[c] == Fence || kinds[c] == Open || AllRows(kinds[c..])
    ensures LineCut(kinds[c..]) == 0
  {
    var n := |kinds|;
    assert kinds[c..n] == kinds[c..];
    if kinds[c] == Fence {
      CodeRemainder(kinds, c, n);
    } else if kinds[c] == Open {
      HtmlRemainder(kinds, c, n);
    } else {
      CutOutsideCode(kinds, c);
      if !StateOf(kinds[..c]).html { OnlyRows(kinds, c, n); }
      RowsRemainder(kinds, c, n);
    }
  }

  /** The remainder of a proper cut is left whole by the next scan exactly when the cut is
      outside HTML, or the remainder begins a fence or an HTML block, or it is rows only. */
  lemma RemainderFixpointIff(kinds: seq<Kind>, c: nat)
    requires ProperCut(kinds, c)
    ensures LineCut(kinds[c..]) == 0 <==>
            !InHtml(kinds[..c]) || kinds[c] == Fence || kinds[c] == Open || AllRows(kinds[c..])
  {
    StateMeaning(kinds[..c]);
    CutOutsideCode(kinds, c);
    if !StateOf(kinds[..c]).html || kinds[c] == Fence || kinds[c] == Open || AllRows(kinds[c..]) {
      HeldTogether(kinds, c);
    } else {
      CutAgainInHtml(kinds, c);
    }
  }

  lemma {:induction false} LinesDrop(s: string, k: nat)
    requires k <= |Lines(s)|
    ensures Lines(Concat(Lines(s)[k..])) == Lines(s)[k..]
    decreases |s|
  {
    LinesConcat(s);
    var lines := Lines(s);
    if k == 0 {
      assert lines[0..] == lines;
    } else {
      var idx := IndexOfNewline(s);
      if idx == -1 {
        assert lines[k..] == [];
      } else {
        LinesDrop(s[idx + 1..], k - 1);
        assert lines[k..] == Lines(s[idx + 1..])[k - 1..];
      }
    }
  }

  /** If no fence and no table row stands inside an HTML block, and in particular if no line
      opens one, then a remainder held back by a flush goes out whole with the next. */
  lemma RemainderSentWhole(content: string, sent: string, rest: string)
    requires NoStructureInHtml(Kinds(Lines(content)))
    requires content == sent + rest && |sent| == SafeCut(content) && sent != "" && rest != ""
    ensures SafeCut(rest) == 0
  {
    var lines, k := Lines(content), CutIndex(content);
    RestIsLines(content, lines, k, sent, rest);
    ProperOffset(lines, k, |Concat(lines)|);
    LinesHeld(content, lines, k);
  }

  lemma RestIsLines(content: string, lines: seq<string>, k: nat, sent: string, rest: string)
    requires lines == Lines(content) && k <= |lines| && content == sent + rest && |sent| == Offset(lines, k)
    ensures content == Concat(lines) && rest == Concat(lines[k..])
  {
    LinesConcat(content);
    ConcatSplit(lines, k);
    assert content[|sent|..] == rest;
  }

  lemma LinesHeld(content: string, lines: seq<string>, k: nat)
    requires lines == Lines(content) && NoStructureInHtml(Kinds(lines)) && ProperCut(Kinds(lines), k)
    ensures SafeCut(Concat(lines[k..])) == 0
  {
    KindsHeld(Kinds(lines), k);
    KindsDrop(lines, k);
    LinesDrop(content, k);
  }

  lemma KindsDrop(lines: seq<string>, k: nat)
    requires k <= |lines|
    ensures Kinds(lines[k..]) == Kinds(lines)[k..]
  {
  }

  lemma KindsHeld(kinds: seq<Kind>, c: nat)
    requires NoStructureInHtml(kinds) && ProperCut(kinds, c)
    ensures LineCut(kinds[c..]) == 0
  {
    CutOutsideHtml(kinds);
    RemainderFixpointIff(kinds, c);
  }

  lemma ProperOffset(lines: seq<string>, k: nat, n: nat)
    requires k <= |lines| && n == |Concat(lines)| && 0 < Offset(lines, k) < n
    ensures 0 < k < |lines|
  {
    WholeOffset(lines);
  }

  lemma WholeOffset(lines: seq<string>)
    ensures Offset(lines, |lines|) == |Concat(lines)|
  {
    OffsetIsLength(lines, |lines|);
    assert lines[..|lines|] == lines;
  }

  lemma {:induction false} NoOpeningNoStructure(kinds: seq<Kind>)
    requires Open !in kinds
    ensures NoStructureInHtml(kinds) && !InHtml(kinds)
  {
    if kinds != [] {
      assert forall kind | kind in kinds[..|kinds| - 1] :: kind in kinds;
      NoOpeningNoStructure(kinds[..|kinds| - 1]);
      NoStructurePrefix(kinds);
    }
  }

  // ----- exactly where the cut falls ------------------------------------------------------------

  /** Row number j stands outside code, and after it there are only fences and lines of code. */
  predicate LastRowAt(kinds: seq<Kind>, j: int) {
    && 0 <= j < |kinds| && kinds[j] == Row && !InCode(kinds[..j])
    && forall m | j < m < |kinds| :: kinds[m] == Fence || InCode(kinds[..m])
  }

  /** In a table: the last line outside code that is not a fence is a row. */
  predicate InTable(kinds: seq<Kind>) {
    exists j | 0 <= j < |kinds| :: LastRowAt(kinds, j)
  }

  lemma {:induction false} TableMeaning(kinds: seq<Kind>)
    ensures StateOf(kinds).table == InTable(kinds)
  {
    if kinds != [] {
      var n := |kinds| - 1;
      TableMeaning(kinds[..n]);
      StateMeaning(kinds[..n]);
      TableStep(kinds);
    }
  }

  lemma TableStep(kinds: seq<Kind>)
    requires kinds != []
    ensures var n := |kinds| - 1;
            InTable(kinds) <==>
            if kinds[n] == Fence || InCode(kinds[..n]) then InTable(kinds[..n]) else kinds[n] == Row
  {
    var n := |kinds| - 1;
    var before := kinds[..n];
    assert forall m | 0 <= m <= n :: before[..m] == kinds[..m];
    if j :| LastRowAt(kinds, j) && j < n {
      assert LastRowAt(before, j);
    }
    if j :| LastRowAt(before, j) && (kinds[n] == Fence || InCode(before)) {
      assert LastRowAt(kinds, j);
    }
    if kinds[n] == Row && !InCode(before) {
      assert LastRowAt(kinds, n);
    }
  }

  /** Line number i, on its own terms, is complete: it closes a code or an HTML block, or it is a
      plain line outside both. */
  predicate EndsSafely(kinds: seq<Kind>, i: nat)
    requires i < |kinds|
  {
    match kinds[i]
    case Fence => InCode(kinds[..i])
    case OpenClose | Close => !InCode(kinds[..i])
    case Plain => !InCode(kinds[..i]) && !InHtml(kinds[..i])
    case Row | Open => false
  }

  /** Line number i begins a structure: a code block, a table, or an HTML block that is not inside
      another. */
  predicate BeginsStructure(kinds: seq<Kind>, i: nat)
    requires i < |kinds|
  {
    && !InCode(kinds[..i])
    && match kinds[i]
       case Fence => true
       case Row => !InTable(kinds[..i])
       case Open => !InHtml(kinds[..i])
       case OpenClose | Close | Plain => false
  }

  /** A place to cut: right after a complete line, or right before a line that begins a structure. */
  predicate CutPoint(kinds: seq<Kind>, c: int) {
    0 < c <= |kinds| && (EndsSafely(kinds, c - 1) || (c < |kinds| && BeginsStructure(kinds, c)))
  }

  /** The cut is the last of those places, or at the start if there is none. */
  lemma {:induction false} CutIsLastPoint(kinds: seq<Kind>)
    ensures LineCut(kinds) == 0 || CutPoint(kinds, LineCut(kinds))
    ensures forall c | CutPoint(kinds, c) :: c <= LineCut(kinds)
  {
    if kinds != [] {
      var n := |kinds| - 1;
      var before := kinds[..n];
      CutIsLastPoint(before);
      StateMeaning(before);
      TableMeaning(before);
      forall c | 0 < c <= n
        ensures CutPoint(kinds, c) <==> CutPoint(before, c) || (c == n && BeginsStructure(kinds, n))
      {
        PointsBefore(kinds, c);
      }
    }
  }

  lemma PointsBefore(kinds: seq<Kind>, c: nat)
    requires 0 < c < |kinds|
    ensures var n := |kinds| - 1;
            CutPoint(kinds, c) <==> CutPoint(kinds[..n], c) || (c == n && BeginsStructure(kinds, n))
  {
    var before := kinds[..|kinds| - 1];
    assert before[..c - 1] == kinds[..c - 1] && before[..c] == kinds[..c];
  }
}
