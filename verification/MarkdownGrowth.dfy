/** The cuts of a text that grows byte by byte, as the batcher sees it: its last line is often
    torn, and a torn line may be of another kind than the whole one. */
module MarkdownGrowth {
  import opened Text
  import opened Markdown
  import opened MarkdownCuts

  // ----- the lines of a prefix -------------------------------------------------------------------

  /** Complete lines split off: what follows them does not change them. */
  lemma {:induction false} LinesAfterNewline(a: string, b: string)
    requires a == "" || a[|a| - 1] == '\n'
    ensures Lines(a + b) == Lines(a) + Lines(b)
    decreases |a|
  {
    if a == "" {
      assert a + b == b && Lines(a) == [];
    } else {
      var idx := IndexOfNewline(a);
      SameNewline(a, b);
      assert (a + b)[..idx + 1] == a[..idx + 1] && (a + b)[idx + 1..] == a[idx + 1..] + b;
      LinesAfterNewline(a[idx + 1..], b);
      Regroup([a[..idx + 1]], Lines(a[idx + 1..]), Lines(b));
    }
  }

  lemma {:induction false} SameNewline(a: string, b: string)
    requires '\n' in a
    ensures IndexOfNewline(a + b) == IndexOfNewline(a) >= 0
  {
    if a[0] != '\n' {
      assert '\n' in a[1..];
      SameNewline(a[1..], b);
      assert (a + b)[1..] == a[1..] + b;
    }
  }

  /** The text up to byte j of line k. */
  function UpTo(lines: seq<string>, k: nat, j: nat): string
    requires k < |lines| && j <= |lines[k]|
  {
    Concat(lines[..k]) + lines[k][..j]
  }

  /** Its lines are the first k, whole, and the torn one. */
  lemma LinesOfPrefix(s: string, k: nat, j: nat)
    requires k < |Lines(s)| && 0 < j <= |Lines(s)[k]|
    ensures Lines(UpTo(Lines(s), k, j)) == Lines(s)[..k] + [Lines(s)[k][..j]]
  {
    var lines := Lines(s);
    WholeLines(s, k);
    LinesAfterNewline(Concat(lines[..k]), lines[k][..j]);
    LineShape(s, k);
    OneLine(lines[k], j);
  }

  lemma OneLine(line: string, j: nat)
    requires 0 < j <= |line| && '\n' !in line[..|line| - 1]
    ensures Lines(line[..j]) == [line[..j]]
  {
    var t := line[..j];
    var idx := IndexOfNewline(t);
    assert forall i | 0 <= i < j - 1 :: t[i] == line[..|line| - 1][i];
    if idx != -1 {
      assert t[..idx + 1] == t && t[idx + 1..] == "";
    }
  }

  /** The first k lines are a text of complete lines. */
  predicate AreWhole(lines: seq<string>) {
    var whole := Concat(lines);
    Lines(whole) == lines && (whole == "" || whole[|whole| - 1] == '\n')
  }

  lemma {:induction false} WholeLines(s: string, k: nat)
    requires k < |Lines(s)|
    ensures AreWhole(Lines(s)[..k])
  {
    if k == 0 {
      assert AreWhole([]);
    } else {
      WholeLines(s, k - 1);
      LineShape(s, k - 1);
      OneMoreLine(Lines(s)[..k - 1], Lines(s)[k - 1]);
      assert Lines(s)[..k] == Lines(s)[..k - 1] + [Lines(s)[k - 1]];
    }
  }

  lemma OneMoreLine(lines: seq<string>, line: string)
    requires AreWhole(lines)
    requires line != "" && '\n' !in line[..|line| - 1] && line[|line| - 1] == '\n'
    ensures AreWhole(lines + [line])
  {
    ConcatAppend(lines, [line]);
    LinesAfterNewline(Concat(lines), line);
    OneLine(line, |line|);
    assert line[..|line|] == line && Concat([line]) == line;
  }

  /** Every non-empty prefix is of that form. */
  lemma {:induction false} PrefixOfLines(s: string, n: nat) returns (k: nat, j: nat)
    requires 0 < n <= |s|
    ensures k < |Lines(s)| && 0 < j <= |Lines(s)[k]| && s[..n] == UpTo(Lines(s), k, j)
  {
    LinesConcat(s);
    k, j := InConcat(Lines(s), n);
  }

  lemma {:induction false} InConcat(lines: seq<string>, n: nat) returns (k: nat, j: nat)
    requires 0 < n <= |Concat(lines)|
    ensures k < |lines| && 0 < j <= |lines[k]| && Concat(lines)[..n] == UpTo(lines, k, j)
  {
    if n <= |lines[0]| {
      k, j := 0, n;
      assert lines[..0] == [];
    } else {
      k, j := InConcat(lines[1..], n - |lines[0]|);
      k := k + 1;
      assert lines[..k] == [lines[0]] + lines[1..][..k - 1];
      ConcatAppend([lines[0]], lines[1..][..k - 1]);
    }
  }

  lemma PrefixIsPrefix(s: string, k: nat, j: nat)
    requires k < |Lines(s)| && j <= |Lines(s)[k]|
    ensures UpTo(Lines(s), k, j) <= s
  {
    var lines := Lines(s);
    LinesConcat(s);
    ConcatSplit(lines, k);
    OffsetIsLength(lines, k);
    assert lines[k..] == [lines[k]] + lines[k + 1..];
    ConcatAppend([lines[k]], lines[k + 1..]);
  }

  lemma KindsOfPrefix(s: string, k: nat, j: nat)
    requires k < |Lines(s)| && 0 < j <= |Lines(s)[k]|
    ensures Kinds(Lines(UpTo(Lines(s), k, j))) == Kinds(Lines(s))[..k] + [KindOf(Lines(s)[k][..j])]
  {
    LinesOfPrefix(s, k, j);
    KindsOfTorn(Lines(s), k, Lines(s)[k][..j]);
  }

  lemma KindsOfTorn(lines: seq<string>, k: nat, torn: string)
    requires k <= |lines|
    ensures Kinds(lines[..k] + [torn]) == Kinds(lines)[..k] + [KindOf(torn)]
  {
  }

  // ----- cuts and HTML blocks ----------------------------------------------------------------------

  predicate CutIsOutsideHtml(s: string) {
    !InHtml(Kinds(Lines(s))[..CutIndex(s)])
  }

  /** The first j bytes of line k, outside code and inside an HTML block, read as a fence or a
      table row. */
  predicate StructureArises(lines: seq<string>, k: nat, j: nat) {
    && k < |lines| && 0 < j <= |lines[k]|
    && (KindOf(lines[k][..j]) == Fence || KindOf(lines[k][..j]) == Row)
    && !InCode(Kinds(lines)[..k]) && InHtml(Kinds(lines)[..k])
  }

  ghost predicate NothingArises(lines: seq<string>) {
    forall k: nat, j: nat :: !StructureArises(lines, k, j)
  }

  ghost predicate AlwaysOutsideHtml(s: string) {
    forall n | 0 <= n <= |s| :: CutIsOutsideHtml(s[..n])
  }

  /** Cuts stay out of HTML blocks, however many bytes of the text have arrived, exactly when
      no line inside an HTML block, torn after any byte or whole, reads as a fence or a row. */
  lemma CutsOutsideHtmlIff(s: string)
    ensures AlwaysOutsideHtml(s) <==> NothingArises(Lines(s))
  {
    if NothingArises(Lines(s)) {
      QuietText(s);
    } else {
      ArisenText(s);
    }
  }

  lemma QuietText(s: string)
    requires NothingArises(Lines(s))
    ensures AlwaysOutsideHtml(s)
  {
    forall n | 0 <= n <= |s| ensures CutIsOutsideHtml(s[..n]) {
      QuietPrefix(s, n);
    }
  }

  lemma ArisenText(s: string)
    requires !NothingArises(Lines(s))
    ensures !AlwaysOutsideHtml(s)
  {
    var k: nat, j: nat :| StructureArises(Lines(s), k, j);
    ArisenIsStructure(Lines(s), k, j);
    var n := StructureCutsText(s, k, j);
    assert !CutIsOutsideHtml(s[..n]);
  }

  lemma QuietPrefix(s: string, n: nat)
    requires n <= |s| && NothingArises(Lines(s))
    ensures CutIsOutsideHtml(s[..n])
  {
    if n == 0 {
      assert s[..0] == "";
    } else {
      var k, j := PrefixOfLines(s, n);
      KindsOfPrefix(s, k, j);
      QuietKinds(Lines(s), k, j);
      CutOutsideHtml(Kinds(Lines(s[..n])));
    }
  }

  lemma QuietKinds(lines: seq<string>, k: nat, j: nat)
    requires k < |lines| && 0 < j <= |lines[k]|
    requires (forall i | 0 <= i < |lines| :: lines[i] != "") && NothingArises(lines)
    ensures NoStructureInHtml(Kinds(lines)[..k] + [KindOf(lines[k][..j])])
  {
    var kinds := Kinds(lines)[..k] + [KindOf(lines[k][..j])];
    forall i ensures !StructureInHtmlAt(kinds, i) {
      if 0 <= i <= k {
        assert kinds[..i] == Kinds(lines)[..i];
        assert !StructureArises(lines, i, if i < k then |lines[i]| else j);
        assert lines[i][..|lines[i]|] == lines[i];
      }
    }
  }

  /** The first structure among the lines is where a cut falls inside HTML. */
  lemma {:induction false} StructureIsCut(kinds: seq<Kind>) returns (n: nat)
    requires !NoStructureInHtml(kinds)
    ensures 0 < n <= |kinds| && InHtml(kinds[..n][..LineCut(kinds[..n])])
  {
    var m := |kinds| - 1;
    var k :| StructureInHtmlAt(kinds, k);
    NoStructurePrefix(kinds);
    if NoStructureInHtml(kinds[..m]) {
      n := m + 1;
      HtmlIsNotTable(kinds[..m]);
      StateMeaning(kinds[..m]);
      assert kinds[..n] == kinds;
      assert LineCut(kinds) == m;
    } else {
      n := StructureIsCut(kinds[..m]);
      assert kinds[..m][..n] == kinds[..n];
    }
  }

  lemma ArisenIsStructure(lines: seq<string>, k: nat, j: nat)
    requires StructureArises(lines, k, j)
    ensures !NoStructureInHtml(Kinds(lines)[..k] + [KindOf(lines[k][..j])])
  {
    var kinds := Kinds(lines)[..k] + [KindOf(lines[k][..j])];
    assert kinds[..k] == Kinds(lines)[..k];
    assert StructureInHtmlAt(kinds, k);
  }

  lemma StructureCutsText(s: string, k: nat, j: nat) returns (n: nat)
    requires k < |Lines(s)| && 0 < j <= |Lines(s)[k]|
    requires !NoStructureInHtml(Kinds(Lines(s))[..k] + [KindOf(Lines(s)[k][..j])])
    ensures n <= |s| && !CutIsOutsideHtml(s[..n])
  {
    var kinds := Kinds(Lines(s))[..k] + [KindOf(Lines(s)[k][..j])];
    var m := StructureIsCut(kinds);
    if m == k + 1 {
      assert kinds[..m] == kinds;
      n := TornText(s, k, j);
    } else {
      assert kinds[..m] == Kinds(Lines(s))[..m];
      n := WholeText(s, m);
    }
    CutOfKinds(s[..n], kinds[..m]);
  }

  lemma CutOfKinds(s: string, kinds: seq<Kind>)
    requires Kinds(Lines(s)) == kinds && InHtml(kinds[..LineCut(kinds)])
    ensures !CutIsOutsideHtml(s)
  {
  }

  lemma WholeText(s: string, m: nat) returns (n: nat)
    requires 0 < m <= |Lines(s)|
    ensures n <= |s| && Kinds(Lines(s[..n])) == Kinds(Lines(s))[..m]
  {
    WholeIsTorn(Lines(s), m - 1);
    n := TornText(s, m - 1, |Lines(s)[m - 1]|);
  }

  lemma WholeIsTorn(lines: seq<string>, i: nat)
    requires i < |lines|
    ensures Kinds(lines)[..i] + [KindOf(lines[i][..|lines[i]|])] == Kinds(lines)[..i + 1]
  {
    assert lines[i][..|lines[i]|] == lines[i];
  }

  lemma TornText(s: string, k: nat, j: nat) returns (n: nat)
    requires k < |Lines(s)| && 0 < j <= |Lines(s)[k]|
    ensures n <= |s| && Kinds(Lines(s[..n])) == Kinds(Lines(s))[..k] + [KindOf(Lines(s)[k][..j])]
  {
    KindsOfPrefix(s, k, j);
    PrefixIsPrefix(s, k, j);
    n := |UpTo(Lines(s), k, j)|;
    assert s[..n] == UpTo(Lines(s), k, j);
  }

  // ----- how the cut moves ---------------------------------------------------------------------------

  /** After complete lines a cut never moves back, whatever bytes follow: it can move back only
      within the torn last line. */
  lemma CutOfWholeLinesStays(a: string, b: string)
    requires a == "" || a[|a| - 1] == '\n'
    ensures SafeCut(a) <= SafeCut(a + b)
  {
    var lines, kinds := Lines(a + b), Kinds(Lines(a + b));
    var n := |Lines(a)|;
    LinesAfterNewline(a, b);
    assert lines[..n] == Lines(a) && kinds[..n] == Kinds(Lines(a)) && kinds[..|kinds|] == kinds;
    CutMonotone(kinds, n, |kinds|);
    OffsetOfPrefix(lines, n, CutIndex(a));
    OffsetMonotone(lines, CutIndex(a), CutIndex(a + b));
  }

  lemma {:induction false} OffsetOfPrefix(lines: seq<string>, n: nat, k: nat)
    requires k <= n <= |lines|
    ensures Offset(lines[..n], k) == Offset(lines, k)
  {
    if k > 0 {
      OffsetOfPrefix(lines, n, k - 1);
    }
  }

  lemma {:induction false} OffsetMonotone(lines: seq<string>, k: nat, l: nat)
    requires k <= l <= |lines|
    ensures Offset(lines, k) <= Offset(lines, l)
  {
    if k < l {
      OffsetMonotone(lines, k, l - 1);
    }
  }

  lemma {:induction false} OffsetStrict(lines: seq<string>, k: nat, l: nat)
    requires k < l <= |lines| && forall i | 0 <= i < |lines| :: lines[i] != ""
    ensures Offset(lines, k) < Offset(lines, l)
  {
    if k < l - 1 {
      OffsetStrict(lines, k, l - 1);
    }
  }

  predicate HasProperCut(s: string) {
    0 < SafeCut(s) < |s|
  }

  predicate AllOrNothing(kinds: seq<Kind>) {
    Unfinished(kinds) || Finished(kinds)
  }

  /** The lines are one unfinished block, or finished. */
  predicate OneBlockOrFinished(s: string) {
    AllOrNothing(Kinds(Lines(s)))
  }

  /** A text has no proper cut exactly when its lines are one unfinished block or finished. */
  lemma NoProperCutIff(s: string)
    ensures !HasProperCut(s) <==> OneBlockOrFinished(s)
  {
    LinesConcat(s);
    NoProperCutOf(Lines(s), Kinds(Lines(s)));
  }

  lemma NoProperCutOf(lines: seq<string>, kinds: seq<Kind>)
    requires |kinds| == |lines| && forall i | 0 <= i < |lines| :: lines[i] != ""
    ensures var cut := Offset(lines, LineCut(kinds)); cut == 0 || cut >= |Concat(lines)| <==> AllOrNothing(kinds)
  {
    OffsetTells(lines, LineCut(kinds));
    LineCutTells(kinds);
  }

  lemma OffsetTells(lines: seq<string>, k: nat)
    requires k <= |lines| && forall i | 0 <= i < |lines| :: lines[i] != ""
    ensures Offset(lines, k) == 0 <==> k == 0
    ensures Offset(lines, k) >= |Concat(lines)| <==> k == |lines|
  {
    WholeOffset(lines);
    if k > 0 {
      OffsetStrict(lines, 0, k);
    }
    if k < |lines| {
      OffsetStrict(lines, k, |lines|);
    }
  }

  lemma LineCutTells(kinds: seq<Kind>)
    ensures LineCut(kinds) == 0 || LineCut(kinds) == |kinds| <==> Unfinished(kinds) || Finished(kinds)
  {
    NothingSafeIff(kinds);
    if kinds != [] {
      EverythingSafeIff(kinds);
    }
  }

  // ----- two texts -------------------------------------------------------------------------------------

  lemma NoSlashDoesNotEnd(t: string)
    requires '/' !in t
    ensures !EndsHtmlBlock(t)
  {
    forall k, i | 0 <= k < |BLOCK_NAMES| && 0 <= i <= |t| ensures !("</" + BLOCK_NAMES[k] + ">" <= ToLower(t)[i..]) {
      NoSlashNoTag(ToLower(t)[i..], BLOCK_NAMES[k]);
    }
  }

  lemma NoSlashNoTag(t: string, name: string)
    requires '/' !in t
    ensures !("</" + name + ">" <= t)
  {
    assert ("</" + name + ">")[1] == '/';
  }

  lemma DivOpens()
    ensures KindOf("<div>\n") == Open
  {
    assert "<div>\n"[..5] == "<div>";
    assert TrimSpace("<div>\n") == "<div>";
    NoSlashDoesNotEnd("<div>");
    assert "<" + BLOCK_NAMES[0] <= ToLower("<div>");
  }

  lemma PlainKind(line: string)
    requires var t := TrimSpace(line); !IsFence(t) && !IsTableRow(t) && (t == "" || t[0] != '<') && '/' !in t
    ensures KindOf(line) == Plain
  {
    NoSlashDoesNotEnd(TrimSpace(line));
  }

  lemma TwoLines(first: string, second: string)
    requires first != "" && '\n' !in first[..|first| - 1] && first[|first| - 1] == '\n'
    requires second != "" && '\n' !in second[..|second| - 1]
    ensures Lines(first + second) == [first, second]
  {
    LinesAfterNewline(first, second);
    OneLine(first, |first|);
    OneLine(second, |second|);
    assert first[..|first|] == first && second[..|second|] == second;
  }

  lemma KindsOfTwo(first: string, second: string, k0: Kind, k1: Kind)
    requires Lines(first + second) == [first, second] && KindOf(first) == k0 && KindOf(second) == k1
    ensures Kinds(Lines(first + second)) == [k0, k1]
  {
  }

  lemma LineCutOfTwo(k0: Kind, k1: Kind)
    ensures var start := State(false, false, false);
            LineCut([k0, k1]) == CutAfter(Next(start, k0), k1, 1, CutAfter(start, k0, 0, 0))
    ensures [k0, k1][..1] == [k0]
    ensures InHtml([k0]) == (k0 == Open)
    ensures !NoStructureInHtml([k0, k1]) ==> k0 == Open && (k1 == Fence || k1 == Row)
  {
    var kinds := [k0, k1];
    assert kinds[..1] == [k0] && [k0][..0] == [] && kinds[..0] == [];
    ScanStep(kinds, 1);
    ScanStep(kinds, 0);
    assert kinds[..2] == kinds;
  }

  lemma SafeCutOfTwo(s: string, first: string, second: string)
    requires Lines(s) == [first, second]
    ensures SafeCut(s) == (if CutIndex(s) == 0 then 0 else if CutIndex(s) == 1 then |first| else |first| + |second|)
  {
    var lines := [first, second];
    assert Offset(lines, 1) == |first|;
    assert Offset(lines, 2) == |first| + |second|;
  }

  lemma RowKind()
    ensures KindOf("|a|") == Row
  {
    assert TrimSpace("|a|") == "|a|";
    TableRowMeaning("|a|");
  }

  lemma TornRowKinds()
    ensures KindOf("|a| b\n") == Plain
  {
    assert "|a| b\n"[..5] == "|a| b";
    assert TrimSpace("|a| b\n") == "|a| b";
    TableRowMeaning("|a| b");
    PlainKind("|a| b\n");
  }

  lemma WholeRowHasNoStructure()
    ensures NoStructureInHtml(Kinds(Lines("<div>\n" + "|a| b\n")))
  {
    DivOpens();
    TornRowKinds();
    TwoLines("<div>\n", "|a| b\n");
    KindsOfTwo("<div>\n", "|a| b\n", Open, Plain);
    LineCutOfTwo(Open, Plain);
  }

  lemma TornRowCut()
    ensures var torn := "<div>\n" + "|a|"; SafeCut(torn) == 6 && !CutIsOutsideHtml(torn)
  {
    DivOpens();
    RowKind();
    TwoLines("<div>\n", "|a|");
    KindsOfTwo("<div>\n", "|a|", Open, Row);
    LineCutOfTwo(Open, Row);
    SafeCutOfTwo("<div>\n" + "|a|", "<div>\n", "|a|");
  }

  /** A text without structure inside HTML, cut inside HTML all the same when it has arrived up
      to the second bar. */
  lemma TornRowIsCutInHtml()
    ensures var whole, torn := "<div>\n" + "|a| b\n", "<div>\n" + "|a|";
            && torn <= whole && NoStructureInHtml(Kinds(Lines(whole)))
            && SafeCut(torn) == 6 && !CutIsOutsideHtml(torn)
  {
    WholeRowHasNoStructure();
    TornRowCut();
  }

  lemma XIsPlain()
    ensures KindOf("x\n") == Plain && KindOf("``") == Plain
  {
    assert "x\n"[..1] == "x";
    assert TrimSpace("x\n") == "x" && TrimSpace("``") == "``";
    PlainKind("x\n");
    PlainKind("``");
  }

  lemma FenceKind()
    ensures KindOf("```") == Fence
  {
    assert TrimSpace("```") == "```";
  }

  /** Within a torn last line more text does move the cut back. */
  lemma CutMovesBackInTornLine()
    ensures SafeCut("x\n" + "``") == 4 && SafeCut("x\n" + "```") == 2
  {
    XIsPlain();
    FenceKind();
    TwoLines("x\n", "``");
    TwoLines("x\n", "```");
    KindsOfTwo("x\n", "``", Plain, Plain);
    KindsOfTwo("x\n", "```", Plain, Fence);
    LineCutOfTwo(Plain, Plain);
    LineCutOfTwo(Plain, Fence);
    SafeCutOfTwo("x\n" + "``", "x\n", "``");
    SafeCutOfTwo("x\n" + "```", "x\n", "```");
  }
}
