/** What the three scanners of validate.go promise together: they read quotes and escapes
    the same way exactly when no backslash inside quotes sits before the closing quote, and
    then relaxed validation is strict validation of every segment. */
module ShellAgreement {
  import opened Text
  import opened Shell
  import opened ShellSplit

  // ----- how each scanner reads each byte -------------------------------------------

  datatype Mark = Quoting | Quoted | Escape | Plain

  /** The checkers: quoted bytes are skipped one at a time, backslashes included. */
  function CheckerMarks(s: string, q: Quote): (r: seq<Mark>)
    ensures |r| == |s|
    decreases |s|
  {
    if s == "" then []
    else if IsToggle(q, s[0]) then [Quoting] + CheckerMarks(s[1..], Toggled(q, s[0]))
    else if q != Bare then [Quoted] + CheckerMarks(s[1..], q)
    else if s[0] == '\\' && |s| > 1 then [Escape, Escape] + CheckerMarks(s[2..], q)
    else [Plain] + CheckerMarks(s[1..], q)
  }

  /** The splitter: a backslash takes the next byte with it, inside quotes too. */
  function SplitterMarks(s: string, q: Quote): (r: seq<Mark>)
    ensures |r| == |s|
    decreases |s|
  {
    if s == "" then []
    else if IsToggle(q, s[0]) then [Quoting] + SplitterMarks(s[1..], Toggled(q, s[0]))
    else if s[0] == '\\' && |s| > 1 then
      (if q == Bare then [Escape, Escape] else [Quoted, Quoted]) + SplitterMarks(s[2..], q)
    else [if q == Bare then Plain else Quoted] + SplitterMarks(s[1..], q)
  }

  /** No backslash inside quotes stands right before the quote that would close them. */
  predicate NoEscapedClose(s: string, q: Quote)
    decreases |s|
  {
    if s == "" then true
    else if IsToggle(q, s[0]) then NoEscapedClose(s[1..], Toggled(q, s[0]))
    else if s[0] == '\\' && |s| > 1 then (q == Bare || !IsToggle(q, s[1])) && NoEscapedClose(s[2..], q)
    else NoEscapedClose(s[1..], q)
  }

  /** The scanners classify every byte alike exactly when no quote close is escaped. */
  lemma {:induction false} ScannersAgreeIff(s: string, q: Quote)
    ensures NoEscapedClose(s, q) <==> CheckerMarks(s, q) == SplitterMarks(s, q)
    decreases |s|
  {
    var c, p := CheckerMarks(s, q), SplitterMarks(s, q);
    if s == "" {
    } else if IsToggle(q, s[0]) {
      ScannersAgreeIff(s[1..], Toggled(q, s[0]));
      assert c[1..] == CheckerMarks(s[1..], Toggled(q, s[0])) && p[1..] == SplitterMarks(s[1..], Toggled(q, s[0]));
    } else if s[0] == '\\' && |s| > 1 {
      assert p[2..] == SplitterMarks(s[2..], q);
      if q == Bare {
        ScannersAgreeIff(s[2..], q);
        assert c[2..] == CheckerMarks(s[2..], q);
      } else if IsToggle(q, s[1]) {
        assert s[1..][0] == s[1];
        assert c[1] == CheckerMarks(s[1..], q)[0] == Quoting;
      } else {
        ScannersAgreeIff(s[2..], q);
        assert s[1..][0] == s[1] && s[1..][1..] == s[2..];
        assert c == [Quoted, Quoted] + CheckerMarks(s[2..], q);
        assert c[2..] == CheckerMarks(s[2..], q);
      }
    } else {
      ScannersAgreeIff(s[1..], q);
      assert c[1..] == CheckerMarks(s[1..], q) && p[1..] == SplitterMarks(s[1..], q);
    }
  }

  /** A command with no backslash inside a quoted span is read alike by all scanners. */
  lemma {:induction false} NoQuotedBackslashSuffices(s: string, q: Quote)
    requires forall i | 0 <= i < |s| && CheckerMarks(s, q)[i] == Quoted :: s[i] != '\\'
    ensures NoEscapedClose(s, q)
    decreases |s|
  {
    var m := CheckerMarks(s, q);
    if s == "" {
    } else if IsToggle(q, s[0]) {
      NoQuotedBackslashSuffices(s[1..], Toggled(q, s[0]));
    } else if s[0] == '\\' && |s| > 1 {
      assert m[0] != Quoted;
      NoQuotedBackslashSuffices(s[2..], q);
    } else {
      NoQuotedBackslashSuffices(s[1..], q);
    }
  }

  // ----- what the strict checker finds ----------------------------------------------

  predicate StrictHitAt(s: string, q: Quote, i: int) {
    0 <= i < |s| && CheckerMarks(s, q)[i] == Plain && (CommonHit(s[i..]) || s[i] == '|' || s[i] == '&')
  }

  /** The strict checker reports a metacharacter exactly when one stands at a byte that is
      neither quoted nor escaped. */
  lemma {:induction false} StrictMeaning(s: string, q: Quote)
    ensures StrictScan(s, q).Some? <==> exists i :: StrictHitAt(s, q, i)
    decreases |s|
  {
    if s == "" {
    } else if IsToggle(q, s[0]) {
      StrictMeaning(s[1..], Toggled(q, s[0]));
      ShiftHits(s, 1, q, Toggled(q, s[0]));
    } else if q != Bare {
      StrictMeaning(s[1..], q);
      ShiftHits(s, 1, q, q);
    } else if s[0] == '\\' && |s| > 1 {
      StrictMeaning(s[2..], q);
      ShiftHits(s, 2, q, q);
    } else {
      StrictTableMeaning(s);
      assert s[0..] == s;
      if Lookup(STRICT_TABLE, s).Some? {
        assert StrictHitAt(s, q, 0);
      } else {
        StrictMeaning(s[1..], q);
        ShiftHits(s, 1, q, q);
      }
    }
  }

  lemma ShiftHits(s: string, n: nat, q: Quote, q': Quote)
    requires n <= |s| && CheckerMarks(s, q)[n..] == CheckerMarks(s[n..], q')
    requires forall i | 0 <= i < n :: !StrictHitAt(s, q, i)
    ensures (exists i :: StrictHitAt(s, q, i)) <==> (exists i :: StrictHitAt(s[n..], q', i))
  {
    if i :| StrictHitAt(s, q, i) {
      assert s[n..][i - n..] == s[i..] && CheckerMarks(s, q)[n..][i - n] == CheckerMarks(s, q)[i];
      assert StrictHitAt(s[n..], q', i - n);
    }
    if i :| StrictHitAt(s[n..], q', i) {
      assert s[n..][i..] == s[n + i..] && CheckerMarks(s, q)[n..][i] == CheckerMarks(s, q)[n + i];
      assert StrictHitAt(s, q, n + i);
    }
  }

  // ----- what the relaxed checker finds ---------------------------------------------

  /** An odd number of unquoted, unescaped ampersands stands directly before byte i. */
  predicate OddAndsBefore(s: string, marks: seq<Mark>, i: nat)
    requires |marks| == |s| && i <= |s|
  {
    i > 0 && s[i - 1] == '&' && marks[i - 1] == Plain && !OddAndsBefore(s, marks, i - 1)
  }

  /** The last of an odd run of ampersands: the one left over when they are paired. */
  predicate LoneAnd(s: string, marks: seq<Mark>, i: nat)
    requires |marks| == |s| && i < |s|
  {
    s[i] == '&' && (i + 1 < |s| ==> s[i + 1] != '&') && !OddAndsBefore(s, marks, i)
  }

  predicate RelaxedHitAt(s: string, q: Quote, i: int) {
    var marks := CheckerMarks(s, q);
    0 <= i < |s| && marks[i] == Plain && (CommonHit(s[i..]) || LoneAnd(s, marks, i))
  }

  lemma {:induction false} AndsShift(s: string, marks: seq<Mark>, n: nat, i: nat)
    requires |marks| == |s| && n <= i <= |s| && !OddAndsBefore(s, marks, n)
    ensures OddAndsBefore(s, marks, i) == OddAndsBefore(s[n..], marks[n..], i - n)
  {
    if n < i {
      AndsShift(s, marks, n, i - 1);
      assert s[n..][i - n - 1] == s[i - 1] && marks[n..][i - n - 1] == marks[i - 1];
    }
  }

  lemma LoneAndShift(s: string, marks: seq<Mark>, n: nat, i: nat)
    requires |marks| == |s| && n <= i < |s| && !OddAndsBefore(s, marks, n)
    ensures LoneAnd(s, marks, i) <==> LoneAnd(s[n..], marks[n..], i - n)
  {
    AndsShift(s, marks, n, i);
    assert s[n..][i - n] == s[i];
    if i + 1 < |s| {
      assert s[n..][i - n + 1] == s[i + 1];
    }
  }

  lemma RelaxedHitShift(s: string, n: nat, q: Quote, q': Quote, i: nat)
    requires n <= i < |s| && CheckerMarks(s, q)[n..] == CheckerMarks(s[n..], q')
    requires !OddAndsBefore(s, CheckerMarks(s, q), n)
    ensures RelaxedHitAt(s, q, i) <==> RelaxedHitAt(s[n..], q', i - n)
  {
    LoneAndShift(s, CheckerMarks(s, q), n, i);
    assert s[n..][i - n..] == s[i..];
    assert CheckerMarks(s, q)[n..][i - n] == CheckerMarks(s, q)[i];
  }

  lemma ShiftRelaxedHits(s: string, n: nat, q: Quote, q': Quote)
    requires n <= |s| && CheckerMarks(s, q)[n..] == CheckerMarks(s[n..], q')
    requires !OddAndsBefore(s, CheckerMarks(s, q), n)
    requires forall i | 0 <= i < n :: !RelaxedHitAt(s, q, i)
    ensures (exists i :: RelaxedHitAt(s, q, i)) <==> (exists i :: RelaxedHitAt(s[n..], q', i))
  {
    if i :| RelaxedHitAt(s, q, i) {
      RelaxedHitShift(s, n, q, q', i);
      assert RelaxedHitAt(s[n..], q', i - n);
    }
    if i :| RelaxedHitAt(s[n..], q', i) {
      HitInTail(s, n, q, q', i);
    }
  }

  lemma HitInTail(s: string, n: nat, q: Quote, q': Quote, i: int)
    requires n <= |s| && CheckerMarks(s, q)[n..] == CheckerMarks(s[n..], q')
    requires !OddAndsBefore(s, CheckerMarks(s, q), n)
    requires RelaxedHitAt(s[n..], q', i)
    ensures RelaxedHitAt(s, q, n + i)
  {
    RelaxedHitShift(s, n, q, q', n + i);
  }

  /** The relaxed checker reports a metacharacter exactly when, at a byte that is neither
      quoted nor escaped, there is a banned construct or an ampersand left over after pairing. */
  lemma {:induction false} RelaxedMeaning(s: string, q: Quote)
    ensures RelaxedScan(s, q).Some? <==> exists i :: RelaxedHitAt(s, q, i)
    decreases |s|
  {
    if s == "" {
    } else if IsToggle(q, s[0]) {
      RelaxedMeaning(s[1..], Toggled(q, s[0]));
      ShiftRelaxedHits(s, 1, q, Toggled(q, s[0]));
    } else if q != Bare {
      RelaxedMeaning(s[1..], q);
      ShiftRelaxedHits(s, 1, q, q);
    } else if s[0] == '\\' && |s| > 1 {
      RelaxedMeaning(s[2..], q);
      ShiftRelaxedHits(s, 2, q, q);
    } else {
      RelaxedBareMeaning(s);
    }
  }

  lemma {:induction false} RelaxedBareMeaning(s: string)
    requires s != "" && !IsToggle(Bare, s[0]) && !(s[0] == '\\' && |s| > 1)
    ensures RelaxedScan(s, Bare).Some? <==> exists i :: RelaxedHitAt(s, Bare, i)
    decreases |s|, 0
  {
    RelaxedTableMeaning(s);
    assert s[0..] == s;
    if CommonHit(s) || (s[0] == '&' && !IsAnd(s)) {
      NotDoubled(s);
      assert RelaxedHitAt(s, Bare, 0);
    } else if IsAnd(s) {
      RelaxedMeaning(s[2..], Bare);
      PairIsNoHit(s);
      ShiftRelaxedHits(s, 2, Bare, Bare);
    } else {
      RelaxedMeaning(s[1..], Bare);
      ShiftRelaxedHits(s, 1, Bare, Bare);
    }
  }

  lemma PairIsNoHit(s: string)
    requires IsAnd(s)
    ensures CheckerMarks(s, Bare)[2..] == CheckerMarks(s[2..], Bare)
    ensures !OddAndsBefore(s, CheckerMarks(s, Bare), 2)
    ensures forall i | 0 <= i < 2 :: !RelaxedHitAt(s, Bare, i)
  {
    var marks := CheckerMarks(s, Bare);
    assert s[1..][0] == '&' && s[1..][1..] == s[2..];
    assert CheckerMarks(s[1..], Bare) == [Plain] + CheckerMarks(s[2..], Bare);
    assert marks == [Plain] + CheckerMarks(s[1..], Bare);
    assert marks[1..] == CheckerMarks(s[1..], Bare);
    assert OddAndsBefore(s, marks, 1);
    assert s[0..] == s && s[1..][0] == '&';
  }

  // ----- relaxed validation is strict validation of every segment --------------------

  /** The state in which segment k of a split begins. */
  function StartState(k: nat, q: Quote): Quote {
    if k == 0 then q else Bare
  }

  /** The strict checker, run on each segment of a split that starts in state q, finds
      nothing. */
  predicate SegmentsClean(segs: seq<string>, q: Quote) {
    forall k | 0 <= k < |segs| :: StrictScan(segs[k], StartState(k, q)) == None
  }

  lemma SegmentsCleanPush(p: string, segs: seq<string>, q: Quote, q': Quote)
    requires |segs| >= 1
    requires StrictScan(p + segs[0], q) == None <==> StrictScan(segs[0], q') == None
    ensures SegmentsClean(Push(p, segs), q) <==> SegmentsClean(segs, q')
  {
  }

  lemma SegmentsCleanCut(segs: seq<string>)
    requires |segs| >= 1
    ensures SegmentsClean([""] + segs, Bare) <==> SegmentsClean(segs, Bare)
  {
    var r := [""] + segs;
    if SegmentsClean(r, Bare) {
      forall k | 0 <= k < |segs| ensures StrictScan(segs[k], StartState(k, Bare)) == None {
        assert r[k + 1] == segs[k];
      }
    }
  }

  lemma {:induction false} RelaxedScanIsSegmentwise(s: string, q: Quote)
    requires NoEscapedClose(s, q)
    ensures RelaxedScan(s, q) == None <==> SegmentsClean(SplitScan(s, q), q)
    decreases |s|
  {
    if s == "" {
    } else if IsToggle(q, s[0]) {
      var t := SplitScan(s[1..], Toggled(q, s[0]));
      RelaxedScanIsSegmentwise(s[1..], Toggled(q, s[0]));
      assert (s[..1] + t[0])[1..] == t[0];
      SegmentsCleanPush(s[..1], t, q, Toggled(q, s[0]));
    } else if s[0] == '\\' && |s| > 1 {
      var t := SplitScan(s[2..], q);
      RelaxedScanIsSegmentwise(s[2..], q);
      SegmentsCleanPush(s[..2], t, q, q);
    } else if q != Bare {
      var t := SplitScan(s[1..], q);
      RelaxedScanIsSegmentwise(s[1..], q);
      assert (s[..1] + t[0])[1..] == t[0];
      SegmentsCleanPush(s[..1], t, q, q);
    } else if s[0] == '|' {
      RelaxedTableMeaning(s);
      RelaxedScanIsSegmentwise(s[1..], q);
      SegmentsCleanCut(SplitScan(s[1..], q));
    } else if IsAnd(s) {
      RelaxedTableMeaning(s);
      RelaxedScanIsSegmentwise(s[2..], q);
      SegmentsCleanCut(SplitScan(s[2..], q));
    } else {
      BareByte(s);
    }
  }

  lemma {:induction false} BareByte(s: string)
    requires s != "" && NoEscapedClose(s, Bare)
    requires !IsToggle(Bare, s[0]) && !(s[0] == '\\' && |s| > 1) && s[0] != '|' && !IsAnd(s)
    ensures RelaxedScan(s, Bare) == None <==> SegmentsClean(SplitScan(s, Bare), Bare)
    decreases |s|, 0
  {
    var t := SplitScan(s[1..], Bare);
    var u := s[..1] + t[0];
    assert u[1..] == t[0] && u[0] == s[0];
    HeadSegment(s[1..], Bare);
    RelaxedTableMeaning(s);
    StrictTableMeaning(u);
    if |s| > 1 && s[1] == '(' {
      assert t[0] != "" && u[1] == t[0][0] == s[1..][0] == s[1];
    }
    if |u| > 1 { assert u[1] == t[0][0] == s[1..][0]; }
    assert CommonHit(u) <==> CommonHit(s);
    if CommonHit(s) || s[0] == '&' {
      NotDoubled(s);
      assert StrictScan(u, Bare).Some?;
      assert SplitScan(s, Bare)[0] == u;
      assert !SegmentsClean(SplitScan(s, Bare), Bare);
    } else {
      RelaxedScanIsSegmentwise(s[1..], Bare);
      assert StrictScan(u, Bare) == StrictScan(t[0], Bare);
      SegmentsCleanPush(s[..1], t, Bare, Bare);
    }
  }

  lemma NotDoubled(s: string)
    requires s != "" && !IsToggle(Bare, s[0]) && !(s[0] == '\\' && |s| > 1) && !IsAnd(s)
    requires CommonHit(s) || s[0] == '&'
    ensures RelaxedScan(s, Bare).Some?
  {
    RelaxedTableMeaning(s);
  }

  predicate SegmentAccepted(seg: string, whitelist: map<string, bool>) {
    Blank(seg) || CheckBase(seg, whitelist) == Accepted
  }

  lemma CheckFirstSegment(seg: string, more: seq<string>, whitelist: map<string, bool>)
    ensures CheckSegments([seg] + more, whitelist) == Accepted
            <==> SegmentAccepted(seg, whitelist) && CheckSegments(more, whitelist) == Accepted
  {
    assert ([seg] + more)[1..] == more;
    TrimSpaceEmpty(seg);
    assert CheckBase(TrimSpace(seg), whitelist) == CheckBase(seg, whitelist);
  }

  lemma {:induction false} SegmentsAccepted(segs: seq<string>, whitelist: map<string, bool>)
    ensures CheckSegments(segs, whitelist) == Accepted <==>
            forall k | 0 <= k < |segs| :: SegmentAccepted(segs[k], whitelist)
  {
    if segs != [] {
      SegmentsAccepted(segs[1..], whitelist);
      CheckFirstSegment(segs[0], segs[1..], whitelist);
      assert segs == [segs[0]] + segs[1..];
      assert forall k | 1 <= k < |segs| :: segs[k] == segs[1..][k - 1];
    }
  }

  /** A blank text has no metacharacter, in any quote state reached from Bare. */
  lemma {:induction false} BlankIsClean(s: string)
    requires Blank(s)
    ensures StrictScan(s, Bare) == None
  {
    if s != "" {
      StrictTableMeaning(s);
      assert Blank(s[1..]);
      BlankIsClean(s[1..]);
    }
  }

  /** The central law: with one whitelist for both, the relaxed validator accepts a command
      exactly when it is not blank and the strict validator accepts every segment that is
      not blank. */
  lemma RelaxedIsSegmentwiseStrict(cmd: string, whitelist: map<string, bool>)
    requires NoEscapedClose(cmd, Bare)
    ensures Relaxed(cmd, whitelist) == Accepted <==>
            !Blank(cmd) && forall k | 0 <= k < |Split(cmd)| && !Blank(Split(cmd)[k]) ::
                             Strict(Split(cmd)[k], whitelist) == Accepted
  {
    var segs := Split(cmd);
    TrimSpaceEmpty(cmd);
    RelaxedScanIsSegmentwise(cmd, Bare);
    SegmentsAccepted(segs, whitelist);
    forall k | 0 <= k < |segs|
      ensures StartState(k, Bare) == Bare
      ensures Blank(segs[k]) ==> StrictScan(segs[k], Bare) == None
      ensures !Blank(segs[k]) ==>
              (Strict(segs[k], whitelist) == Accepted <==>
               StrictScan(segs[k], Bare) == None && CheckBase(segs[k], whitelist) == Accepted)
    {
      TrimSpaceEmpty(segs[k]);
      if Blank(segs[k]) { BlankIsClean(segs[k]); }
    }
  }

  /** The same law for commands with no backslash inside a quoted span. */
  lemma RelaxedIsSegmentwiseStrictUnescaped(cmd: string, whitelist: map<string, bool>)
    requires forall i | 0 <= i < |cmd| && CheckerMarks(cmd, Bare)[i] == Quoted :: cmd[i] != '\\'
    ensures Relaxed(cmd, whitelist) == Accepted <==>
            !Blank(cmd) && forall k | 0 <= k < |Split(cmd)| && !Blank(Split(cmd)[k]) ::
                             Strict(Split(cmd)[k], whitelist) == Accepted
  {
    NoQuotedBackslashSuffices(cmd, Bare);
    RelaxedIsSegmentwiseStrict(cmd, whitelist);
  }

  /** The law, whatever the command. */
  predicate LawHolds(cmd: string, whitelist: map<string, bool>) {
    Relaxed(cmd, whitelist) == Accepted <==>
    !Blank(cmd) && forall k | 0 <= k < |Split(cmd)| && !Blank(Split(cmd)[k]) ::
                     Strict(Split(cmd)[k], whitelist) == Accepted
  }

  /** A banned construct stands in some segment, read on its own by the strict checker. */
  predicate SegmentHit(segs: seq<string>, k: int, i: int) {
    0 <= k < |segs| && StrictHitAt(segs[k], Bare, i)
  }

  lemma SegmentsDirtyIff(segs: seq<string>)
    ensures (exists k | 0 <= k < |segs| :: StrictScan(segs[k], Bare).Some?) <==>
            (exists k, i :: SegmentHit(segs, k, i))
  {
    if k :| 0 <= k < |segs| && StrictScan(segs[k], Bare).Some? {
      StrictMeaning(segs[k], Bare);
      var i :| StrictHitAt(segs[k], Bare, i);
      assert SegmentHit(segs, k, i);
    }
    if k, i :| SegmentHit(segs, k, i) {
      StrictMeaning(segs[k], Bare);
    }
  }

  /** With no condition at all, on bytes and marks: the law holds for a command exactly when it
      is blank, or the base command of a segment decides, or a construct that the relaxed rules
      ban is unquoted in the command just when one that the strict rules ban is unquoted in a
      segment. */
  lemma LawHoldsIff(cmd: string, whitelist: map<string, bool>)
    ensures LawHolds(cmd, whitelist) <==>
            || Blank(cmd)
            || (exists k | 0 <= k < |Split(cmd)| :: !SegmentAccepted(Split(cmd)[k], whitelist))
            || ((exists i :: RelaxedHitAt(cmd, Bare, i)) <==> (exists k, i :: SegmentHit(Split(cmd), k, i)))
  {
    LawOnScans(cmd, whitelist);
    RelaxedMeaning(cmd, Bare);
    SegmentsDirtyIff(Split(cmd));
  }

  lemma LawOnScans(cmd: string, whitelist: map<string, bool>)
    ensures LawHolds(cmd, whitelist) <==>
            || Blank(cmd)
            || (exists k | 0 <= k < |Split(cmd)| :: !SegmentAccepted(Split(cmd)[k], whitelist))
            || (RelaxedScan(cmd, Bare).Some? <==>
                exists k | 0 <= k < |Split(cmd)| :: StrictScan(Split(cmd)[k], Bare).Some?)
  {
    var segs := Split(cmd);
    TrimSpaceEmpty(cmd);
    SegmentsAccepted(segs, whitelist);
    forall k | 0 <= k < |segs|
      ensures Blank(segs[k]) ==> StrictScan(segs[k], Bare) == None
      ensures !Blank(segs[k]) ==>
              (Strict(segs[k], whitelist) == Accepted <==>
               StrictScan(segs[k], Bare) == None && SegmentAccepted(segs[k], whitelist))
    {
      TrimSpaceEmpty(segs[k]);
      if Blank(segs[k]) { BlankIsClean(segs[k]); }
    }
  }

  /** Bytes that mean nothing to any scanner outside quotes. */
  predicate Ordinary(p: string) {
    forall i | 0 <= i < |p| :: p[i] == ' ' || p[i] == '-' || p[i] == '.' || 'a' <= p[i] <= 'z'
  }

  lemma {:induction false} OrdinaryPrefix(p: string, t: string)
    requires Ordinary(p)
    ensures RelaxedScan(p + t, Bare) == RelaxedScan(t, Bare)
    ensures StrictScan(p + t, Bare) == StrictScan(t, Bare)
    ensures SplitScan(p + t, Bare) == Push(p, SplitScan(t, Bare))
    ensures NoEscapedClose(p + t, Bare) == NoEscapedClose(t, Bare)
  {
    if p == "" {
      assert p + t == t;
      PushNothing(SplitScan(t, Bare));
    } else {
      var s := p + t;
      OrdinaryPrefix(p[1..], t);
      assert s[1..] == p[1..] + t && s[0] == p[0] && s[..1] == p[..1];
      RelaxedTableMeaning(s);
      StrictTableMeaning(s);
      PushPush(p[..1], p[1..], SplitScan(t, Bare));
      assert p[..1] + p[1..] == p;
    }
  }

  /** Outside that condition the law fails, for a whole family of commands: the checkers end
      the quoted span at its second quote and see a bare pipe, the splitter escapes that
      quote and sees one quoted segment. */
  lemma EscapedCloseBreaksTheLaw(a: string, b: string, whitelist: map<string, bool>)
    requires Ordinary(a) && Ordinary(b)
    requires CheckBase(a + "'\\'|" + b, whitelist) == Accepted
    ensures var cmd := a + "'\\'|" + b;
            !NoEscapedClose(cmd, Bare)
            && Relaxed(cmd, whitelist) == Accepted
            && Split(cmd) == [cmd] && Strict(cmd, whitelist) == Metacharacter("pipe")
  {
    var t := "'\\'|" + b;
    assert a + t == a + "'\\'|" + b;
    EscapedCloseSplit(a, b);
    SegmentsAccepted([a + t], whitelist);
    NotBlank(a, t);
  }

  /** One of them, wherever echo is allowed. */
  lemma EchoBreaksTheLaw(whitelist: map<string, bool>)
    requires Allows(whitelist, "echo")
    ensures !LawHolds("echo " + "'\\'|" + "x", whitelist)
  {
    EchoAccepted(whitelist);
    EscapedCloseBreaksTheLaw("echo ", "x", whitelist);
    NotBlank("echo ", "'\\'|" + "x");
    assert "echo " + "'\\'|" + "x" == "echo " + ("'\\'|" + "x");
  }

  lemma EchoAccepted(whitelist: map<string, bool>)
    requires Allows(whitelist, "echo")
    ensures CheckBase("echo " + "'\\'|" + "x", whitelist) == Accepted
  {
    var tail := " '\\'|x";
    assert "" + (("" + "echo" + "") + tail) == "echo " + "'\\'|" + "x";
    assert "" + "echo" + "" == "echo";
    BaseCommandMeaning("", "", "echo", "", tail);
  }

  lemma NotBlank(a: string, t: string)
    requires t != "" && !IsSpace(t[0])
    ensures TrimSpace(a + t) != "" && !Blank(a + t)
  {
    assert (a + t)[|a|] == t[0];
    TrimSpaceEmpty(a + t);
  }

  lemma EscapedCloseSplit(a: string, b: string)
    requires Ordinary(a) && Ordinary(b)
    ensures var cmd := a + ("'\\'|" + b);
            && RelaxedScan(cmd, Bare) == None && StrictScan(cmd, Bare) == Some("pipe")
            && Split(cmd) == [cmd] && !NoEscapedClose(cmd, Bare)
  {
    OrdinaryPrefix(a, "'\\'|" + b);
    EscapedCloseScans(b);
  }

  lemma EscapedCloseScans(b: string)
    requires Ordinary(b)
    ensures var t := "'\\'|" + b;
            RelaxedScan(t, Bare) == None && StrictScan(t, Bare) == Some("pipe")
            && SplitScan(t, Bare) == [t] && !NoEscapedClose(t, Bare)
  {
    var t := "'\\'|" + b;
    assert t[1..][1..] == t[2..] && t[2..][1..] == t[3..] && t[1..][2..] == t[3..] && t[3..] == "|" + b;
    EscapedCloseChecked(t, b);
    QuotedTail(t[3..], b);
    assert t[1..3] + t[3..] == t[1..] && t[..1] + t[1..] == t;
    assert t[1..][..2] == t[1..3];
  }

  lemma EscapedCloseChecked(t: string, b: string)
    requires Ordinary(b) && t == "'\\'|" + b
    ensures RelaxedScan(t, Bare) == None && StrictScan(t, Bare) == Some("pipe")
  {
    var u, v, w := t[1..], t[2..], t[3..];
    assert u[1..] == v && v[1..] == w && w[1..] == b && w[0] == '|';
    OrdinaryPrefix(b, "");
    assert b + "" == b;
    RelaxedTableMeaning(w);
    LookupChar(STRICT_TABLE, 0, '|', w);
    assert STRICT_TABLE[0..] == STRICT_TABLE;
    assert RelaxedScan(w, Bare) == None && StrictScan(w, Bare) == Some("pipe");
    assert RelaxedScan(v, Single) == None && StrictScan(v, Single) == Some("pipe");
    assert RelaxedScan(u, Single) == None && StrictScan(u, Single) == Some("pipe");
  }

  /** Inside single quotes the splitter copies an unescaped tail. */
  lemma {:induction false} QuotedTail(s: string, b: string)
    requires Ordinary(b) && (s == b || s == "|" + b)
    ensures SplitScan(s, Single) == [s]
    decreases |s|
  {
    if s != "" {
      if s == b { QuotedTail(s[1..], b[1..]); } else { assert s[1..] == b; QuotedTail(b, b); }
      assert s[..1] + s[1..] == s;
    }
  }
}