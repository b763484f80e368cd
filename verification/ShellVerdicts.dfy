/** What the two validators of validate.go answer, and to which commands, read off the bytes of
    the command: its first word, and the banned constructs that stand unquoted in it. */
module ShellVerdicts {
  import opened Text
  import opened Shell
  import opened ShellAgreement

  // ----- the command that is run -----------------------------------------------------

  predicate AllSlashes(s: string) {
    forall i | 0 <= i < |s| :: s[i] == '/'
  }

  predicate LastNameAt(word: string, dir: string, name: string, slashes: string) {
    && word == dir + name + slashes && name != "" && '/' !in name
    && (dir == "" || dir[|dir| - 1] == '/') && AllSlashes(slashes)
  }

  /** The last name of a path; a path of slashes only is named by a slash. */
  ghost predicate LastName(word: string, name: string) {
    || (word != "" && AllSlashes(word) && name == "/")
    || exists dir, slashes :: LastNameAt(word, dir, name, slashes)
  }

  predicate FirstWord(cmd: string, lead: string, word: string, tail: string) {
    && cmd == lead + (word + tail) && Blank(lead)
    && word != "" && NoSpaces(word) && (tail == "" || IsSpace(tail[0]))
  }

  /** The command runs the program of this name: its first word is a path with this last name. */
  ghost predicate Runs(cmd: string, name: string) {
    exists lead, word, tail :: FirstWord(cmd, lead, word, tail) && LastName(word, name)
  }

  lemma {:induction false} OnlySlashes(word: string)
    requires AllSlashes(word)
    ensures StripSlashes(word) == ""
  {
    if word != "" {
      assert AllSlashes(word[..|word| - 1]);
      OnlySlashes(word[..|word| - 1]);
    }
  }

  lemma LastNameIsBase(word: string, name: string)
    requires word != "" && LastName(word, name)
    ensures FilepathBase(word) == name
  {
    if dir, slashes :| LastNameAt(word, dir, name, slashes) {
      BaseOfPath(dir, name, slashes);
    } else {
      OnlySlashes(word);
    }
  }

  lemma {:induction false} StrippedTail(word: string)
    ensures AllSlashes(word[|StripSlashes(word)|..])
  {
    if word != "" && word[|word| - 1] == '/' {
      var init := word[..|word| - 1];
      StrippedTail(init);
      assert word[|StripSlashes(word)|..] == init[|StripSlashes(init)|..] + "/";
    }
  }

  lemma {:induction false} LastElementEnds(path: string) returns (dir: string)
    ensures path == dir + LastElement(path) && (dir == "" || dir[|dir| - 1] == '/')
  {
    if path == "" || path[|path| - 1] == '/' {
      dir := path;
    } else {
      dir := LastElementEnds(path[..|path| - 1]);
      assert path == path[..|path| - 1] + [path[|path| - 1]];
    }
  }

  lemma BaseIsLastName(word: string)
    requires word != ""
    ensures LastName(word, FilepathBase(word))
  {
    var stripped := StripSlashes(word);
    if stripped == "" {
      StrippedAll(word);
    } else {
      StrippedTail(word);
      var dir := LastElementEnds(stripped);
      assert word == stripped + word[|stripped|..];
      assert LastNameAt(word, dir, LastElement(stripped), word[|stripped|..]);
    }
  }

  lemma FirstWordFields(cmd: string, lead: string, word: string, tail: string)
    requires FirstWord(cmd, lead, word, tail)
    ensures ExtractBaseCommand(cmd) == FilepathBase(word)
  {
    assert (word + tail)[0] == word[0];
    TrimLeftDrops(lead, word + tail);
    FirstFieldOfTrimmed(word, tail);
  }

  lemma {:induction false} LeadingBlanks(cmd: string) returns (lead: string, rest: string)
    ensures cmd == lead + rest && Blank(lead) && (rest == "" || !IsSpace(rest[0]))
  {
    if cmd != "" && IsSpace(cmd[0]) {
      lead, rest := LeadingBlanks(cmd[1..]);
      lead := [cmd[0]] + lead;
    } else {
      lead, rest := "", cmd;
    }
  }

  lemma {:induction false} LeadingWord(s: string) returns (word: string, tail: string)
    ensures s == word + tail && NoSpaces(word) && (tail == "" || IsSpace(tail[0]))
  {
    if s == "" || IsSpace(s[0]) {
      word, tail := "", s;
    } else {
      word, tail := LeadingWord(s[1..]);
      word := [s[0]] + word;
    }
  }

  /** Every command that is not blank has a first word. */
  lemma HasFirstWord(cmd: string) returns (lead: string, word: string, tail: string)
    requires !Blank(cmd)
    ensures FirstWord(cmd, lead, word, tail)
  {
    var rest;
    lead, rest := LeadingBlanks(cmd);
    assert rest == "" ==> cmd == lead;
    word, tail := LeadingWord(rest);
    assert word == "" ==> rest == tail;
  }

  lemma FirstWordNotBlank(cmd: string, lead: string, word: string, tail: string)
    requires FirstWord(cmd, lead, word, tail)
    ensures !Blank(cmd)
  {
    assert cmd[|lead|] == word[0];
  }

  /** The base command of every text: none if it is blank, and else the one program it runs. */
  lemma RunsMeaning(cmd: string, name: string)
    ensures Runs(cmd, name) <==> !Blank(cmd) && ExtractBaseCommand(cmd) == name
    ensures Blank(cmd) <==> ExtractBaseCommand(cmd) == ""
  {
    TrimSpaceEmpty(cmd);
    if Runs(cmd, name) {
      var lead, word, tail :| FirstWord(cmd, lead, word, tail) && LastName(word, name);
      FirstWordFields(cmd, lead, word, tail);
      LastNameIsBase(word, name);
      FirstWordNotBlank(cmd, lead, word, tail);
    }
    if !Blank(cmd) && ExtractBaseCommand(cmd) == name {
      var lead, word, tail := HasFirstWord(cmd);
      FirstWordFields(cmd, lead, word, tail);
      BaseIsLastName(word);
    }
  }

  /** The program it runs is on the list. */
  ghost predicate RunsAllowed(cmd: string, whitelist: map<string, bool>) {
    exists name | name in whitelist && whitelist[name] :: Runs(cmd, name)
  }

  /** The program it runs is this one, and it is not on the list. */
  ghost predicate RunsRefused(cmd: string, whitelist: map<string, bool>, name: string) {
    Runs(cmd, name) && !(name in whitelist && whitelist[name])
  }

  /** The last test of both validators, on a text that is not blank. */
  lemma BaseVerdict(seg: string, whitelist: map<string, bool>, v: Verdict)
    requires !Blank(seg)
    ensures CheckBase(seg, whitelist) == v <==>
            match v
            case Accepted => RunsAllowed(seg, whitelist)
            case NotAllowed(name) => RunsRefused(seg, whitelist, name)
            case _ => false
  {
    var base := ExtractBaseCommand(seg);
    RunsMeaning(seg, base);
    if RunsAllowed(seg, whitelist) {
      var name :| name in whitelist && whitelist[name] && Runs(seg, name);
      RunsMeaning(seg, name);
    }
    if v.NotAllowed? {
      RunsMeaning(seg, v.base);
    }
    var lead, word, tail := HasFirstWord(seg);
    FirstWordFields(seg, lead, word, tail);
  }

  // ----- the metacharacter that is reported ------------------------------------------

  /** What the construct at the head of the text is called. */
  function ConstructName(s: string): string
    requires s != ""
  {
    match s[0]
    case '|' => "pipe"
    case ';' => "semicolon"
    case '&' => "ampersand"
    case '`' => "backtick"
    case '<' => "redirect_read"
    case '>' => if |s| > 1 && s[1] == '>' then "redirect_append" else "redirect_write"
    case _ => "command_substitution"
  }

  lemma StrictName(s: string)
    requires Lookup(STRICT_TABLE, s).Some?
    ensures s != "" && Lookup(STRICT_TABLE, s).value.name == ConstructName(s)
  {
    var t := STRICT_TABLE;
    StrictTableMeaning(s);
    assert t[0..] == t;
    LookupChar(t, 0, '|', s);
    LookupChar(t, 1, ';', s);
    LookupChar(t, 2, '&', s);
    LookupTwo(t, 3, '$', '(', s);
    if Lookup(t[4..], s).Some? {
      StrictNameTail(s);
    }
  }

  lemma StrictNameTail(s: string)
    requires Lookup(STRICT_TABLE[4..], s).Some?
    ensures s != "" && Lookup(STRICT_TABLE[4..], s).value.name == ConstructName(s)
  {
    var t := STRICT_TABLE;
    assert t[8..] == [];
    LookupChar(t, 4, '`', s);
    LookupTwo(t, 5, '>', '>', s);
    LookupChar(t, 6, '>', s);
    LookupChar(t, 7, '<', s);
  }

  lemma RelaxedName(s: string)
    requires Lookup(RELAXED_TABLE, s).Some?
    ensures s != "" && Lookup(RELAXED_TABLE, s).value.name == ConstructName(s)
  {
    var t := RELAXED_TABLE;
    RelaxedTableMeaning(s);
    assert t[0..] == t && t[7..] == [];
    LookupTwo(t, 0, '$', '(', s);
    LookupChar(t, 1, '`', s);
    LookupTwo(t, 2, '>', '>', s);
    LookupChar(t, 3, '>', s);
    LookupChar(t, 4, '<', s);
    LookupChar(t, 5, ';', s);
    LookupChar(t, 6, '&', s);
  }

  predicate FirstStrictHit(s: string, q: Quote, i: int) {
    StrictHitAt(s, q, i) && forall j | 0 <= j < i :: !StrictHitAt(s, q, j)
  }

  predicate FirstRelaxedHit(s: string, q: Quote, i: int) {
    RelaxedHitAt(s, q, i) && forall j | 0 <= j < i :: !RelaxedHitAt(s, q, j)
  }

  lemma ShiftFirst(s: string, n: nat, q: Quote, q': Quote, i: nat)
    requires n <= |s| && CheckerMarks(s, q)[n..] == CheckerMarks(s[n..], q')
    requires forall j | 0 <= j < n :: !StrictHitAt(s, q, j)
    requires FirstStrictHit(s[n..], q', i)
    ensures FirstStrictHit(s, q, n + i) && s[n + i..] == s[n..][i..]
  {
    forall j: nat | n <= j <= n + i && j < |s| ensures StrictHitAt(s, q, j) <==> StrictHitAt(s[n..], q', j - n) {
      assert s[n..][j - n..] == s[j..] && CheckerMarks(s, q)[n..][j - n] == CheckerMarks(s, q)[j];
    }
  }

  lemma {:induction false} StrictFirst(s: string, q: Quote) returns (i: nat)
    requires StrictScan(s, q).Some?
    ensures FirstStrictHit(s, q, i) && StrictScan(s, q) == Some(ConstructName(s[i..]))
    decreases |s|
  {
    if IsToggle(q, s[0]) {
      i := StrictFirst(s[1..], Toggled(q, s[0]));
      ShiftFirst(s, 1, q, Toggled(q, s[0]), i);
      i := 1 + i;
    } else if q != Bare {
      i := StrictFirst(s[1..], q);
      ShiftFirst(s, 1, q, q, i);
      i := 1 + i;
    } else if s[0] == '\\' && |s| > 1 {
      i := StrictFirst(s[2..], q);
      ShiftFirst(s, 2, q, q, i);
      i := 2 + i;
    } else {
      StrictTableMeaning(s);
      assert s[0..] == s;
      if Lookup(STRICT_TABLE, s).Some? {
        StrictName(s);
        i := 0;
      } else {
        i := StrictFirst(s[1..], q);
        ShiftFirst(s, 1, q, q, i);
        i := 1 + i;
      }
    }
  }

  lemma ShiftFirstRelaxed(s: string, n: nat, q: Quote, q': Quote, i: nat)
    requires n <= |s| && CheckerMarks(s, q)[n..] == CheckerMarks(s[n..], q')
    requires !OddAndsBefore(s, CheckerMarks(s, q), n)
    requires forall j | 0 <= j < n :: !RelaxedHitAt(s, q, j)
    requires FirstRelaxedHit(s[n..], q', i)
    ensures FirstRelaxedHit(s, q, n + i) && s[n + i..] == s[n..][i..]
  {
    forall j: nat | n <= j <= n + i && j < |s| ensures RelaxedHitAt(s, q, j) <==> RelaxedHitAt(s[n..], q', j - n) {
      RelaxedHitShift(s, n, q, q', j);
    }
  }

  lemma {:induction false} RelaxedFirst(s: string, q: Quote) returns (i: nat)
    requires RelaxedScan(s, q).Some?
    ensures FirstRelaxedHit(s, q, i) && RelaxedScan(s, q) == Some(ConstructName(s[i..]))
    decreases |s|
  {
    if IsToggle(q, s[0]) {
      i := RelaxedFirst(s[1..], Toggled(q, s[0]));
      ShiftFirstRelaxed(s, 1, q, Toggled(q, s[0]), i);
      i := 1 + i;
    } else if q != Bare {
      i := RelaxedFirst(s[1..], q);
      ShiftFirstRelaxed(s, 1, q, q, i);
      i := 1 + i;
    } else if s[0] == '\\' && |s| > 1 {
      i := RelaxedFirst(s[2..], q);
      ShiftFirstRelaxed(s, 2, q, q, i);
      i := 2 + i;
    } else {
      i := RelaxedFirstBare(s);
    }
  }

  lemma {:induction false} RelaxedFirstBare(s: string) returns (i: nat)
    requires s != "" && !IsToggle(Bare, s[0]) && !(s[0] == '\\' && |s| > 1) && RelaxedScan(s, Bare).Some?
    ensures FirstRelaxedHit(s, Bare, i) && RelaxedScan(s, Bare) == Some(ConstructName(s[i..]))
    decreases |s|, 0
  {
    RelaxedTableMeaning(s);
    assert s[0..] == s;
    if CommonHit(s) || (s[0] == '&' && !IsAnd(s)) {
      RelaxedName(s);
      i := 0;
    } else if IsAnd(s) {
      i := RelaxedFirst(s[2..], Bare);
      PairIsNoHit(s);
      ShiftFirstRelaxed(s, 2, Bare, Bare, i);
      i := 2 + i;
    } else {
      i := RelaxedFirst(s[1..], Bare);
      ShiftFirstRelaxed(s, 1, Bare, Bare, i);
      i := 1 + i;
    }
  }

  /** The strict checker names the first banned construct that is neither quoted nor escaped. */
  lemma StrictReport(s: string, name: string)
    ensures StrictScan(s, Bare) == Some(name)
            <==> exists i :: FirstStrictHit(s, Bare, i) && name == ConstructName(s[i..])
  {
    StrictMeaning(s, Bare);
    if StrictScan(s, Bare).Some? {
      var i := StrictFirst(s, Bare);
      forall j | FirstStrictHit(s, Bare, j) ensures i == j {
      }
    }
  }

  lemma RelaxedReport(s: string, name: string)
    ensures RelaxedScan(s, Bare) == Some(name)
            <==> exists i :: FirstRelaxedHit(s, Bare, i) && name == ConstructName(s[i..])
  {
    RelaxedMeaning(s, Bare);
    if RelaxedScan(s, Bare).Some? {
      var i := RelaxedFirst(s, Bare);
      forall j | FirstRelaxedHit(s, Bare, j) ensures i == j {
      }
    }
  }

  // ----- the verdicts ------------------------------------------------------------------

  /** The strict validator, verdict by verdict: a blank command is empty; otherwise the first
      banned construct outside quotes and escapes is reported; otherwise the program that the
      command runs must be on the list. */
  lemma StrictVerdict(cmd: string, whitelist: map<string, bool>, v: Verdict)
    ensures Strict(cmd, whitelist) == v <==>
            match v
            case EmptyCommand => Blank(cmd)
            case Metacharacter(name) =>
              !Blank(cmd) && exists i :: FirstStrictHit(cmd, Bare, i) && name == ConstructName(cmd[i..])
            case Accepted => (forall i :: !StrictHitAt(cmd, Bare, i)) && RunsAllowed(cmd, whitelist)
            case NotAllowed(name) => (forall i :: !StrictHitAt(cmd, Bare, i)) && RunsRefused(cmd, whitelist, name)
            case NoBaseCommand => false
  {
    TrimSpaceEmpty(cmd);
    StrictMeaning(cmd, Bare);
    if v.Metacharacter? {
      StrictReport(cmd, v.name);
    }
    if Blank(cmd) {
      BlankRunsNothing(cmd, whitelist, v);
    } else {
      BaseVerdict(cmd, whitelist, v);
    }
  }

  lemma BlankRunsNothing(cmd: string, whitelist: map<string, bool>, v: Verdict)
    requires Blank(cmd)
    ensures !RunsAllowed(cmd, whitelist)
    ensures v.NotAllowed? ==> !RunsRefused(cmd, whitelist, v.base)
  {
    forall name ensures !Runs(cmd, name) {
      RunsMeaning(cmd, name);
    }
  }

  /** Segment k is the first that runs a program which is not on the list: this one. */
  ghost predicate FirstRefused(segs: seq<string>, whitelist: map<string, bool>, k: int, name: string) {
    && 0 <= k < |segs| && RunsRefused(segs[k], whitelist, name)
    && forall j | 0 <= j < k :: Blank(segs[j]) || RunsAllowed(segs[j], whitelist)
  }

  ghost predicate AllAllowed(segs: seq<string>, whitelist: map<string, bool>) {
    forall k | 0 <= k < |segs| :: Blank(segs[k]) || RunsAllowed(segs[k], whitelist)
  }

  /** The relaxed validator: the same, with its own list of constructs, and each segment that is
      not blank must run a program on the list; the first that does not is reported. */
  lemma RelaxedVerdict(cmd: string, whitelist: map<string, bool>, v: Verdict)
    ensures Relaxed(cmd, whitelist) == v <==>
            match v
            case EmptyCommand => Blank(cmd)
            case Metacharacter(name) =>
              !Blank(cmd) && exists i :: FirstRelaxedHit(cmd, Bare, i) && name == ConstructName(cmd[i..])
            case Accepted =>
              !Blank(cmd) && (forall i :: !RelaxedHitAt(cmd, Bare, i)) && AllAllowed(Split(cmd), whitelist)
            case NotAllowed(name) =>
              && !Blank(cmd) && (forall i :: !RelaxedHitAt(cmd, Bare, i))
              && exists k :: FirstRefused(Split(cmd), whitelist, k, name)
            case NoBaseCommand => false
  {
    TrimSpaceEmpty(cmd);
    RelaxedMeaning(cmd, Bare);
    if v.Metacharacter? {
      RelaxedReport(cmd, v.name);
    }
    SegmentsVerdict(Split(cmd), whitelist, v);
  }

  lemma {:induction false} SegmentsVerdict(segs: seq<string>, whitelist: map<string, bool>, v: Verdict)
    ensures CheckSegments(segs, whitelist) == v <==>
            match v
            case Accepted => AllAllowed(segs, whitelist)
            case NotAllowed(name) => exists k :: FirstRefused(segs, whitelist, k, name)
            case _ => false
  {
    if segs != [] {
      SegmentsVerdict(segs[1..], whitelist, v);
      FirstSegmentVerdict(segs, whitelist, v);
    }
  }

  lemma FirstSegmentVerdict(segs: seq<string>, whitelist: map<string, bool>, v: Verdict)
    requires segs != []
    requires CheckSegments(segs[1..], whitelist) == v <==>
             match v
             case Accepted => AllAllowed(segs[1..], whitelist)
             case NotAllowed(name) => exists k :: FirstRefused(segs[1..], whitelist, k, name)
             case _ => false
    ensures CheckSegments(segs, whitelist) == v <==>
            match v
            case Accepted => AllAllowed(segs, whitelist)
            case NotAllowed(name) => exists k :: FirstRefused(segs, whitelist, k, name)
            case _ => false
  {
    var seg := segs[0];
    TrimSpaceEmpty(seg);
    assert CheckBase(TrimSpace(seg), whitelist) == CheckBase(seg, whitelist);
    if Blank(seg) {
      BlankRunsNothing(seg, whitelist, v);
    } else {
      BaseVerdict(seg, whitelist, v);
      BaseVerdict(seg, whitelist, Accepted);
    }
    AllAllowedStep(segs, whitelist);
    if v.NotAllowed? {
      FirstRefusedStep(segs, whitelist, v.base);
    }
  }

  lemma AllAllowedStep(segs: seq<string>, whitelist: map<string, bool>)
    requires segs != []
    ensures AllAllowed(segs, whitelist)
            <==> (Blank(segs[0]) || RunsAllowed(segs[0], whitelist)) && AllAllowed(segs[1..], whitelist)
  {
    if AllAllowed(segs[1..], whitelist) {
      assert forall k | 1 <= k < |segs| :: segs[k] == segs[1..][k - 1];
    }
  }

  lemma FirstRefusedStep(segs: seq<string>, whitelist: map<string, bool>, name: string)
    requires segs != []
    ensures (exists k :: FirstRefused(segs, whitelist, k, name))
            <==> RunsRefused(segs[0], whitelist, name)
                 || ((Blank(segs[0]) || RunsAllowed(segs[0], whitelist))
                     && exists k :: FirstRefused(segs[1..], whitelist, k, name))
  {
    if RunsRefused(segs[0], whitelist, name) {
      assert FirstRefused(segs, whitelist, 0, name);
    }
    if k :| FirstRefused(segs, whitelist, k, name) && k > 0 {
      assert FirstRefused(segs[1..], whitelist, k - 1, name);
    }
    if k :| FirstRefused(segs[1..], whitelist, k, name) && (Blank(segs[0]) || RunsAllowed(segs[0], whitelist)) {
      forall j | 0 <= j < k + 1 ensures Blank(segs[j]) || RunsAllowed(segs[j], whitelist) {
        assert j > 0 ==> segs[j] == segs[1..][j - 1];
      }
      assert FirstRefused(segs, whitelist, k + 1, name);
    }
  }

  /** Plain commands: a name of small letters and ordinary arguments, run just when the name is on
      the list, alone and as a segment. */
  lemma PlainCommandVerdict(name: string, args: string, whitelist: map<string, bool>)
    requires name != "" && (forall i | 0 <= i < |name| :: 'a' <= name[i] <= 'z') && Ordinary(args)
    ensures var v := if name in whitelist && whitelist[name] then Accepted else NotAllowed(name);
            var cmd := name + (" " + args);
            Strict(cmd, whitelist) == v && Relaxed(cmd, whitelist) == v
  {
    var cmd := name + (" " + args);
    PlainScans(cmd);
    PlainRuns(name, args);
    RunsMeaning(cmd, name);
    OneSegment(cmd, whitelist);
  }

  lemma OneSegment(cmd: string, whitelist: map<string, bool>)
    requires !Blank(cmd) && StrictScan(cmd, Bare) == None && RelaxedScan(cmd, Bare) == None && Split(cmd) == [cmd]
    ensures Strict(cmd, whitelist) == CheckBase(cmd, whitelist) == Relaxed(cmd, whitelist)
  {
    TrimSpaceEmpty(cmd);
    LastSegment(cmd, whitelist);
  }

  lemma LastSegment(seg: string, whitelist: map<string, bool>)
    requires !Blank(seg)
    ensures CheckSegments([seg], whitelist) == CheckBase(seg, whitelist)
  {
    var trimmed := TrimSpace(seg);
    TrimSpaceEmpty(seg);
    assert TrimSpace(trimmed) == trimmed;
    assert ExtractBaseCommand(trimmed) == ExtractBaseCommand(seg);
  }

  lemma PlainScans(cmd: string)
    requires Ordinary(cmd)
    ensures StrictScan(cmd, Bare) == None && RelaxedScan(cmd, Bare) == None && Split(cmd) == [cmd]
  {
    OrdinaryPrefix(cmd, "");
    assert cmd + "" == cmd;
  }

  lemma PlainRuns(name: string, args: string)
    requires name != "" && (forall i | 0 <= i < |name| :: 'a' <= name[i] <= 'z')
    ensures Runs(name + (" " + args), name)
  {
    assert "" + name + "" == name && "" + (name + (" " + args)) == name + (" " + args);
    assert LastNameAt(name, "", name, "");
    assert FirstWord(name + (" " + args), "", name, " " + args);
  }

  // ----- quotes and escapes ------------------------------------------------------------

  function Repeat(mark: Mark, n: nat): seq<Mark> {
    if n == 0 then [] else [mark] + Repeat(mark, n - 1)
  }

  lemma {:induction false} QuotedUpTo(q: Quote, c: char, t: string, rest: string)
    requires (q == Single && c == '\'') || (q == Double && c == '"')
    requires c !in t
    ensures CheckerMarks(t + ([c] + rest), q) == Repeat(Quoted, |t|) + ([Quoting] + CheckerMarks(rest, Bare))
    ensures CheckerMarks(t, q) == Repeat(Quoted, |t|)
  {
    var s := t + ([c] + rest);
    if t == "" {
      assert s[0] == c && s[1..] == rest;
    } else {
      QuotedUpTo(q, c, t[1..], rest);
      assert s[0] == t[0] && s[1..] == t[1..] + ([c] + rest);
    }
  }

  /** How the checkers read a text outside quotes, by its first bytes: from a quote, single or
      double, to the next of its kind everything is quoted, whatever it is; a backslash escapes
      the byte after it; any other byte stands for itself. */
  lemma MarksMeaning(c: char, t: string, rest: string)
    requires c == '\'' || c == '"' ==> c !in t
    requires c == '\\' ==> |t| == 1
    ensures c == '\'' || c == '"' ==>
              CheckerMarks([c] + (t + ([c] + rest)), Bare)
              == [Quoting] + (Repeat(Quoted, |t|) + ([Quoting] + CheckerMarks(rest, Bare)))
    ensures c == '\'' || c == '"' ==> CheckerMarks([c] + t, Bare) == [Quoting] + Repeat(Quoted, |t|)
    ensures c == '\\' ==> CheckerMarks([c] + (t + rest), Bare) == [Escape, Escape] + CheckerMarks(rest, Bare)
    ensures c != '\'' && c != '"' && c != '\\' ==> CheckerMarks([c] + rest, Bare) == [Plain] + CheckerMarks(rest, Bare)
  {
    var s := [c] + (t + ([c] + rest));
    assert s[1..] == t + ([c] + rest) && ([c] + t)[1..] == t && ([c] + rest)[1..] == rest;
    if c == '\'' {
      QuotedUpTo(Single, c, t, rest);
    } else if c == '"' {
      QuotedUpTo(Double, c, t, rest);
    } else if c == '\\' {
      assert ([c] + (t + rest))[2..] == rest;
    }
  }
}
