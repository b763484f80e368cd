/** internal/command/validate.go: the three quote-aware scanners (strict check, relaxed
    check, operator splitter) and the two validators built on them. */
module Shell {
  import opened Text

  // ----- quote state -------------------------------------------------------------

  /** The flags inSingle and inDouble, which are never both set. */
  datatype Quote = Bare | Single | Double

  predicate IsToggle(q: Quote, c: char) {
    (c == '\'' && q != Double) || (c == '"' && q != Single)
  }

  function Toggled(q: Quote, c: char): Quote
    requires IsToggle(q, c)
  {
    if q != Bare then Bare else if c == '\'' then Single else Double
  }

  function QuoteOf(inSingle: bool, inDouble: bool): Quote {
    if inSingle then Single else if inDouble then Double else Bare
  }

  // ----- metacharacter tables ------------------------------------------------------

  datatype Meta = Meta(pat: string, name: string, allowWhenDoubled: bool)

  const STRICT_TABLE: seq<Meta> := [
    Meta("|", "pipe", false),
    Meta(";", "semicolon", false),
    Meta("&", "ampersand", false),
    Meta("$(", "command_substitution", false),
    Meta("`", "backtick", false),
    Meta(">>", "redirect_append", false),
    Meta(">", "redirect_write", false),
    Meta("<", "redirect_read", false)
  ]

  const RELAXED_TABLE: seq<Meta> := [
    Meta("$(", "command_substitution", false),
    Meta("`", "backtick", false),
    Meta(">>", "redirect_append", false),
    Meta(">", "redirect_write", false),
    Meta("<", "redirect_read", false),
    Meta(";", "semicolon", false),
    Meta("&", "ampersand", true)
  ]

  /** First entry of the table whose pattern is a prefix of s. */
  function Lookup(table: seq<Meta>, s: string): Option<Meta> {
    if table == [] then None
    else if table[0].pat <= s then Some(table[0])
    else Lookup(table[1..], s)
  }

  /** A banned construct that both tables know, whatever its name. */
  predicate CommonHit(s: string) {
    s != "" && (s[0] == ';' || s[0] == '`' || s[0] == '>' || s[0] == '<' || (|s| > 1 && s[0] == '$' && s[1] == '('))
  }

  lemma LookupChar(table: seq<Meta>, k: nat, c: char, s: string)
    requires k < |table| && table[k].pat == [c]
    ensures Lookup(table[k..], s) == if s != "" && s[0] == c then Some(table[k]) else Lookup(table[k + 1..], s)
  {
  }

  lemma LookupTwo(table: seq<Meta>, k: nat, c: char, d: char, s: string)
    requires k < |table| && table[k].pat == [c, d]
    ensures Lookup(table[k..], s) ==
            if |s| > 1 && s[0] == c && s[1] == d then Some(table[k]) else Lookup(table[k + 1..], s)
  {
  }

  lemma StrictTableMeaning(s: string)
    ensures Lookup(STRICT_TABLE, s).Some? <==> CommonHit(s) || (s != "" && (s[0] == '|' || s[0] == '&'))
  {
    var t := STRICT_TABLE;
    assert t[0..] == t;
    LookupChar(t, 0, '|', s);
    LookupChar(t, 1, ';', s);
    LookupChar(t, 2, '&', s);
    LookupTwo(t, 3, '$', '(', s);
    StrictTableTail(s);
  }

  lemma StrictTableTail(s: string)
    ensures Lookup(STRICT_TABLE[4..], s).Some? <==> s != "" && (s[0] == '`' || s[0] == '>' || s[0] == '<')
  {
    var t := STRICT_TABLE;
    assert t[8..] == [];
    LookupChar(t, 4, '`', s);
    LookupTwo(t, 5, '>', '>', s);
    LookupChar(t, 6, '>', s);
    LookupChar(t, 7, '<', s);
  }

  lemma RelaxedTableMeaning(s: string)
    ensures CommonHit(s) ==> Lookup(RELAXED_TABLE, s).Some? && !Lookup(RELAXED_TABLE, s).value.allowWhenDoubled
    ensures !CommonHit(s) && s != "" && s[0] == '&' ==> Lookup(RELAXED_TABLE, s) == Some(RELAXED_TABLE[6])
    ensures !CommonHit(s) && (s == "" || s[0] != '&') ==> Lookup(RELAXED_TABLE, s) == None
  {
    var t := RELAXED_TABLE;
    assert t[0..] == t && t[7..] == [];
    LookupTwo(t, 0, '$', '(', s);
    LookupChar(t, 1, '`', s);
    LookupTwo(t, 2, '>', '>', s);
    LookupChar(t, 3, '>', s);
    LookupChar(t, 4, '<', s);
    LookupChar(t, 5, ';', s);
    LookupChar(t, 6, '&', s);
  }

  // ----- the two checkers ----------------------------------------------------------

  /** Name of the first metacharacter the strict checker stops at. */
  function StrictScan(s: string, q: Quote): Option<string>
    decreases |s|
  {
    if s == "" then None
    else if IsToggle(q, s[0]) then StrictScan(s[1..], Toggled(q, s[0]))
    else if q != Bare then StrictScan(s[1..], q)
    else if s[0] == '\\' && |s| > 1 then StrictScan(s[2..], q)
    else match Lookup(STRICT_TABLE, s)
      case Some(mc) => Some(mc.name)
      case None => StrictScan(s[1..], q)
  }

  /** Name of the first metacharacter the relaxed checker stops at. */
  function RelaxedScan(s: string, q: Quote): Option<string>
    decreases |s|
  {
    if s == "" then None
    else if IsToggle(q, s[0]) then RelaxedScan(s[1..], Toggled(q, s[0]))
    else if q != Bare then RelaxedScan(s[1..], q)
    else if s[0] == '\\' && |s| > 1 then RelaxedScan(s[2..], q)
    else match Lookup(RELAXED_TABLE, s)
      case None => RelaxedScan(s[1..], q)
      case Some(mc) =>
        if mc.allowWhenDoubled && mc.pat != "" && mc.pat + mc.pat <= s then RelaxedScan(s[2..], q)
        else Some(mc.name)
  }

  method HasShellMetacharacters(cmd: string) returns (has: bool, name: string)
    ensures has == StrictScan(cmd, Bare).Some?
    ensures name == if has then StrictScan(cmd, Bare).value else ""
  {
    var inSingle, inDouble := false, false;
    var i := 0;
    while i < |cmd|
      invariant 0 <= i <= |cmd|
      invariant !(inSingle && inDouble)
      invariant StrictScan(cmd[i..], QuoteOf(inSingle, inDouble)) == StrictScan(cmd, Bare)
    {
      var ch := cmd[i];
      var remaining := cmd[i..];
      assert remaining[1..] == cmd[i + 1..] && remaining[0] == ch;
      if ch == '\'' && !inDouble {
        inSingle := !inSingle;
      } else if ch == '"' && !inSingle {
        inDouble := !inDouble;
      } else if inSingle || inDouble {
      } else if ch == '\\' && i + 1 < |cmd| {
        assert remaining[2..] == cmd[i + 2..];
        i := i + 1;
      } else {
        var k := 0;
        while k < |STRICT_TABLE|
          invariant 0 <= k <= |STRICT_TABLE|
          invariant Lookup(STRICT_TABLE[k..], remaining) == Lookup(STRICT_TABLE, remaining)
        {
          assert STRICT_TABLE[k..][1..] == STRICT_TABLE[k + 1..];
          if STRICT_TABLE[k].pat <= remaining {
            return true, STRICT_TABLE[k].name;
          }
          k := k + 1;
        }
      }
      i := i + 1;
    }
    return false, "";
  }

  method HasRelaxedMetacharacters(cmd: string) returns (has: bool, name: string)
    ensures has == RelaxedScan(cmd, Bare).Some?
    ensures name == if has then RelaxedScan(cmd, Bare).value else ""
  {
    var inSingle, inDouble := false, false;
    var i := 0;
    while i < |cmd|
      invariant 0 <= i <= |cmd|
      invariant !(inSingle && inDouble)
      invariant RelaxedScan(cmd[i..], QuoteOf(inSingle, inDouble)) == RelaxedScan(cmd, Bare)
    {
      var ch := cmd[i];
      var remaining := cmd[i..];
      assert remaining[1..] == cmd[i + 1..] && remaining[0] == ch;
      if ch == '\'' && !inDouble {
        inSingle := !inSingle;
      } else if ch == '"' && !inSingle {
        inDouble := !inDouble;
      } else if inSingle || inDouble {
      } else if ch == '\\' && i + 1 < |cmd| {
        assert remaining[2..] == cmd[i + 2..];
        i := i + 1;
      } else {
        RelaxedTableMeaning(remaining);
        var k := 0;
        while k < |RELAXED_TABLE|
          invariant 0 <= k <= |RELAXED_TABLE|
          invariant Lookup(RELAXED_TABLE[k..], remaining) == Lookup(RELAXED_TABLE, remaining)
        {
          assert RELAXED_TABLE[k..][1..] == RELAXED_TABLE[k + 1..];
          var mc := RELAXED_TABLE[k];
          if mc.pat <= remaining {
            if mc.allowWhenDoubled && mc.pat + mc.pat <= remaining {
              break;
            }
            return true, mc.name;
          }
          k := k + 1;
        }
        if k < |RELAXED_TABLE| {
          assert remaining[2..] == cmd[i + 2..];
          i := i + 1;
        }
      }
      i := i + 1;
    }
    return false, "";
  }

  // ----- the splitter --------------------------------------------------------------

  /** The two bytes && at the head of s. */
  predicate IsAnd(s: string) {
    |s| > 1 && s[0] == '&' && s[1] == '&'
  }

  /** Puts p in front of the first segment. */
  function Push(p: string, segs: seq<string>): (r: seq<string>)
    requires |segs| >= 1
    ensures |r| == |segs| && r[0] == p + segs[0] && r[1..] == segs[1..]
  {
    [p + segs[0]] + segs[1..]
  }

  function SplitScan(s: string, q: Quote): (r: seq<string>)
    ensures |r| >= 1
    decreases |s|
  {
    if s == "" then [""]
    else if IsToggle(q, s[0]) then Push(s[..1], SplitScan(s[1..], Toggled(q, s[0])))
    else if s[0] == '\\' && |s| > 1 then Push(s[..2], SplitScan(s[2..], q))
    else if q == Bare && s[0] == '|' then [""] + SplitScan(s[1..], q)
    else if q == Bare && IsAnd(s) then [""] + SplitScan(s[2..], q)
    else Push(s[..1], SplitScan(s[1..], q))
  }

  /** The operators the splitter dropped, in order. */
  function Operators(s: string, q: Quote): (r: seq<string>)
    ensures |r| == |SplitScan(s, q)| - 1
    decreases |s|
  {
    if s == "" then []
    else if IsToggle(q, s[0]) then Operators(s[1..], Toggled(q, s[0]))
    else if s[0] == '\\' && |s| > 1 then Operators(s[2..], q)
    else if q == Bare && s[0] == '|' then ["|"] + Operators(s[1..], q)
    else if q == Bare && IsAnd(s) then ["&&"] + Operators(s[2..], q)
    else Operators(s[1..], q)
  }

  function Split(s: string): (r: seq<string>)
    ensures |r| >= 1
  {
    SplitScan(s, Bare)
  }

  /** What the loop still has to produce: the finished segments, then the current one
      continued by the split of the rest. */
  ghost function Progress(done: seq<string>, current: string, rest: string, q: Quote): seq<string> {
    done + Push(current, SplitScan(rest, q))
  }

  method SplitByOperators(cmd: string) returns (segments: seq<string>)
    ensures segments == Split(cmd)
  {
    segments := [];
    var current := "";
    var inSingle, inDouble := false, false;
    var i := 0;
    assert cmd[0..] == cmd;
    PushNothing(Split(cmd));
    while i < |cmd|
      invariant 0 <= i <= |cmd|
      invariant !(inSingle && inDouble)
      invariant Progress(segments, current, cmd[i..], QuoteOf(inSingle, inDouble)) == Split(cmd)
    {
      var ch := cmd[i];
      ghost var rest, q := cmd[i..], QuoteOf(inSingle, inDouble);
      assert rest[1..] == cmd[i + 1..] && rest[0] == ch && rest[..1] == [ch];
      if ch == '\'' && !inDouble {
        inSingle := !inSingle;
        ProgressWrite(segments, current, rest, q);
        current := current + [ch];
        i := i + 1;
        continue;
      }
      if ch == '"' && !inSingle {
        inDouble := !inDouble;
        ProgressWrite(segments, current, rest, q);
        current := current + [ch];
        i := i + 1;
        continue;
      }
      if ch == '\\' && i + 1 < |cmd| {
        ProgressEscape(segments, current, rest, q);
        assert rest[2..] == cmd[i + 2..] && (current + [ch]) + [cmd[i + 1]] == current + rest[..2];
        current := current + [ch];
        i := i + 1;
        current := current + [cmd[i]];
        i := i + 1;
        continue;
      }
      if !inSingle && !inDouble {
        if ch == '|' {
          ProgressCut(segments, current, rest, 1);
          segments := segments + [current];
          current := "";
          i := i + 1;
          continue;
        }
        if ch == '&' && i + 1 < |cmd| && cmd[i + 1] == '&' {
          assert rest[2..] == cmd[i + 2..];
          ProgressCut(segments, current, rest, 2);
          segments := segments + [current];
          current := "";
          i := i + 2;
          continue;
        }
      }
      ProgressWrite(segments, current, rest, q);
      current := current + [ch];
      i := i + 1;
    }
    assert cmd[i..] == "";
    assert current + "" == current;
    segments := segments + [current];
  }

  lemma ProgressWrite(done: seq<string>, current: string, rest: string, q: Quote)
    requires rest != ""
    requires !IsToggle(q, rest[0]) ==>
               !(rest[0] == '\\' && |rest| > 1) && !(q == Bare && (rest[0] == '|' || IsAnd(rest)))
    ensures Progress(done, current, rest, q) ==
            Progress(done, current + [rest[0]], rest[1..], if IsToggle(q, rest[0]) then Toggled(q, rest[0]) else q)
  {
    assert rest[..1] == [rest[0]];
    PushPush(current, rest[..1], SplitScan(rest[1..], if IsToggle(q, rest[0]) then Toggled(q, rest[0]) else q));
  }

  lemma ProgressEscape(done: seq<string>, current: string, rest: string, q: Quote)
    requires |rest| > 1 && rest[0] == '\\'
    ensures Progress(done, current, rest, q) == Progress(done, current + rest[..2], rest[2..], q)
  {
    PushPush(current, rest[..2], SplitScan(rest[2..], q));
  }

  lemma ProgressCut(done: seq<string>, current: string, rest: string, n: nat)
    requires (n == 1 && rest != "" && rest[0] == '|') || (n == 2 && IsAnd(rest))
    ensures Progress(done, current, rest, Bare) == Progress(done + [current], "", rest[n..], Bare)
  {
    CutPush(current, SplitScan(rest[n..], Bare));
    CutDone(done, current, SplitScan(rest[n..], Bare));
  }

  lemma CutPush(current: string, segs: seq<string>)
    requires |segs| >= 1
    ensures Push(current, [""] + segs) == [current] + segs && Push("", segs) == segs
  {
    assert current + "" == current;
    assert ([""] + segs)[1..] == segs;
    PushNothing(segs);
  }

  lemma CutDone(done: seq<string>, current: string, segs: seq<string>)
    ensures done + ([current] + segs) == (done + [current]) + segs
  {
  }

  lemma PushPush(a: string, b: string, segs: seq<string>)
    requires |segs| >= 1
    ensures Push(a, Push(b, segs)) == Push(a + b, segs)
  {
    assert a + (b + segs[0]) == (a + b) + segs[0];
  }

  lemma PushNothing(segs: seq<string>)
    requires |segs| >= 1
    ensures Push("", segs) == segs
  {
    assert "" + segs[0] == segs[0];
  }

  // ----- base command and whitelists -------------------------------------------------

  function StripSlashes(path: string): (r: string)
    ensures r == "" || r[|r| - 1] != '/'
    ensures r <= path
  {
    if path != "" && path[|path| - 1] == '/' then StripSlashes(path[..|path| - 1]) else path
  }

  /** What follows the last slash. */
  function LastElement(path: string): (r: string)
    ensures '/' !in r
    ensures path != "" && path[|path| - 1] != '/' ==> r != ""
  {
    if path == "" || path[|path| - 1] == '/' then ""
    else LastElement(path[..|path| - 1]) + [path[|path| - 1]]
  }

  /** filepath.Base on a slash-separated path: never empty, and slash-free unless the path
      is made of slashes only. */
  function FilepathBase(path: string): (r: string)
    ensures r != ""
    ensures '/' in r ==> r == "/" && forall i | 0 <= i < |path| :: path[i] == '/'
  {
    if path == "" then "."
    else
      var stripped := StripSlashes(path);
      if stripped == "" then
        StrippedAll(path);
        "/"
      else LastElement(stripped)
  }

  lemma {:induction false} StrippedAll(path: string)
    requires StripSlashes(path) == ""
    ensures forall i | 0 <= i < |path| :: path[i] == '/'
  {
    if path != "" {
      StrippedAll(path[..|path| - 1]);
      forall i | 0 <= i < |path| ensures path[i] == '/' {
        if i < |path| - 1 { assert path[i] == path[..|path| - 1][i]; }
      }
    }
  }

  /** The base of a path is its last name, whatever directory it is in and however many
      slashes end it. */
  lemma {:induction false} BaseOfPath(dir: string, name: string, slashes: string)
    requires name != "" && '/' !in name
    requires dir == "" || dir[|dir| - 1] == '/'
    requires forall i | 0 <= i < |slashes| :: slashes[i] == '/'
    ensures FilepathBase(dir + name + slashes) == name
    decreases |slashes|
  {
    var path := dir + name + slashes;
    if slashes == "" {
      assert path == dir + name;
      LastElementOf(dir, name);
    } else {
      var shorter := slashes[..|slashes| - 1];
      BaseOfPath(dir, name, shorter);
      assert path[..|path| - 1] == dir + name + shorter;
      assert StripSlashes(path) == StripSlashes(dir + name + shorter);
    }
  }

  lemma {:induction false} LastElementOf(dir: string, name: string)
    requires '/' !in name
    requires dir == "" || dir[|dir| - 1] == '/'
    ensures LastElement(dir + name) == name
    decreases |name|
  {
    if name != "" {
      var shorter := name[..|name| - 1];
      LastElementOf(dir, shorter);
      assert (dir + name)[..|dir + name| - 1] == dir + shorter;
      assert (dir + name)[|dir + name| - 1] == name[|name| - 1];
      assert name == shorter + [name[|name| - 1]];
      assert name[|name| - 1] in name;
    } else {
      assert dir + name == dir;
    }
  }

  function FirstField(s: string): string {
    if s == "" || IsSpace(s[0]) then "" else [s[0]] + FirstField(s[1..])
  }

  function ExtractBaseCommand(cmd: string): string {
    var trimmed := TrimSpace(cmd);
    if trimmed == "" then "" else FilepathBase(FirstField(trimmed))
  }

  predicate NoSpaces(s: string) {
    forall i | 0 <= i < |s| :: !IsSpace(s[i])
  }

  lemma {:induction false} TrimRightKeeps(word: string, tail: string)
    requires word != "" && !IsSpace(word[|word| - 1])
    ensures word <= TrimRight(word + tail)
  {
    if tail == "" {
      assert word + tail == word;
    } else {
      var shorter := tail[..|tail| - 1];
      TrimRightKeeps(word, shorter);
      assert (word + tail)[..|word + tail| - 1] == word + shorter;
    }
  }

  lemma {:induction false} FirstFieldOf(word: string, tail: string)
    requires NoSpaces(word) && (tail == "" || IsSpace(tail[0]))
    ensures FirstField(word + tail) == word
  {
    if word == "" {
      assert word + tail == tail;
    } else {
      assert NoSpaces(word[1..]);
      FirstFieldOf(word[1..], tail);
      assert (word + tail)[1..] == word[1..] + tail && [word[0]] + word[1..] == word;
    }
  }

  lemma FirstFieldOfTrimmed(word: string, tail: string)
    requires word != "" && NoSpaces(word) && (tail == "" || IsSpace(tail[0]))
    ensures TrimRight(word + tail) != "" && FirstField(TrimRight(word + tail)) == word
  {
    TrimRightKeeps(word, tail);
    var trimmed := TrimRight(word + tail);
    var rest := trimmed[|word|..];
    assert trimmed == word + rest;
    if rest != "" {
      assert rest[0] == (word + tail)[|word|] == tail[0];
    }
    FirstFieldOf(word, rest);
  }

  /** The base command: leading blanks skipped, the first field taken, and of it the last path
      element, trailing slashes aside; whatever arguments follow. */
  lemma BaseCommandMeaning(lead: string, dir: string, name: string, slashes: string, tail: string)
    requires Blank(lead) && NoSpaces(dir + name + slashes) && (tail == "" || IsSpace(tail[0]))
    requires name != "" && '/' !in name
    requires dir == "" || dir[|dir| - 1] == '/'
    requires forall i | 0 <= i < |slashes| :: slashes[i] == '/'
    ensures ExtractBaseCommand(lead + ((dir + name + slashes) + tail)) == name
  {
    var word := dir + name + slashes;
    assert (word + tail)[0] == word[0];
    TrimLeftDrops(lead, word + tail);
    FirstFieldOfTrimmed(word, tail);
    BaseOfPath(dir, name, slashes);
  }

  /** A Go map[string]bool: a missing key reads false. */
  predicate Allows(whitelist: map<string, bool>, name: string) {
    name in whitelist && whitelist[name]
  }

  const ALLOWED_COMMANDS: set<string> := {
    "ls", "cat", "pwd", "head", "tail", "wc", "sort", "uniq", "diff",
    "grep", "find", "rg", "fd",
    "mkdir", "touch", "cp", "mv",
    "echo", "sed", "awk", "tr", "cut", "tee", "xargs",
    "git",
    "npm", "npx", "node", "yarn", "pnpm", "bun",
    "go",
    "make", "cargo", "bazel", "gradle",
    "python3", "python", "pip", "pip3", "uv", "poetry",
    "docker", "kubectl", "helm", "terraform",
    "jq", "yq",
    "tar", "gzip", "gunzip", "zip", "unzip",
    "curl", "wget",
    "bat", "eza", "less", "more",
    "which", "env", "printenv", "date", "uname", "df", "du", "free",
    "test", "true", "false", "expr", "basename", "dirname", "realpath",
    "sha256sum", "md5sum", "base64"
  }

  /** The default whitelist extended with the configured names, trimmed, blanks dropped. */
  method BuildEffectiveWhitelist(extras: seq<string>) returns (effective: map<string, bool>)
    ensures forall name :: Allows(effective, name) <==>
              name in ALLOWED_COMMANDS || (name != "" && exists k | 0 <= k < |extras| :: TrimSpace(extras[k]) == name)
    ensures forall name | name in effective :: effective[name]
  {
    effective := map name | name in ALLOWED_COMMANDS :: true;
    var k := 0;
    while k < |extras|
      invariant 0 <= k <= |extras|
      invariant forall name | name in effective :: effective[name]
      invariant forall name :: name in effective <==>
                  name in ALLOWED_COMMANDS || (name != "" && exists j | 0 <= j < k :: TrimSpace(extras[j]) == name)
    {
      var cmd := TrimSpace(extras[k]);
      if cmd != "" {
        effective := effective[cmd := true];
      }
      k := k + 1;
    }
  }

  // ----- the validators ---------------------------------------------------------------

  datatype Verdict =
    | Accepted
    | EmptyCommand
    | Metacharacter(name: string)
    | NoBaseCommand
    | NotAllowed(base: string)

  /** The part both validators share: a base command, found in the whitelist. */
  function CheckBase(seg: string, whitelist: map<string, bool>): Verdict {
    var base := ExtractBaseCommand(seg);
    if base == "" then NoBaseCommand
    else if !Allows(whitelist, base) then NotAllowed(base)
    else Accepted
  }

  function Strict(cmd: string, whitelist: map<string, bool>): Verdict {
    if TrimSpace(cmd) == "" then EmptyCommand
    else match StrictScan(cmd, Bare)
      case Some(name) => Metacharacter(name)
      case None => CheckBase(cmd, whitelist)
  }

  /** Verdict on the segments: the first failing one decides, blank ones are skipped. */
  function CheckSegments(segs: seq<string>, whitelist: map<string, bool>): Verdict {
    if segs == [] then Accepted
    else
      var seg := TrimSpace(segs[0]);
      if seg == "" || CheckBase(seg, whitelist) == Accepted then CheckSegments(segs[1..], whitelist)
      else CheckBase(seg, whitelist)
  }

  function Relaxed(cmd: string, whitelist: map<string, bool>): Verdict {
    if TrimSpace(cmd) == "" then EmptyCommand
    else match RelaxedScan(cmd, Bare)
      case Some(name) => Metacharacter(name)
      case None => CheckSegments(Split(cmd), whitelist)
  }

  /** The package state: the replaceable whitelist of the relaxed validator. */
  class Validator {
    var effectiveWhitelist: map<string, bool>

    constructor ()
      ensures forall name :: Allows(effectiveWhitelist, name) <==> name in ALLOWED_COMMANDS
    {
      var initial := BuildEffectiveWhitelist([]);
      effectiveWhitelist := initial;
    }

    method SetEffectiveWhitelist(whitelist: map<string, bool>)
      modifies this
      ensures effectiveWhitelist == whitelist
    {
      effectiveWhitelist := whitelist;
    }

    /** ValidateCommand: always against the built-in whitelist. */
    method ValidateCommand(cmd: string) returns (v: Verdict)
      ensures v == Strict(cmd, map name | name in ALLOWED_COMMANDS :: true)
    {
      if TrimSpace(cmd) == "" { return EmptyCommand; }
      var has, name := HasShellMetacharacters(cmd);
      if has { return Metacharacter(name); }
      var base := ExtractBaseCommand(cmd);
      if base == "" { return NoBaseCommand; }
      if base !in ALLOWED_COMMANDS { return NotAllowed(base); }
      return Accepted;
    }

    method ValidateCommandRelaxed(cmd: string) returns (v: Verdict)
      ensures v == Relaxed(cmd, effectiveWhitelist)
    {
      if TrimSpace(cmd) == "" { return EmptyCommand; }
      var has, name := HasRelaxedMetacharacters(cmd);
      if has { return Metacharacter(name); }
      var segments := SplitByOperators(cmd);
      var k := 0;
      while k < |segments|
        invariant 0 <= k <= |segments|
        invariant CheckSegments(segments[k..], effectiveWhitelist) == CheckSegments(segments, effectiveWhitelist)
      {
        assert segments[k..][1..] == segments[k + 1..];
        var seg := TrimSpace(segments[k]);
        if seg != "" {
          var base := ExtractBaseCommand(seg);
          if base == "" { return NoBaseCommand; }
          if !Allows(effectiveWhitelist, base) { return NotAllowed(base); }
        }
        k := k + 1;
      }
      return Accepted;
    }
  }
}
