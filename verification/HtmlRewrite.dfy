/** internal/preview/rewrite.go: the walk over a build output, and where the rewritten references
    lead when the output is served below a prefix. */
module HtmlRewrite {

  import opened UrlPaths
  import opened HtmlRefs
  import opened PageWalk

  function CountSlashes(s: string): nat {
    if s == "" then 0 else (if s[0] == '/' then 1 else 0) + CountSlashes(s[1..])
  }

  /** Directories below the output directory; rel is the slash-separated relative path. */
  function HtmlDepth(rel: string): nat {
    CountSlashes(rel)
  }

  lemma {:induction false} DepthIsDirectories(rel: string)
    ensures HtmlDepth(rel) == |SplitSlash(rel)| - 1
  {
    if rel != "" {
      DepthIsDirectories(rel[1..]);
    }
  }

  predicate IsHtml(rel: string) {
    |rel| >= 5 && rel[|rel| - 5..] == ".html"
  }

  /** What the run does to one file. */
  function EditOf(rel: string, page: string, fileExists: string -> bool): Edit {
    if IsHtml(rel) then Replace(Rewritten(page, HtmlDepth(rel), fileExists), CountChanges(Tokens(page), fileExists))
    else LeaveAlone
  }

  function Editor(fileExists: string -> bool): (string, string) -> Edit {
    (rel, page) => EditOf(rel, page, fileExists)
  }

  ghost predicate Edits(edit: (string, string) -> Edit, fileExists: string -> bool) {
    forall rel, page {:trigger EditOf(rel, page, fileExists)} :: edit(rel, page) == EditOf(rel, page, fileExists)
  }

  /** An edited page is written back only when something changed; nothing is lost by that. */
  lemma EditedMeaning(rel: string, page: string, fileExists: string -> bool)
    ensures Edited(rel, page, Editor(fileExists))
         == if IsHtml(rel) then Rewritten(page, HtmlDepth(rel), fileExists) else page
  {
    NoChangeNoDifference(Tokens(page), HtmlDepth(rel), fileExists);
    TokensRender(page);
  }

  /** The replacing function on every match of one page. */
  method RewritePage(page: string, depth: nat, fileExists: string -> bool) returns (out: string, rewrites: nat)
    ensures out == Rewritten(page, depth, fileExists)
    ensures rewrites == CountChanges(Tokens(page), fileExists)
    ensures rewrites == 0 ==> out == page
  {
    var ts := Tokens(page);
    out, rewrites := "", 0;
    for i := 0 to |ts|
      invariant out + Render(ReplacedAll(ts[i..], depth, fileExists)) == Rewritten(page, depth, fileExists)
      invariant rewrites + CountChanges(ts[i..], fileExists) == CountChanges(ts, fileExists)
    {
      NextToken(ts[i..], depth, fileExists, out);
      assert ts[i..][1..] == ts[i + 1..];
      if Changes(ts[i], fileExists) {
        rewrites := rewrites + 1;
      }
      out := out + Written(Replaced(ts[i], depth, fileExists));
    }
    NoChangeNoDifference(ts, depth, fileExists);
    TokensRender(page);
  }

  lemma NextToken(ts: seq<Token>, depth: nat, fileExists: string -> bool, out: string)
    requires ts != []
    ensures out + Written(Replaced(ts[0], depth, fileExists)) + Render(ReplacedAll(ts[1..], depth, fileExists))
         == out + Render(ReplacedAll(ts, depth, fileExists))
  {
    assert ReplacedAll(ts, depth, fileExists)[1..] == ReplacedAll(ts[1..], depth, fileExists);
  }

  class BuildOutput {
    var pages: map<string, string>

    method RewriteFile(rel: string, fileExists: string -> bool, fault: Fault,
                       ghost edit: (string, string) -> Edit)
      returns (rewrites: nat, failed: bool)
      requires rel in pages && Edits(edit, fileExists)
      modifies this
      ensures Outcome(pages, rewrites, failed) == OneFile(rel, old(pages), edit, fault)
    {
      assert edit(rel, pages[rel]) == EditOf(rel, pages[rel], fileExists);
      if !IsHtml(rel) {
        return 0, false;
      }
      if fault.ReadFails? {
        return 0, true;
      }
      var out, n := RewritePage(pages[rel], HtmlDepth(rel), fileExists);
      if n == 0 {
        return 0, false;
      }
      pages := pages[rel := if fault.WriteFails? then fault.left else out];
      return n, fault.WriteFails?;
    }

    method NextFile(walk: seq<string>, i: nat, total: nat, fileExists: string -> bool, fault: string -> Fault,
                    ghost edit: (string, string) -> Edit, ghost goal: Outcome)
      returns (newTotal: nat, failed: bool)
      requires i < |walk| && Edits(edit, fileExists)
      requires OnCourse(walk, i, pages, total, edit, fault, goal)
      modifies this
      ensures failed ==> goal == Outcome(pages, newTotal, true)
      ensures !failed ==> OnCourse(walk, i + 1, pages, newTotal, edit, fault, goal)
    {
      OnCourseStep(walk, i, pages, total, edit, fault, goal);
      newTotal, failed := RewriteFile(walk[i], fileExists, fault(walk[i]), edit);
      newTotal := total + newTotal;
    }

    method WalkFiles(walk: seq<string>, fileExists: string -> bool, fault: string -> Fault,
                     ghost edit: (string, string) -> Edit)
      returns (total: nat, failed: bool)
      requires Within(walk, pages) && Edits(edit, fileExists)
      modifies this
      ensures Outcome(pages, total, failed) == Run(walk, old(pages), 0, edit, fault)
    {
      total, failed := 0, false;
      ghost var goal := Run(walk, pages, 0, edit, fault);
      assert walk[0..] == walk;
      for i := 0 to |walk|
        invariant !failed && OnCourse(walk, i, pages, total, edit, fault, goal)
      {
        total, failed := NextFile(walk, i, total, fileExists, fault, edit, goal);
        if failed {
          return;
        }
      }
    }

    method RewriteHtmlAbsolutePaths(walk: seq<string>, fileExists: string -> bool, fault: string -> Fault)
      returns (total: nat, failed: bool)
      requires Within(walk, pages)
      modifies this
      ensures Outcome(pages, total, failed) == Run(walk, old(pages), 0, Editor(fileExists), fault)
    {
      total, failed := WalkFiles(walk, fileExists, fault, Editor(fileExists));
    }
  }

  /** The page a run leaves, for every file of the output: rewritten when the walk got through
      it and it is an HTML page, as its failed write left it when the walk stopped there, and
      otherwise untouched. */
  lemma PagesLeft(walk: seq<string>, pages: map<string, string>, fileExists: string -> bool, fault: string -> Fault,
                  rel: string)
    requires Within(walk, pages) && Distinct(walk) && rel in pages
    ensures var edit := Editor(fileExists);
            var out, done := Run(walk, pages, 0, edit, fault), Done(walk, pages, edit, fault);
            && rel in out.pages
            && (!out.failed ==> done == |walk|)
            && out.pages[rel] ==
               if rel in walk[..done] && IsHtml(rel) then Rewritten(pages[rel], HtmlDepth(rel), fileExists)
               else if done < |walk| && rel == walk[done] && fault(rel).WriteFails? then fault(rel).left
               else pages[rel]
  {
    var edit := Editor(fileExists);
    RunPage(walk, pages, 0, edit, fault, rel);
    RunKeys(walk, pages, 0, edit, fault);
    EditedMeaning(rel, pages[rel], fileExists);
    var done := Done(walk, pages, edit, fault);
    assert done < |walk| ==> walk[done] !in walk[..done];
  }

  // ----- where the references lead -------------------------------------------------------------

  /** The reference the author meant: a bare slash is the root's index page. */
  function Meant(value: string): string
    requires value != ""
  {
    if PathEnd(value[1..]) == 0 then "/index.html" + value[1..] else value
  }

  /** A list of path segments that a file or a hosting prefix can have. */
  predicate PlainPath(segments: seq<string>) {
    Segments(segments) && forall i | 0 <= i < |segments| :: !Dotted(segments[i])
  }

  lemma {:induction false} PathEndAfter(p: string, s: string)
    requires forall i | 0 <= i < |p| :: p[i] != '?' && p[i] != '#'
    ensures PathEnd(p + s) == |p| + PathEnd(s)
  {
    if p == "" {
      assert p + s == s;
    } else {
      assert (p + s)[1..] == p[1..] + s;
      PathEndAfter(p[1..], s);
    }
  }

  /** What follows the path part: nothing, or a query or fragment. */
  function Suffix(value: string): string
    requires value != ""
  {
    value[1..][PathEnd(value[1..])..]
  }

  lemma SuffixEndsPath(value: string)
    requires value != ""
    ensures PathEnd(Suffix(value)) == 0
    ensures forall i | 0 <= i < |PathPart(value)| :: PathPart(value)[i] != '?' && PathPart(value)[i] != '#'
  {
    PathEndOfSuffix(value[1..]);
  }

  lemma MeantParts(value: string)
    requires value != "" && value[0] == '/'
    ensures Meant(value) == "/" + PathPart(value) + Suffix(value)
  {
    var rest := value[1..];
    if PathEnd(rest) == 0 {
      assert rest[0..] == rest;
      assert "/index.html" == "/" + "index.html";
    } else {
      assert rest == PathPart(value) + Suffix(value);
      assert value == "/" + rest;
    }
  }

  lemma PathEndOfSuffix(ref: string)
    ensures PathEnd(ref[PathEnd(ref)..]) == 0
  {
    var suffix := ref[PathEnd(ref)..];
    if suffix != "" {
      assert suffix[0] == ref[PathEnd(ref)];
    }
  }

  /** Before the rewrite, served at the root: the root-absolute path itself. */
  lemma OriginalTarget(base: string, value: string)
    requires RootAbsolute(value)
    ensures Resolve(base, Meant(value))
         == Here(Path(Walk([], SplitSlash(PathPart(value)))), Suffix(value))
  {
    var path, meant := "/" + PathPart(value), Meant(value);
    SuffixEndsPath(value);
    MeantParts(value);
    PathEndAfter(path, Suffix(value));
    assert meant[..|path|] == path && meant[|path|..] == Suffix(value);
    NotElsewhere(value);
    PathOfSplit(PathPart(value));
    RemoveDotsIsWalk(SplitSlash(PathPart(value)), []);
  }

  lemma NotElsewhere(value: string)
    requires RootAbsolute(value)
    ensures !HasScheme(Meant(value)) && !HasAuthority(Meant(value))
  {
    assert Meant(value)[0] == '/';
  }

  /** The dot segments a rewritten reference starts with. */
  function PrefixSegments(depth: nat): (dots: seq<string>)
    ensures Segments(dots)
  {
    if depth == 0 then ["."] else UrlPaths.Ups(depth)
  }

  lemma {:induction false} DotDotsPath(depth: nat, path: string)
    ensures "/" + (DotDots(depth) + path) == Path(UrlPaths.Ups(depth)) + "/" + path
  {
    if depth > 0 {
      DotDotsPath(depth - 1, path);
      var ups := UrlPaths.Ups(depth);
      assert ups[1..] == UrlPaths.Ups(depth - 1);
      assert "/" + (DotDots(depth) + path) == "/" + ".." + ("/" + (DotDots(depth - 1) + path));
    }
  }

  lemma PrefixPath(depth: nat, path: string)
    ensures "/" + (Prefix(depth) + path) == Path(PrefixSegments(depth) + SplitSlash(path))
  {
    PathAppend(PrefixSegments(depth), SplitSlash(path));
    PathOfSplit(path);
    if depth == 0 {
      assert Path(["."]) == "/" + "." + Path([]);
      assert "/" + ("./" + path) == "/" + "." + ("/" + path);
    } else {
      DotDotsPath(depth, path);
    }
  }

  /** A rewritten value is a relative path reference: no scheme, no authority, not root-absolute. */
  lemma RewrittenIsRelative(value: string, depth: nat)
    requires value != ""
    ensures var r := NewValue(value, depth);
            && !HasScheme(r) && !HasAuthority(r)
            && PathEnd(r) == |Prefix(depth)| + |PathPart(value)|
            && r[..PathEnd(r)] == Prefix(depth) + PathPart(value)
            && r[PathEnd(r)..] == Suffix(value)
            && r[0] == '.'
  {
    var r, path := NewValue(value, depth), Prefix(depth) + PathPart(value);
    SuffixEndsPath(value);
    PrefixShape(depth);
    PathEndAfter(path, Suffix(value));
    assert r == path + Suffix(value);
    assert forall i | 0 <= i < |Prefix(depth)| :: r[i] == Prefix(depth)[i];
    SchemeEndIs(r, if r[1] == '/' then 1 else 2);
  }

  lemma {:induction false} PrefixShape(depth: nat)
    ensures var p := Prefix(depth);
            && (forall i | 0 <= i < |p| :: p[i] == '.' || p[i] == '/')
            && |p| >= 2 && p[0] == '.' && (p[1] == '/' || (|p| >= 3 && p[1] == '.' && p[2] == '/'))
    decreases depth
  {
    if depth > 1 {
      PrefixShape(depth - 1);
    } else if depth == 1 {
      assert DotDots(1) == "../";
    }
  }

  /** From a file below a prefix the rewritten reference walks up to the prefix and down from it. */
  lemma WalkFromFile(under: seq<string>, file: seq<string>, target: seq<string>)
    requires PlainPath(under) && PlainPath(file) && file != [] && target != []
    ensures var dirs := file[..|file| - 1];
            Walk([], under + dirs + (PrefixSegments(|dirs|) + target)) == Walk(under, target)
  {
    var dirs := file[..|file| - 1];
    WalkOrdinary([], under + dirs, PrefixSegments(|dirs|) + target);
    assert [] + (under + dirs) == under + dirs;
    if dirs == [] {
      assert under + dirs == under;
      assert (PrefixSegments(0) + target)[1..] == target;
    } else {
      WalkUp(under, dirs, target);
    }
  }

  lemma MergeAtFile(under: seq<string>, file: seq<string>, ref: string)
    requires PlainPath(file) && file != []
    ensures Merge(Path(under + file), ref) == Path(under + file[..|file| - 1]) + "/" + ref
  {
    var n := |file| - 1;
    assert under + file == under + file[..n] + [file[n]];
    PathSnoc(under + file[..n], file[n]);
    PopSegment(Path(under + file[..n]), file[n]);
  }

  lemma ServedPath(under: seq<string>, file: seq<string>, path: string)
    requires PlainPath(file) && file != []
    ensures var dirs := file[..|file| - 1];
            Merge(Path(under + file), Prefix(|dirs|) + path)
            == Path(under + dirs + (PrefixSegments(|dirs|) + SplitSlash(path)))
  {
    var dirs := file[..|file| - 1];
    var ref := Prefix(|dirs|) + path;
    MergeAtFile(under, file, ref);
    PrefixPath(|dirs|, path);
    PathAppend(under + dirs, PrefixSegments(|dirs|) + SplitSlash(path));
    assert Path(under + dirs) + "/" + ref == Path(under + dirs) + ("/" + ref);
  }

  lemma ResolveRelative(base: string, ref: string, path: string)
    requires !HasScheme(ref) && !HasAuthority(ref) && path == ref[..PathEnd(ref)] != "" && path[0] != '/'
    ensures Resolve(base, ref) == Here(RemoveDots(Merge(base, path), ""), ref[PathEnd(ref)..])
  {
  }

  lemma ServedWalk(under: seq<string>, file: seq<string>, path: string)
    requires PlainPath(under) && PlainPath(file) && file != []
    ensures RemoveDots(Merge(Path(under + file), Prefix(|file| - 1) + path), "")
         == Path(Walk(under, SplitSlash(path)))
  {
    var dirs := file[..|file| - 1];
    ServedPath(under, file, path);
    RemoveDotsIsWalk(under + dirs + (PrefixSegments(|dirs|) + SplitSlash(path)), []);
    WalkFromFile(under, file, SplitSlash(path));
  }

  /** After the rewrite, served below a prefix. */
  lemma RewrittenTarget(under: seq<string>, file: seq<string>, value: string, base: string, depth: nat)
    requires PlainPath(under) && PlainPath(file) && file != [] && value != ""
    requires base == Path(under + file) && depth == |file| - 1
    ensures Resolve(base, NewValue(value, depth))
         == Here(Path(Walk(under, SplitSlash(PathPart(value)))), Suffix(value))
  {
    RewrittenIsRelative(value, depth);
    ResolveRelative(base, NewValue(value, depth), Prefix(depth) + PathPart(value));
    ServedWalk(under, file, PathPart(value));
  }

  lemma UrlOfFile(under: seq<string>, rel: string)
    ensures Path(under + SplitSlash(rel)) == Path(under) + "/" + rel
  {
    PathOfSplit(rel);
    PathAppend(under, SplitSlash(rel));
    assert Path(under) + "/" + rel == Path(under) + ("/" + rel);
  }

  /** The point of the rewrite: served below any prefix, from any file, a rewritten reference leads
      to the prefix followed by what it meant at the root, with its query and fragment.  This holds
      exactly when the reference does not climb above the root, where the root itself would have
      stopped it and the prefix does not. */
  lemma RewriteKeepsTargetIff(under: seq<string>, rel: string, value: string)
    requires PlainPath(under) && PlainPath(SplitSlash(rel))
    requires RootAbsolute(value)
    ensures var original := Resolve("/" + rel, Meant(value));
            var served := Resolve(Path(under) + "/" + rel, NewValue(value, HtmlDepth(rel)));
            && original.Here? && served.Here?
            && served.rest == original.rest == Suffix(value)
            && (served.path == Path(under) + original.path
                <==> under == [] || !Climbs(0, SplitSlash(PathPart(value))))
  {
    Targets(under, rel, value);
    WalkUnderIff(under, SplitSlash(PathPart(value)));
  }

  lemma Targets(under: seq<string>, rel: string, value: string)
    requires RootAbsolute(value) && PlainPath(under) && PlainPath(SplitSlash(rel))
    ensures var target := SplitSlash(PathPart(value));
            && Resolve("/" + rel, Meant(value)) == Here(Path(Walk([], target)), Suffix(value))
            && Resolve(Path(under) + "/" + rel, NewValue(value, HtmlDepth(rel)))
               == Here(Path(Walk(under, target)), Suffix(value))
  {
    DepthIsDirectories(rel);
    UrlOfFile(under, rel);
    OriginalTarget("/" + rel, value);
    RewrittenTarget(under, SplitSlash(rel), value, Path(under) + "/" + rel, HtmlDepth(rel));
  }

  /** Without dot segments nothing climbs and nothing is removed: prefix, slash, path part. */
  lemma RewriteKeepsPlainTarget(under: seq<string>, rel: string, value: string)
    requires RootAbsolute(value)
    requires PlainPath(under) && PlainPath(SplitSlash(rel)) && PlainPath(SplitSlash(PathPart(value)))
    ensures Resolve(Path(under) + "/" + rel, NewValue(value, HtmlDepth(rel)))
         == Here(Path(under) + "/" + PathPart(value), Suffix(value))
  {
    var target := SplitSlash(PathPart(value));
    Targets(under, rel, value);
    PathOfSplit(PathPart(value));
    PlainWalk(under, target, PathPart(value));
  }

  lemma PlainWalk(under: seq<string>, target: seq<string>, path: string)
    requires PlainPath(target) && Path(target) == "/" + path
    ensures Path(Walk(under, target)) == Path(under) + "/" + path
  {
    WalkOrdinary(under, target, []);
    assert target + [] == target;
    PathAppend(under, target);
    assert Path(under) + "/" + path == Path(under) + ("/" + path);
  }

  lemma {:induction false} NeverClimbs(depth: nat, segments: seq<string>)
    requires ".." !in segments
    ensures !Climbs(depth, segments)
    decreases |segments|
  {
    if segments != [] {
      NeverClimbs(if segments[0] == "." then depth else depth + 1, segments[1..]);
    }
  }

  /** A reference without ".." segments always keeps its target. */
  lemma KeepsTargetWithoutDotDot(under: seq<string>, rel: string, value: string)
    requires PlainPath(under) && PlainPath(SplitSlash(rel)) && RootAbsolute(value)
    requires ".." !in SplitSlash(PathPart(value))
    ensures var original := Resolve("/" + rel, Meant(value));
            var served := Resolve(Path(under) + "/" + rel, NewValue(value, HtmlDepth(rel)));
            && original.Here? && served.Here?
            && served.path == Path(under) + original.path && served.rest == original.rest
  {
    NeverClimbs(0, SplitSlash(PathPart(value)));
    RewriteKeepsTargetIff(under, rel, value);
  }

  /** "/../x" on a page below a one-segment prefix: the root would serve /x, the prefix is left. */
  lemma ClimbingLeavesThePrefix(host: string, name: string, x: string)
    requires NoSlash(host) && !Dotted(host) && NoSlash(name) && !Dotted(name)
    requires NoSlash(x) && !Dotted(x) && x != "" && '?' !in x && '#' !in x
    ensures var value := "/../" + x;
            && Resolve("/" + name, Meant(value)) == Here("/" + x, "")
            && Resolve("/" + host + "/" + name, NewValue(value, HtmlDepth(name))) == Here("/" + x, "")
  {
    var value := "/../" + x;
    UpOneLevel(x);
    NoSlashSplit(name);
    PathEmptyEnd(host);
    PathEmptyEnd(x);
    Targets([host], name, value);
    WalkOneUp([], x);
    WalkOneUp([host], x);
  }

  lemma PathEmptyEnd(segment: string)
    requires NoSlash(segment)
    ensures Path([segment]) == "/" + segment
  {
    assert Path([segment]) == "/" + segment + Path([]);
  }

  lemma UpOneLevel(x: string)
    requires NoSlash(x) && x != "" && '?' !in x && '#' !in x
    ensures var value := "/../" + x;
            RootAbsolute(value) && SplitSlash(PathPart(value)) == ["..", x] && Suffix(value) == ""
  {
    var value, part := "/../" + x, "../" + x;
    assert value[0] == '/' && value[1] == '.';
    assert value[1..] == part;
    assert forall i | 3 <= i < |part| :: part[i] == x[i - 3];
    PathEndAfter(part, "");
    assert part + "" == part && part[..|part|] == part && part[|part|..] == "";
    OneUp(x);
  }

  lemma OneUp(x: string)
    requires NoSlash(x) && x != ""
    ensures SplitSlash("../" + x) == ["..", x]
  {
    NoSlashSplit(x);
    assert ("/" + x)[1..] == x;
    assert SplitSlash("/" + x) == ["", x];
    assert ("./" + x)[1..] == "/" + x;
    assert ['.'] + "" == ".";
    assert SplitSlash("./" + x) == [".", x];
    assert ['.'] + "." == "..";
    assert ("../" + x)[1..] == "./" + x;
  }

  lemma {:induction false} NoSlashSplit(x: string)
    requires NoSlash(x)
    ensures SplitSlash(x) == [x]
  {
    if x != "" {
      assert x == [x[0]] + x[1..];
      NoSlashSplit(x[1..]);
    }
  }

  lemma WalkOneUp(stack: seq<string>, x: string)
    requires |stack| <= 1 && !Dotted(x)
    ensures Walk(stack, ["..", x]) == [x]
  {
    WalkDotDot(stack, x);
    WalkLast(x);
  }

  lemma WalkDotDot(stack: seq<string>, x: string)
    requires |stack| <= 1
    ensures Walk(stack, ["..", x]) == Walk([], [x])
  {
    assert ["..", x][1..] == [x];
    assert stack != [] ==> stack[..|stack| - 1] == [];
  }

  lemma WalkLast(x: string)
    requires !Dotted(x)
    ensures Walk([], [x]) == [x]
  {
    assert [x][1..] == [];
    assert [] + [x] == [x];
  }
}
