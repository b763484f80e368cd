/** internal/preview/rewrite.go, read off the text of a page: what the pattern matches, which
    references are rewritten and to what, and which files are pages. */
module HtmlMeaning {
  import opened Text
  import opened UrlPaths
  import opened HtmlRefs
  import opened HtmlRewrite

  // ----- what the pattern matches --------------------------------------------------------------

  /** An equals sign at byte a, and white space (tab, line feed, form feed, carriage return, space)
      around it. */
  predicate EqualsAt(eq: string, a: int) {
    && 0 <= a < |eq| && eq[a] == '='
    && forall i | 0 <= i < |eq| && i != a ::
         eq[i] as int == 9 || eq[i] as int == 10 || eq[i] as int == 12 || eq[i] as int == 13 || eq[i] as int == 32
  }

  /** name, equals sign, and the value between quotes of one kind that it does not contain. */
  ghost predicate Attribute(name: string, eq: string, quote: char, value: string) {
    && (name == "src" || name == "href") && (exists a :: EqualsAt(eq, a))
    && (quote == '"' || quote == '\'') && quote !in value
  }

  lemma SpaceBytes(c: char)
    ensures Space(c) <==> c as int == 9 || c as int == 10 || c as int == 12 || c as int == 13 || c as int == 32
  {
  }

  lemma EqSignIff(eq: string)
    ensures EqSign(eq) <==> exists a :: EqualsAt(eq, a)
  {
    forall i | 0 <= i < |eq|
      ensures Space(eq[i]) <==>
              eq[i] as int == 9 || eq[i] as int == 10 || eq[i] as int == 12 || eq[i] as int == 13 || eq[i] as int == 32
    {
      SpaceBytes(eq[i]);
    }
    if EqSign(eq) {
      assert EqualsAt(eq, Skip(eq, 0));
    }
    if a :| EqualsAt(eq, a) {
      EqSlice(eq, 0, a, |eq|);
      assert eq[0..|eq|] == eq;
    }
  }

  /** The pattern matches at the head of a text exactly the attributes that stand there. */
  lemma MatchMeaning(s: string, name: string, eq: string, quote: char, value: string)
    ensures MatchHead(s) == Some(Ref(name, eq, quote, value))
            <==> Attribute(name, eq, quote, value) && name + eq + [quote] + value + [quote] <= s
  {
    var t := Ref(name, eq, quote, value);
    EqSignIff(eq);
    if MatchHead(s) == Some(t) {
      MatchIsHead(s);
      MatchIsWellFormed(s);
    }
    if Attribute(name, eq, quote, value) && Written(t) <= s {
      MatchesItself(t, s[|Written(t)|..]);
      assert s == Written(t) + s[|Written(t)|..];
    }
  }

  // ----- which references are rewritten --------------------------------------------------------

  /** One slash, not two, then a path without query and fragment, then those or nothing. */
  predicate RootPath(value: string, path: string, rest: string) {
    && value == "/" + path + rest && (path == "" || path[0] != '/')
    && '?' !in path && '#' !in path
    && (rest == "" || rest[0] == '?' || rest[0] == '#')
  }

  /** The file a root path names. */
  function FileOf(path: string): string {
    if path == "" then "index.html" else path
  }

  lemma RootPathParts(value: string, path: string, rest: string)
    requires RootPath(value, path, rest)
    ensures RootAbsolute(value) && PathPart(value) == FileOf(path) && Suffix(value) == rest
  {
    var tail := value[1..];
    assert tail == path + rest;
    PathEndAfter(path, rest);
    assert PathEnd(rest) == 0;
    assert tail[..|path|] == path && tail[|path|..] == rest;
  }

  lemma RootAbsoluteParts(value: string)
    requires RootAbsolute(value)
    ensures var tail := value[1..]; RootPath(value, tail[..PathEnd(tail)], tail[PathEnd(tail)..])
  {
    var tail := value[1..];
    SlashParts(value, PathEnd(tail));
    assert PathEnd(tail) > 0 ==> tail[0] == value[1];
  }

  lemma SlashParts(value: string, n: nat)
    requires value != "" && value[0] == '/' && n < |value|
    ensures value == "/" + value[1..][..n] + value[1..][n..]
  {
  }

  /** A reference to a file of the build output from its root. */
  ghost predicate LeadsToFile(t: Token, path: string, rest: string, fileExists: string -> bool) {
    t.Ref? && RootPath(t.value, path, rest) && fileExists(FileOf(path))
  }

  ghost predicate IsLocal(t: Token, fileExists: string -> bool) {
    exists path, rest :: LeadsToFile(t, path, rest, fileExists)
  }

  /** Every reference from the root to a file of the output, and nothing else, is rewritten: the
      slash becomes the way up to the root, a bare slash names the index page, and query and
      fragment stay. */
  lemma ReplacedMeaning(t: Token, depth: nat, fileExists: string -> bool)
    ensures forall path, rest | LeadsToFile(t, path, rest, fileExists) ::
              Replaced(t, depth, fileExists) == t.(value := Prefix(depth) + FileOf(path) + rest)
    ensures !IsLocal(t, fileExists) ==> Replaced(t, depth, fileExists) == t
    ensures Changes(t, fileExists) <==> IsLocal(t, fileExists)
  {
    forall path, rest | LeadsToFile(t, path, rest, fileExists)
      ensures Replaced(t, depth, fileExists) == t.(value := Prefix(depth) + FileOf(path) + rest)
      ensures Changes(t, fileExists)
    {
      RootPathParts(t.value, path, rest);
    }
    if Changes(t, fileExists) {
      var tail := t.value[1..];
      RootAbsoluteParts(t.value);
      assert LeadsToFile(t, tail[..PathEnd(tail)], tail[PathEnd(tail)..], fileExists);
    }
  }

  lemma {:induction false} ReplacedAllAt(ts: seq<Token>, depth: nat, fileExists: string -> bool, i: nat)
    requires i < |ts|
    ensures ReplacedAll(ts, depth, fileExists)[i] == Replaced(ts[i], depth, fileExists)
  {
    if i > 0 {
      ReplacedAllAt(ts[1..], depth, fileExists, i - 1);
    }
  }

  /** The references of a page, by number, that lead to a file of the output. */
  ghost function Local(ts: seq<Token>, n: nat, fileExists: string -> bool): set<nat>
    requires n <= |ts|
  {
    set i: nat | i < n && IsLocal(ts[i], fileExists)
  }

  lemma {:induction false} CountUpTo(ts: seq<Token>, n: nat, fileExists: string -> bool)
    requires n <= |ts|
    ensures CountChanges(ts[..n], fileExists) == |Local(ts, n, fileExists)|
  {
    if n > 0 {
      CountUpTo(ts, n - 1, fileExists);
      CountNext(ts[..n - 1], ts[n - 1], fileExists);
      assert ts[..n] == ts[..n - 1] + [ts[n - 1]];
      ReplacedMeaning(ts[n - 1], 0, fileExists);
      LocalNext(ts, n, fileExists);
    }
  }

  lemma LocalNext(ts: seq<Token>, n: nat, fileExists: string -> bool)
    requires 0 < n <= |ts|
    ensures |Local(ts, n, fileExists)|
         == |Local(ts, n - 1, fileExists)| + if IsLocal(ts[n - 1], fileExists) then 1 else 0
  {
    OneMore(Local(ts, n - 1, fileExists), Local(ts, n, fileExists), n - 1, IsLocal(ts[n - 1], fileExists));
  }

  lemma OneMore(before: set<nat>, now: set<nat>, x: nat, more: bool)
    requires forall i: nat :: i in now <==> i in before || (more && i == x)
    requires x !in before
    ensures |now| == |before| + if more then 1 else 0
  {
    assert now == if more then before + {x} else before;
  }

  lemma {:induction false} CountNext(ts: seq<Token>, t: Token, fileExists: string -> bool)
    ensures CountChanges(ts + [t], fileExists)
         == CountChanges(ts, fileExists) + if Changes(t, fileExists) then 1 else 0
  {
    if ts == [] {
      assert ts + [t] == [t];
    } else {
      CountNext(ts[1..], t, fileExists);
      assert (ts + [t])[1..] == ts[1..] + [t];
    }
  }

  /** The rewritten page, matched again, reference by reference: those from the root to a file of
      the output lead there from where the page is, all else is as it was, and the number of
      rewrites is the number of those references. */
  lemma RewrittenMeaning(page: string, depth: nat, fileExists: string -> bool)
    ensures var ts, rs := Tokens(page), Tokens(Rewritten(page, depth, fileExists));
            && |rs| == |ts|
            && (forall i: nat, path, rest | i < |ts| && LeadsToFile(ts[i], path, rest, fileExists) ::
                  rs[i] == ts[i].(value := Prefix(depth) + FileOf(path) + rest))
            && (forall i: nat | i < |ts| && !IsLocal(ts[i], fileExists) :: rs[i] == ts[i])
            && CountChanges(ts, fileExists) == |Local(ts, |ts|, fileExists)|
  {
    var ts := Tokens(page);
    RewrittenReadsBack(page, depth, fileExists);
    forall i: nat | i < |ts|
      ensures ReplacedAll(ts, depth, fileExists)[i] == Replaced(ts[i], depth, fileExists)
      ensures forall path, rest | LeadsToFile(ts[i], path, rest, fileExists) ::
                Replaced(ts[i], depth, fileExists) == ts[i].(value := Prefix(depth) + FileOf(path) + rest)
      ensures !IsLocal(ts[i], fileExists) ==> Replaced(ts[i], depth, fileExists) == ts[i]
    {
      ReplacedAllAt(ts, depth, fileExists, i);
      ReplacedMeaning(ts[i], depth, fileExists);
    }
    CountUpTo(ts, |ts|, fileExists);
    assert ts[..|ts|] == ts;
  }

  /** One step up per directory, and a dot where there is none. */
  lemma {:induction false} PrefixMeaning(depth: nat)
    ensures depth == 0 ==> Prefix(depth) == "./"
    ensures depth > 0 ==> |Prefix(depth)| == 3 * depth
    ensures depth > 0 ==> forall i: nat | i < depth :: Prefix(depth)[3 * i..3 * i + 3] == "../"
  {
    if depth > 0 {
      DotDotsMeaning(depth);
    }
  }

  lemma {:induction false} DotDotsMeaning(depth: nat)
    ensures |DotDots(depth)| == 3 * depth
    ensures forall i: nat | i < depth :: DotDots(depth)[3 * i..3 * i + 3] == "../"
  {
    if depth > 0 {
      DotDotsMeaning(depth - 1);
      var dots, rest := DotDots(depth), DotDots(depth - 1);
      assert dots == "../" + rest;
      forall i: nat | i < depth ensures dots[3 * i..3 * i + 3] == "../" {
        if i > 0 {
          assert dots[3 * i..3 * i + 3] == rest[3 * (i - 1)..3 * (i - 1) + 3];
        }
      }
    }
  }

  /** The pages are the files with this ending. */
  lemma PagesAreHtml(base: string, rel: string)
    ensures IsHtml(base + ".html")
    ensures IsHtml(rel) ==> rel == rel[..|rel| - 5] + ".html"
  {
  }
}
