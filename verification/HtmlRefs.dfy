/** internal/preview/rewrite.go: the src and href attributes of a page as its pattern finds them,
    and their replacement. */
module HtmlRefs {

  import opened Text
  import opened UrlPaths

  /** A page is single characters with the matches of the pattern in between. */
  datatype Token = Char(c: char) | Ref(name: string, eq: string, quote: char, value: string)

  function Written(t: Token): (s: string)
    ensures s != "" || (t.Ref? && t.name == "")
  {
    match t
    case Char(c) => [c]
    case Ref(name, eq, quote, value) => name + eq + [quote] + value + [quote]
  }

  function Render(ts: seq<Token>): string {
    if ts == [] then "" else Written(ts[0]) + Render(ts[1..])
  }

  // ----- the pattern ---------------------------------------------------------------------------

  /** \s */
  predicate Space(c: char) {
    c == '\t' || c == '\n' || c == '\U{0C}' || c == '\r' || c == ' '
  }

  predicate IsQuote(c: char) {
    c == '"' || c == '\''
  }

  /** Past the white space at `from`. */
  function Skip(s: string, from: nat): (to: nat)
    requires from <= |s|
    ensures from <= to <= |s| && (to < |s| ==> !Space(s[to]))
    ensures forall i | from <= i < to :: Space(s[i])
    decreases |s| - from
  {
    if from == |s| || !Space(s[from]) then from else Skip(s, from + 1)
  }

  /** The first c at or after `from`, or the length. */
  function Find(s: string, c: char, from: nat): (at: nat)
    requires from <= |s|
    ensures from <= at <= |s| && (at < |s| ==> s[at] == c)
    ensures forall i | from <= i < at :: s[i] != c
    decreases |s| - from
  {
    if from == |s| || s[from] == c then from else Find(s, c, from + 1)
  }

  /** src|href */
  function NameLength(s: string): nat {
    if |s| >= 3 && s[0] == 's' && s[1] == 'r' && s[2] == 'c' then 3
    else if |s| >= 4 && s[0] == 'h' && s[1] == 'r' && s[2] == 'e' && s[3] == 'f' then 4
    else 0
  }

  /** Where the opening quote of a match at the head of s stands. */
  function OpeningQuote(s: string): (at: Option<nat>)
    ensures at.Some? ==> 0 < NameLength(s) < at.value < |s| && IsQuote(s[at.value])
  {
    var n := NameLength(s);
    if n == 0 then None else
      var a := Skip(s, n);
      if a == |s| || s[a] != '=' then None else
        var b := Skip(s, a + 1);
        if b == |s| || !IsQuote(s[b]) then None else Some(b)
  }

  function MatchHead(s: string): (t: Option<Token>)
    ensures t.Some? ==> t.value.Ref? && t.value.name != ""
  {
    var at := OpeningQuote(s);
    if at.None? then None else
      var n, b, e := NameLength(s), at.value, Find(s, s[at.value], at.value + 1);
      if e == |s| then None else Some(Ref(s[..n], s[n..b], s[b], s[b + 1..e]))
  }

  lemma MatchIsHead(s: string)
    requires MatchHead(s).Some?
    ensures var n := |Written(MatchHead(s).value)|; 0 < n <= |s| && Written(MatchHead(s).value) == s[..n]
  {
    var n, b := NameLength(s), OpeningQuote(s).value;
    Glue(s, n, b, Find(s, s[b], b + 1));
  }

  lemma Glue(s: string, n: nat, b: nat, e: nat)
    requires n <= b < e < |s| && s[b] == s[e]
    ensures s[..n] + s[n..b] + [s[b]] + s[b + 1..e] + [s[b]] == s[..e + 1]
  {
  }

  /** Leftmost matches, one after the other. */
  function Tokens(s: string): seq<Token>
    decreases |s|
  {
    if s == "" then []
    else if MatchHead(s).None? then [Char(s[0])] + Tokens(s[1..])
    else
      var t := MatchHead(s).value;
      MatchIsHead(s);
      [t] + Tokens(s[|Written(t)|..])
  }

  // ----- the replacement -----------------------------------------------------------------------

  function DotDots(depth: nat): string {
    if depth == 0 then "" else "../" + DotDots(depth - 1)
  }

  function Prefix(depth: nat): string {
    if depth == 0 then "./" else DotDots(depth)
  }

  /** The path a root-absolute reference names, below the root. */
  function PathPart(value: string): string
    requires value != ""
  {
    if PathEnd(value[1..]) == 0 then "index.html" else value[1..][..PathEnd(value[1..])]
  }

  predicate RootAbsolute(value: string) {
    value != "" && value[0] == '/' && !HasAuthority(value)
  }

  /** Root-absolute, and its target is in the build output. */
  predicate Rewritable(value: string, fileExists: string -> bool) {
    RootAbsolute(value) && fileExists(PathPart(value))
  }

  function NewValue(value: string, depth: nat): string
    requires value != ""
  {
    Prefix(depth) + PathPart(value) + value[1..][PathEnd(value[1..])..]
  }

  predicate Changes(t: Token, fileExists: string -> bool) {
    t.Ref? && Rewritable(t.value, fileExists)
  }

  function Replaced(t: Token, depth: nat, fileExists: string -> bool): Token {
    if Changes(t, fileExists) then t.(value := NewValue(t.value, depth)) else t
  }

  function ReplacedAll(ts: seq<Token>, depth: nat, fileExists: string -> bool): (r: seq<Token>)
    ensures |r| == |ts|
  {
    if ts == [] then [] else [Replaced(ts[0], depth, fileExists)] + ReplacedAll(ts[1..], depth, fileExists)
  }

  function CountChanges(ts: seq<Token>, fileExists: string -> bool): nat {
    if ts == [] then 0 else (if Changes(ts[0], fileExists) then 1 else 0) + CountChanges(ts[1..], fileExists)
  }

  /** The page after the run. */
  function Rewritten(page: string, depth: nat, fileExists: string -> bool): string {
    Render(ReplacedAll(Tokens(page), depth, fileExists))
  }

  // ----- tokens and text -----------------------------------------------------------------------

  predicate EqSign(eq: string) {
    var a := Skip(eq, 0);
    a < |eq| && eq[a] == '=' && Skip(eq, a + 1) == |eq|
  }

  predicate WellFormed(t: Token) {
    t.Ref? ==> (t.name == "src" || t.name == "href") && EqSign(t.eq) && IsQuote(t.quote) && t.quote !in t.value
  }

  /** Token lists that come from a text: no character begins a match. */
  predicate Canonical(ts: seq<Token>) {
    ts == [] || (WellFormed(ts[0]) && (ts[0].Char? ==> MatchHead(Render(ts)).None?) && Canonical(ts[1..]))
  }

  lemma EqSlice(s: string, n: nat, a: nat, b: nat)
    requires n <= a < b <= |s| && s[a] == '=' && forall i | n <= i < b && i != a :: Space(s[i])
    ensures EqSign(s[n..b])
  {
  }

  lemma MatchIsWellFormed(s: string)
    requires MatchHead(s).Some?
    ensures WellFormed(MatchHead(s).value)
  {
    var n, b := NameLength(s), OpeningQuote(s).value;
    EqSlice(s, n, Skip(s, n), b);
    assert s[..n] == if n == 3 then "src" else "href";
  }

  lemma MatchesItself(t: Token, rest: string)
    requires t.Ref? && WellFormed(t)
    ensures MatchHead(Written(t) + rest) == Some(t)
  {
    Parts(t.name, t.eq, t.quote, t.value, rest);
    PartSlices(t.name, t.eq, t.quote, t.value, rest);
    MatchOfParts(t.name + t.eq + [t.quote] + t.value + [t.quote] + rest, t);
  }

  lemma MatchOfParts(s: string, t: Token)
    requires t.Ref? && WellFormed(t)
    requires var n, b, e := |t.name|, |t.name| + |t.eq|, |t.name| + |t.eq| + 1 + |t.value|;
             && e < |s| && s[b] == s[e] == t.quote
             && s[..n] == t.name && s[n..b] == t.eq && s[b + 1..e] == t.value
    ensures MatchHead(s) == Some(t)
  {
    var n, b, e := |t.name|, |t.name| + |t.eq|, |t.name| + |t.eq| + 1 + |t.value|;
    assert forall i | 0 <= i < n :: s[i] == t.name[i];
    assert forall i | n <= i < b :: s[i] == t.eq[i - n];
    assert forall i | b < i < e :: s[i] == t.value[i - b - 1];
    NameWithin(s, t.name);
    MatchIs(s, n, n + Skip(t.eq, 0), b, e);
  }

  lemma NameWithin(s: string, name: string)
    requires (name == "src" || name == "href") && |name| <= |s| && forall i | 0 <= i < |name| :: s[i] == name[i]
    ensures NameLength(s) == |name|
  {
  }

  lemma PartSlices(name: string, eq: string, q: char, value: string, rest: string)
    ensures var s := name + eq + [q] + value + [q] + rest;
            var n, b, e := |name|, |name| + |eq|, |name| + |eq| + 1 + |value|;
            e < |s| && s[..n] == name && s[n..b] == eq && s[b + 1..e] == value
  {
  }

  lemma Slice(s: string, from: nat, v: string)
    requires from + |v| <= |s| && forall i | from <= i < from + |v| :: s[i] == v[i - from]
    ensures s[from..from + |v|] == v
  {
  }

  /** Where the parts of a match stand. */
  lemma Parts(name: string, eq: string, q: char, value: string, rest: string)
    ensures var s := name + eq + [q] + value + [q] + rest;
            var n, b, e := |name|, |name| + |eq|, |name| + |eq| + 1 + |value|;
            && e < |s| && s[b] == s[e] == q
            && (forall i | 0 <= i < n :: s[i] == name[i])
            && (forall i | n <= i < b :: s[i] == eq[i - n])
            && (forall i | b + 1 <= i < e :: s[i] == value[i - b - 1])
  {
  }

  lemma MatchIs(s: string, n: nat, a: nat, b: nat, e: nat)
    requires 0 < n == NameLength(s) <= a < b < e < |s|
    requires forall i | n <= i < b && i != a :: Space(s[i])
    requires s[a] == '=' && IsQuote(s[b]) && s[e] == s[b] && forall i | b < i < e :: s[i] != s[b]
    ensures MatchHead(s) == Some(Ref(s[..n], s[n..b], s[b], s[b + 1..e]))
  {
  }

  /** The tokens of a page are the page. */
  lemma {:induction false} TokensRender(s: string)
    ensures Render(Tokens(s)) == s && Canonical(Tokens(s))
    decreases |s|
  {
    if s == "" {
    } else if MatchHead(s).None? {
      TokensRender(s[1..]);
      assert Tokens(s)[1..] == Tokens(s[1..]);
      assert s == [s[0]] + s[1..];
    } else {
      var t := MatchHead(s).value;
      MatchIsHead(s);
      MatchIsWellFormed(s);
      TokensRender(s[|Written(t)|..]);
      assert Tokens(s)[1..] == Tokens(s[|Written(t)|..]);
      assert s == Written(t) + s[|Written(t)|..];
    }
  }

  lemma TokensStep(t: Token, rest: string)
    requires WellFormed(t) && (t.Char? ==> MatchHead(Written(t) + rest).None?)
    ensures Tokens(Written(t) + rest) == [t] + Tokens(rest)
  {
    var s := Written(t) + rest;
    if t.Ref? {
      MatchesItself(t, rest);
    }
    assert s[|Written(t)|..] == rest;
  }

  lemma {:induction false} RenderTokens(ts: seq<Token>)
    requires Canonical(ts)
    ensures Tokens(Render(ts)) == ts
  {
    if ts != [] {
      RenderTokens(ts[1..]);
      TokensStep(ts[0], Render(ts[1..]));
    }
  }

  // ----- a rewritten page reads as the tokens it was written from ------------------------------

  /** Nothing that continues the part of a match before its opening quote. */
  predicate Begins(x: string) {
    x == "" || x[0] == 's' || x[0] == 'h'
  }

  /** The part before the value lies wholly before the next match or not at all. */
  lemma QuoteWithin(u: string, x: string)
    requires u != "" && Begins(x)
    ensures OpeningQuote(u + x) == OpeningQuote(u)
  {
    var n := NameLength(u);
    NameWithinStart(u, x);
    if n > 0 {
      SkipWithin(u, x, n);
      var a := Skip(u, n);
      if a < |u| && u[a] == '=' {
        SkipWithin(u, x, a + 1);
      }
    }
  }

  lemma NameWithinStart(u: string, x: string)
    requires u != "" && Begins(x)
    ensures NameLength(u + x) == NameLength(u)
  {
  }

  lemma SkipWithin(u: string, x: string, from: nat)
    requires from <= |u| && Begins(x)
    ensures Skip(u + x, from) == Skip(u, from)
  {
    assert forall i | 0 <= i < |u| :: (u + x)[i] == u[i];
    assert x != "" ==> (u + x)[|u|] == x[0];
  }

  lemma MatchIff(u: string, x: string)
    requires u != "" && Begins(x)
    ensures MatchHead(u + x).Some?
            <==> OpeningQuote(u).Some?
                 && (u[OpeningQuote(u).value] in u[OpeningQuote(u).value + 1..] || u[OpeningQuote(u).value] in x)
  {
    QuoteWithin(u, x);
    if OpeningQuote(u).Some? {
      var b := OpeningQuote(u).value;
      FindIff(u + x, u[b], b + 1);
      assert (u + x)[b + 1..] == u[b + 1..] + x;
    }
  }

  lemma FindIff(s: string, c: char, from: nat)
    requires from <= |s|
    ensures Find(s, c, from) < |s| <==> c in s[from..]
  {
  }

  lemma {:induction false} NoQuoteInPrefix(depth: nat, q: char)
    requires IsQuote(q)
    ensures q !in DotDots(depth) && q !in Prefix(depth)
  {
    if depth > 0 {
      NoQuoteInPrefix(depth - 1, q);
    }
  }

  /** A replacement has the quotes of the value it replaces. */
  lemma QuotesOfNewValue(value: string, depth: nat, q: char)
    requires value != "" && value[0] == '/' && IsQuote(q)
    ensures q in NewValue(value, depth) <==> q in value
  {
    NoQuoteInPrefix(depth, q);
    var rest := value[1..];
    assert value == ['/'] + rest;
    assert rest == rest[..PathEnd(rest)] + rest[PathEnd(rest)..];
  }

  lemma ReplacedWellFormed(t: Token, depth: nat, fileExists: string -> bool, q: char)
    requires WellFormed(t) && IsQuote(q)
    ensures WellFormed(Replaced(t, depth, fileExists))
    ensures q in Written(Replaced(t, depth, fileExists)) <==> q in Written(t)
  {
    if Changes(t, fileExists) {
      QuotesOfNewValue(t.value, depth, q);
      QuotesOfNewValue(t.value, depth, t.quote);
    }
  }

  lemma {:induction false} QuotesStay(ts: seq<Token>, depth: nat, fileExists: string -> bool, q: char)
    requires Canonical(ts) && IsQuote(q)
    ensures q in Render(ReplacedAll(ts, depth, fileExists)) <==> q in Render(ts)
  {
    if ts != [] {
      QuotesStay(ts[1..], depth, fileExists, q);
      ReplacedWellFormed(ts[0], depth, fileExists, q);
      assert ReplacedAll(ts, depth, fileExists)[1..] == ReplacedAll(ts[1..], depth, fileExists);
    }
  }

  /** The characters in front of the first match. */
  function Leading(ts: seq<Token>): (n: nat)
    ensures n <= |ts| && (n < |ts| ==> ts[n].Ref?) && forall i | 0 <= i < n :: ts[i].Char?
  {
    if ts == [] || ts[0].Ref? then 0 else 1 + Leading(ts[1..])
  }

  lemma {:induction false} RenderAppend(a: seq<Token>, b: seq<Token>)
    ensures Render(a + b) == Render(a) + Render(b)
  {
    if a == [] {
      assert a + b == b;
    } else {
      assert (a + b)[1..] == a[1..] + b;
      RenderAppend(a[1..], b);
      assert Written(a[0]) + Render(a[1..]) + Render(b) == Written(a[0]) + (Render(a[1..]) + Render(b));
    }
  }

  lemma {:induction false} CanonicalFrom(ts: seq<Token>, n: nat)
    requires Canonical(ts) && n <= |ts|
    ensures Canonical(ts[n..])
  {
    if n > 0 {
      CanonicalFrom(ts[1..], n - 1);
      assert ts[1..][n - 1..] == ts[n..];
    }
  }

  lemma {:induction false} CharsStay(cs: seq<Token>, ts: seq<Token>, depth: nat, fileExists: string -> bool)
    requires forall i | 0 <= i < |cs| :: cs[i].Char?
    ensures ReplacedAll(cs + ts, depth, fileExists) == cs + ReplacedAll(ts, depth, fileExists)
  {
    if cs == [] {
      assert cs + ts == ts;
    } else {
      assert (cs + ts)[1..] == cs[1..] + ts;
      CharsStay(cs[1..], ts, depth, fileExists);
    }
  }

  lemma BeginsWithName(ts: seq<Token>, depth: nat, fileExists: string -> bool)
    requires ts != [] ==> ts[0].Ref? && WellFormed(ts[0])
    ensures Begins(Render(ts)) && Begins(Render(ReplacedAll(ts, depth, fileExists)))
  {
  }

  lemma SplitAtMatch(ts: seq<Token>, depth: nat, fileExists: string -> bool)
    requires Canonical(ts)
    ensures var n, rs := Leading(ts), ReplacedAll(ts, depth, fileExists);
            && Canonical(ts[n..])
            && Render(ts) == Render(ts[..n]) + Render(ts[n..])
            && Render(rs) == Render(ts[..n]) + Render(ReplacedAll(ts[n..], depth, fileExists))
  {
    var n := Leading(ts);
    CanonicalFrom(ts, n);
    SplitRender(ts, n, depth, fileExists);
  }

  lemma SplitRender(ts: seq<Token>, n: nat, depth: nat, fileExists: string -> bool)
    requires n <= |ts| && forall i | 0 <= i < n :: ts[i].Char?
    ensures Render(ts) == Render(ts[..n]) + Render(ts[n..])
    ensures Render(ReplacedAll(ts, depth, fileExists))
         == Render(ts[..n]) + Render(ReplacedAll(ts[n..], depth, fileExists))
  {
    assert ts == ts[..n] + ts[n..];
    CharsStay(ts[..n], ts[n..], depth, fileExists);
    RenderAppend(ts[..n], ts[n..]);
    RenderAppend(ts[..n], ReplacedAll(ts[n..], depth, fileExists));
  }

  lemma {:induction false} ReplacedIsCanonical(ts: seq<Token>, depth: nat, fileExists: string -> bool)
    requires Canonical(ts)
    ensures Canonical(ReplacedAll(ts, depth, fileExists))
  {
    if ts != [] {
      var rs := ReplacedAll(ts, depth, fileExists);
      assert rs[1..] == ReplacedAll(ts[1..], depth, fileExists);
      ReplacedIsCanonical(ts[1..], depth, fileExists);
      ReplacedWellFormed(ts[0], depth, fileExists, '"');
      if ts[0].Char? {
        StaysUnmatched(ts, depth, fileExists);
      }
    }
  }

  lemma StaysUnmatched(ts: seq<Token>, depth: nat, fileExists: string -> bool)
    requires Canonical(ts) && ts != [] && ts[0].Char?
    ensures MatchHead(Render(ReplacedAll(ts, depth, fileExists))).None?
  {
    var n := Leading(ts);
    SplitAtMatch(ts, depth, fileExists);
    var u, x, x' := Render(ts[..n]), Render(ts[n..]), Render(ReplacedAll(ts[n..], depth, fileExists));
    assert u != "";
    BeginsWithName(ts[n..], depth, fileExists);
    QuotesStay(ts[n..], depth, fileExists, '"');
    QuotesStay(ts[n..], depth, fileExists, '\'');
    MatchIff(u, x);
    MatchIff(u, x');
  }

  /** A rewritten page, read again, has the rewritten references and otherwise the old text. */
  lemma RewrittenReadsBack(page: string, depth: nat, fileExists: string -> bool)
    ensures Tokens(Rewritten(page, depth, fileExists)) == ReplacedAll(Tokens(page), depth, fileExists)
  {
    TokensRender(page);
    ReplacedIsCanonical(Tokens(page), depth, fileExists);
    RenderTokens(ReplacedAll(Tokens(page), depth, fileExists));
  }

  lemma {:induction false} NothingLeft(ts: seq<Token>, depth: nat, fileExists: string -> bool)
    ensures CountChanges(ReplacedAll(ts, depth, fileExists), fileExists) == 0
  {
    if ts != [] {
      NothingLeft(ts[1..], depth, fileExists);
      var rs := ReplacedAll(ts, depth, fileExists);
      assert rs[1..] == ReplacedAll(ts[1..], depth, fileExists);
      if Changes(ts[0], fileExists) {
        assert rs[0].value[0] == '.';
      }
    }
  }

  lemma {:induction false} NoChangeNoDifference(ts: seq<Token>, depth: nat, fileExists: string -> bool)
    ensures CountChanges(ts, fileExists) == 0 <==> ReplacedAll(ts, depth, fileExists) == ts
  {
    if ts != [] {
      NoChangeNoDifference(ts[1..], depth, fileExists);
      var rs := ReplacedAll(ts, depth, fileExists);
      assert rs[1..] == ReplacedAll(ts[1..], depth, fileExists);
      assert ts == [ts[0]] + ts[1..];
      if Changes(ts[0], fileExists) {
        assert rs[0].value[0] == '.';
        assert ts[0].value[0] == '/';
        assert rs[0] != ts[0];
      }
    }
  }

  /** A second run finds nothing to rewrite and leaves the page as it is. */
  lemma SecondRunRewritesNothing(page: string, depth: nat, fileExists: string -> bool)
    ensures var once := Rewritten(page, depth, fileExists);
            && CountChanges(Tokens(once), fileExists) == 0
            && Rewritten(once, depth, fileExists) == once
  {
    var once := Rewritten(page, depth, fileExists);
    RewrittenReadsBack(page, depth, fileExists);
    NothingLeft(Tokens(page), depth, fileExists);
    NoChangeNoDifference(Tokens(once), depth, fileExists);
    TokensRender(once);
  }
}
