/** internal/loopdetect/detector.go: spotting an agent that repeats one tool call or alternates
    between two, on a ring of recent calls, against the plain list of calls. */
module LoopDetector {

  import opened Ring

  datatype Level = None | Warning | Critical

  datatype Result = Result(level: Level, message: string)

  datatype Call = Call(tool: string, hash: string)

  // ----- the verdict on a plain list -----------------------------------------------------------

  /** The newest call is the last one; the six newest alternate between it and another call. */
  predicate PingPong(recent: seq<Call>) {
    && |recent| >= 6
    && var last, other := recent[|recent| - 1], recent[|recent| - 2];
       && last != other
       && recent[|recent| - 6..] == [other, last, other, last, other, last]
  }

  /** What a verdict says, before it is put into words. */
  datatype Finding = Repeats(level: Level, tool: string, n: nat)
                   | Alternates(one: string, other: string)
                   | Nothing

  function Find(recent: seq<Call>, warn: int, crit: int): Finding
    requires recent != []
  {
    var last := recent[|recent| - 1];
    var repeats := multiset(recent)[last];
    if repeats >= crit then Repeats(Critical, last.tool, repeats)
    else if repeats >= warn then Repeats(Warning, last.tool, repeats)
    else if PingPong(recent) then Alternates(last.tool, recent[|recent| - 2].tool)
    else Nothing
  }

  function Worded(finding: Finding): Result {
    match finding
    case Repeats(level, tool, n) =>
      Result(level, (if level == Critical then "tool loop detected: " else "potential tool loop: ")
                    + tool + " repeated " + Decimal(n) + " times")
    case Alternates(one, other) => Result(Warning, "ping-pong pattern: " + one + " <-> " + other)
    case Nothing => Result(None, "")
  }

  function Verdict(recent: seq<Call>, warn: int, crit: int): Result
    requires recent != []
  {
    Worded(Find(recent, warn, crit))
  }

  class Detector {
    var window: array<Call>
    var pos: nat
    var size: nat
    var warnThreshold: int
    var critThreshold: int
    /** Every call recorded since the last Reset. */
    ghost var calls: seq<Call>

    ghost predicate Valid()
      reads this, window
    {
      if window.Length == 0 then pos == size == 0 && calls == []
      else Holds(window[..], pos, size, Kept(calls, window.Length)) && (size < window.Length ==> pos == size)
    }

    constructor (windowSize: nat, warn: int, crit: int)
      ensures Valid() && calls == [] && window.Length == windowSize && fresh(window)
      ensures warnThreshold == warn && critThreshold == crit
    {
      window := new Call[windowSize](_ => Call("", ""));
      pos, size, warnThreshold, critThreshold := 0, 0, warn, crit;
      calls := [];
    }

    /** Indexing a window of no slots fails at run time. */
    method Record(toolName: string, inputHash: string) returns (r: Result)
      requires Valid() && window.Length > 0
      modifies this`pos, this`size, this`calls, window
      ensures Valid() && calls == old(calls) + [Call(toolName, inputHash)]
      ensures r == Verdict(Kept(calls, window.Length), warnThreshold, critThreshold)
    {
      var c := Call(toolName, inputHash);
      Put(c);
      var count := CountOf(c);
      var finding := Judge(c, count);
      r := InWords(finding);
    }

    /** Record's tests, the newest call being counted already. */
    method Judge(c: Call, count: nat) returns (finding: Finding)
      requires Valid() && window.Length > 0 && calls != [] && c == calls[|calls| - 1]
      requires count == multiset(Kept(calls, window.Length))[c]
      ensures finding == Find(Kept(calls, window.Length), warnThreshold, critThreshold)
    {
      NewestIsKept(calls, window.Length);
      if count >= critThreshold {
        return Repeats(Critical, c.tool, count);
      }
      if count >= warnThreshold {
        return Repeats(Warning, c.tool, count);
      }
      var pong, one, other := CheckPingPong();
      if pong {
        return Alternates(one, other);
      }
      return Nothing;
    }

    method CheckPingPong() returns (pong: bool, one: string, other: string)
      requires Valid() && window.Length > 0
      ensures var recent := Kept(calls, window.Length);
              && pong == PingPong(recent)
              && (pong ==> one == recent[|recent| - 1].tool && other == recent[|recent| - 2].tool)
    {
      if size < 6 {
        return false, "", "";
      }
      var newest := LastSix();
      ghost var recent := Kept(calls, window.Length);
      SixNewest(recent, newest);
      return Alternating(newest), newest[0].tool, newest[1].tool;
    }

    /** Record's write into the window. */
    method Put(c: Call)
      requires Valid() && window.Length > 0
      modifies this`pos, this`size, this`calls, window
      ensures Valid() && calls == old(calls) + [c]
    {
      PushHolds(window[..], pos, size, calls, c);
      window[pos] := c;
      assert window[..] == old(window[..])[pos := c];
      pos := Remainder(pos + 1, window.Length);
      if size < window.Length {
        size := size + 1;
      }
      calls := calls + [c];
    }

    /** Record's counting loop: slots in array order, which is not the order of the calls. */
    method CountOf(c: Call) returns (count: nat)
      requires Valid() && window.Length > 0
      ensures count == multiset(Kept(calls, window.Length))[c]
    {
      count := 0;
      for i := 0 to size
        invariant count == multiset(window[..i])[c]
      {
        assert window[..i + 1] == window[..i] + [window[i]];
        if window[i] == c {
          count := count + 1;
        }
      }
      Rotation(window[..], pos, size, Kept(calls, window.Length));
      assert window[..size] == window[..][..size];
    }

    /** Record's copy of the six newest calls, newest first. */
    method LastSix() returns (newest: seq<Call>)
      requires Valid() && window.Length > 0 && size >= 6
      ensures |newest| == 6
      ensures var recent := Kept(calls, window.Length);
              forall i: nat | i < 6 :: newest[i] == recent[|recent| - 1 - i]
    {
      ghost var recent := Kept(calls, window.Length);
      newest := [];
      for i := 0 to 6
        invariant |newest| == i && forall k: nat | k < i :: newest[k] == recent[size - 1 - k]
      {
        var idx := Remainder(pos - 1 - i + window.Length, window.Length);
        BackFrom(pos, size, window.Length, i);
        SlotHolds(window[..], pos, size, recent, size - 1 - i);
        newest := newest + [window[idx]];
      }
    }

    /** Stale slots stay in the array, and no later verdict sees them. */
    method Reset()
      requires Valid()
      modifies this`pos, this`size, this`calls
      ensures Valid() && calls == []
    {
      pos := 0;
      size := 0;
      calls := [];
    }
  }

  /** Counting back from the next-write position. */
  lemma BackFrom(head: nat, count: nat, c: nat, i: nat)
    requires head < c && i < count <= c
    ensures 0 <= head - 1 - i + c < 2 * c
    ensures Wrap(head - 1 - i + c, c) == SlotOf(head, count, c, count - 1 - i)
  {
  }

  /** The occupied slots are the kept calls in another order. */
  lemma Rotation<T>(slots: seq<T>, head: nat, count: nat, kept: seq<T>)
    requires Holds(slots, head, count, kept) && (count < |slots| ==> head == count)
    ensures multiset(slots[..count]) == multiset(kept)
  {
    if count < |slots| {
      forall i: nat | i < count ensures slots[..count][i] == kept[i] {
        assert HeldAt(slots, head, count, kept, i);
      }
      assert slots[..count] == kept;
    } else {
      forall i: nat | i < count ensures (slots[head..] + slots[..head])[i] == kept[i] {
        assert HeldAt(slots, head, count, kept, i);
      }
      assert slots[head..] + slots[..head] == kept;
      assert slots == slots[..head] + slots[head..];
      assert slots[..count] == slots;
    }
  }

  lemma NewestIsKept(calls: seq<Call>, cap: nat)
    requires calls != [] && cap > 0
    ensures var recent := Kept(calls, cap); recent != [] && recent[|recent| - 1] == calls[|calls| - 1]
  {
  }

  /** Record's test on the six newest calls, newest first. */
  predicate Alternating(r: seq<Call>)
    requires |r| == 6
  {
    r[0] == r[2] && r[2] == r[4] && r[1] == r[3] && r[3] == r[5] && r[0] != r[1]
  }

  lemma SixNewest(recent: seq<Call>, newest: seq<Call>)
    requires |recent| >= 6 && |newest| == 6
    requires forall i: nat | i < 6 :: newest[i] == recent[|recent| - 1 - i]
    ensures PingPong(recent) == Alternating(newest)
    ensures newest[0] == recent[|recent| - 1] && newest[1] == recent[|recent| - 2]
  {
    var six := recent[|recent| - 6..];
    assert newest[0] == recent[|recent| - 1 - 0] && newest[1] == recent[|recent| - 1 - 1];
    assert six == [newest[5], newest[4], newest[3], newest[2], newest[1], newest[0]];
  }

  // ----- what the verdicts mean ----------------------------------------------------------------

  /** Six alternating calls hold three of the newest, so a warning threshold of three or less
      always reports the repetition instead: ping-pong is reported only above it. */
  lemma PingPongIsReportedIff(recent: seq<Call>, warn: int, crit: int)
    requires recent != []
    ensures var repeats := multiset(recent)[recent[|recent| - 1]];
            && (Find(recent, warn, crit).Alternates?
                <==> PingPong(recent) && repeats < warn && repeats < crit)
            && (PingPong(recent) ==> repeats >= 3)
  {
    if PingPong(recent) {
      var before, six := recent[..|recent| - 6], recent[|recent| - 6..];
      assert recent == before + six;
      assert multiset(six)[recent[|recent| - 1]] == 3;
    }
  }

  /** The verdict on every list of calls, by how often the newest call is among them: critical from
      crit on, else a warning from warn on, else a warning for six calls that alternate, each with
      its message, else nothing. */
  lemma VerdictMeaning(recent: seq<Call>, warn: int, crit: int)
    requires recent != []
    ensures var n, last := |Same(recent)|, recent[|recent| - 1];
            var v, times := Verdict(recent, warn, crit), last.tool + (" repeated " + (Decimal(n) + " times"));
            && (v.level == Critical <==> n >= crit)
            && (v.level == Warning <==> n < crit && (n >= warn || Alternate(recent)))
            && (n >= crit ==> v.message == "tool loop detected: " + times)
            && (warn <= n < crit ==> v.message == "potential tool loop: " + times)
            && (n < crit && n < warn && Alternate(recent) ==>
                  v.message == "ping-pong pattern: " + (last.tool + (" <-> " + recent[|recent| - 2].tool)))
            && (v.level == None ==> v.message == "")
  {
    SameIsMultiplicity(recent, recent[|recent| - 1], |recent|);
    assert recent[..|recent|] == recent && Same(recent) == Places(recent, recent[|recent| - 1], |recent|);
    AlternateIff(recent);
    Phrases(recent[|recent| - 1].tool, Decimal(|Same(recent)|));
    if |recent| >= 2 {
      PingPongPhrase(recent[|recent| - 1].tool, recent[|recent| - 2].tool);
    }
  }

  lemma Phrases(tool: string, numeral: string)
    ensures "tool loop detected: " + tool + " repeated " + numeral + " times"
         == "tool loop detected: " + (tool + (" repeated " + (numeral + " times")))
    ensures "potential tool loop: " + tool + " repeated " + numeral + " times"
         == "potential tool loop: " + (tool + (" repeated " + (numeral + " times")))
  {
  }

  lemma PingPongPhrase(one: string, other: string)
    ensures "ping-pong pattern: " + one + " <-> " + other == "ping-pong pattern: " + (one + (" <-> " + other))
  {
  }

  /** The positions of the newest call. */
  function Same(recent: seq<Call>): set<nat>
    requires recent != []
  {
    set i: nat | i < |recent| && recent[i] == recent[|recent| - 1]
  }

  /** Six calls or more, the last two different, and each of the last four the same as the call
      two before it. */
  predicate Alternate(recent: seq<Call>) {
    && |recent| >= 6 && recent[|recent| - 1] != recent[|recent| - 2]
    && forall i | |recent| - 4 <= i < |recent| :: recent[i] == recent[i - 2]
  }

  lemma AlternateIff(recent: seq<Call>)
    ensures PingPong(recent) <==> Alternate(recent)
  {
    if |recent| >= 6 {
      var six, n := recent[|recent| - 6..], |recent|;
      assert six == [recent[n - 6], recent[n - 5], recent[n - 4], recent[n - 3], recent[n - 2], recent[n - 1]];
      if PingPong(recent) {
        assert six[0] == six[2] == six[4] && six[1] == six[3] == six[5];
      }
    }
  }

  /** The positions of a call among the first n. */
  function Places(calls: seq<Call>, c: Call, n: nat): set<nat>
    requires n <= |calls|
  {
    set i: nat | i < n && calls[i] == c
  }

  lemma PlacesNext(calls: seq<Call>, c: Call, n: nat)
    requires n < |calls|
    ensures |Places(calls, c, n + 1)| == |Places(calls, c, n)| + if calls[n] == c then 1 else 0
  {
    var before, now := Places(calls, c, n), Places(calls, c, n + 1);
    if calls[n] == c {
      assert now == before + {n};
    } else {
      assert now == before;
    }
  }

  lemma MultiplicityNext(calls: seq<Call>, c: Call, n: nat)
    requires n < |calls|
    ensures multiset(calls[..n + 1])[c] == multiset(calls[..n])[c] + if calls[n] == c then 1 else 0
  {
    assert calls[..n + 1] == calls[..n] + [calls[n]];
  }

  lemma {:induction false} SameIsMultiplicity(calls: seq<Call>, c: Call, n: nat)
    requires n <= |calls|
    ensures multiset(calls[..n])[c] == |Places(calls, c, n)|
  {
    if n > 0 {
      SameIsMultiplicity(calls, c, n - 1);
      PlacesNext(calls, c, n - 1);
      MultiplicityNext(calls, c, n - 1);
    }
  }

  /** The wording tells the rules apart: a message says which one fired. */
  lemma WordingTellsRule(f: Finding, g: Finding)
    requires f.Repeats? ==> f.level == Critical || f.level == Warning
    requires g.Repeats? ==> g.level == Critical || g.level == Warning
    requires Worded(f) == Worded(g)
    ensures f.Repeats? == g.Repeats? && f.Alternates? == g.Alternates?
  {
    Opening(f);
    Opening(g);
  }

  lemma Opening(f: Finding)
    ensures var m := Worded(f).message;
            && (f.Repeats? ==> |m| > 1 && m[1] == 'o')
            && (f.Alternates? ==> |m| > 1 && m[1] == 'i')
            && (f.Nothing? ==> m == "")
  {
  }

  /** A call that makes up the whole window is reported as critical once the window can hold
      critThreshold calls, and never otherwise. */
  lemma {:induction false} SteadyLoopIsCriticalIff(c: Call, n: nat, windowSize: nat, warn: int, crit: int)
    requires n > 0 && windowSize > 0
    ensures var recent := Kept(seq(n, _ => c), windowSize);
            Verdict(recent, warn, crit).level == Critical
            <==> crit <= if n <= windowSize then n else windowSize
  {
    var recent := Kept(seq(n, _ => c), windowSize);
    AllSame(recent, c);
  }

  lemma {:induction false} AllSame<T>(s: seq<T>, c: T)
    requires forall i | 0 <= i < |s| :: s[i] == c
    ensures multiset(s)[c] == |s|
  {
    if s != [] {
      assert s == s[..|s| - 1] + [s[|s| - 1]];
      AllSame(s[..|s| - 1], c);
    }
  }

  // ----- decimal numerals ----------------------------------------------------------------------

  function Digit(d: nat): (c: char)
    requires d < 10
    ensures '0' <= c <= '9'
  {
    '0' + d as char
  }

  function Decimal(n: nat): (s: string)
    ensures s != []
  {
    if n < 10 then [Digit(n)] else Decimal(n / 10) + [Digit(n % 10)]
  }

  function Number(s: string): int {
    if s == [] then 0 else 10 * Number(s[..|s| - 1]) + (s[|s| - 1] as int - '0' as int)
  }

  /** The numeral in a message reads back as the count. */
  lemma {:induction false} NumeralReadsBack(n: nat)
    ensures Number(Decimal(n)) == n
    ensures |Decimal(n)| > 1 ==> Decimal(n)[0] != '0'
  {
    if n >= 10 {
      NumeralReadsBack(n / 10);
      assert Decimal(n)[..|Decimal(n)| - 1] == Decimal(n / 10);
      if |Decimal(n / 10)| == 1 {
        assert n / 10 < 10;
      }
    } else {
      assert Decimal(n)[..0] == [];
    }
  }

  function Reversed(s: string): (r: string)
    ensures |r| == |s| && forall i | 0 <= i < |s| :: r[i] == s[|s| - 1 - i]
  {
    if s == [] then [] else [s[|s| - 1]] + Reversed(s[..|s| - 1])
  }

  method Itoa(n: int) returns (s: string)
    ensures s == if n < 0 then "" else Decimal(n)
  {
    if n == 0 {
      return "0";
    }
    var buf, rest := [], n;
    while rest > 0
      invariant n < 0 ==> rest == n && buf == []
      invariant n > 0 ==> rest >= 0
      invariant n > 0 ==> (if rest == 0 then [] else Decimal(rest)) + Reversed(buf) == Decimal(n)
    {
      buf := buf + [Digit(rest % 10)];
      rest := rest / 10;
    }
    s := Reverse(buf);
  }

  method Reverse(digits: string) returns (buf: string)
    ensures buf == Reversed(digits)
  {
    buf := digits;
    var i, j := 0, |buf| - 1;
    while i < j
      invariant 0 <= i <= j + 1 && i + j == |digits| - 1 && |buf| == |digits|
      invariant forall k | i <= k <= j :: buf[k] == digits[k]
      invariant forall k | 0 <= k < i || j < k < |digits| :: buf[k] == digits[|digits| - 1 - k]
    {
      buf := buf[i := buf[j]][j := buf[i]];
      i, j := i + 1, j - 1;
    }
  }

  /** Record's messages. */
  method InWords(finding: Finding) returns (r: Result)
    ensures r == Worded(finding)
  {
    match finding
    case Repeats(level, tool, n) =>
      var numeral := Itoa(n);
      r := Result(level, (if level == Critical then "tool loop detected: " else "potential tool loop: ")
                         + tool + " repeated " + numeral + " times");
    case Alternates(one, other) =>
      r := Result(Warning, "ping-pong pattern: " + one + " <-> " + other);
    case Nothing =>
      r := Result(None, "");
  }
}
