/** Byte strings, and the few pieces of Go's `strings` and `path/filepath` packages
    that the modelled code calls.  A `char` stands for one byte; white space is the
    ASCII white space of `strings.TrimSpace`. */
module Text {

  datatype Option<+T> = None | Some(value: T)

  predicate IsSpace(c: char) {
    c == ' ' || c == '\t' || c == '\n' || c == '\U{0B}' || c == '\U{0C}' || c == '\r'
  }

  function TrimLeft(s: string): (r: string)
    ensures r == "" || !IsSpace(r[0])
    ensures |r| <= |s|
  {
    if s != "" && IsSpace(s[0]) then TrimLeft(s[1..]) else s
  }

  function TrimRight(s: string): (r: string)
    ensures r == "" || !IsSpace(r[|r| - 1])
    ensures r <= s
  {
    if s != "" && IsSpace(s[|s| - 1]) then TrimRight(s[..|s| - 1]) else s
  }

  function TrimSpace(s: string): (r: string)
    ensures |r| <= |s|
  {
    TrimRight(TrimLeft(s))
  }

  /** Nothing but white space. */
  predicate Blank(s: string) {
    forall i | 0 <= i < |s| :: IsSpace(s[i])
  }

  lemma {:induction false} TrimRightEmpty(s: string)
    requires TrimRight(s) == ""
    ensures Blank(s)
  {
    if s != "" {
      TrimRightEmpty(s[..|s| - 1]);
      forall i | 0 <= i < |s| ensures IsSpace(s[i]) {
        if i < |s| - 1 { assert s[i] == s[..|s| - 1][i]; }
      }
    }
  }

  lemma {:induction false} TrimLeftEmpty(s: string)
    ensures TrimLeft(s) == "" <==> Blank(s)
  {
    if s != "" && IsSpace(s[0]) {
      TrimLeftEmpty(s[1..]);
      assert Blank(s) ==> Blank(s[1..]);
      if Blank(s[1..]) {
        forall i | 0 <= i < |s| ensures IsSpace(s[i]) {
          if i > 0 { assert s[i] == s[1..][i - 1]; }
        }
      }
    }
  }

  /** A trimmed string is empty exactly when the string was blank. */
  lemma TrimSpaceEmpty(s: string)
    ensures TrimSpace(s) == "" <==> Blank(s)
  {
    TrimLeftEmpty(s);
    if TrimSpace(s) == "" {
      TrimRightEmpty(TrimLeft(s));
    }
  }

  lemma {:induction false} TrimLeftDrops(lead: string, t: string)
    requires Blank(lead) && t != "" && !IsSpace(t[0])
    ensures TrimLeft(lead + t) == t
  {
    if lead == "" {
      assert lead + t == t;
    } else {
      assert Blank(lead[1..]);
      TrimLeftDrops(lead[1..], t);
      assert (lead + t)[1..] == lead[1..] + t;
    }
  }

  lemma {:induction false} TrimRightDrops(t: string, tail: string)
    requires Blank(tail) && t != "" && !IsSpace(t[|t| - 1])
    ensures TrimRight(t + tail) == t
  {
    if tail == "" {
      assert t + tail == t;
    } else {
      var shorter := tail[..|tail| - 1];
      assert Blank(shorter);
      TrimRightDrops(t, shorter);
      assert (t + tail)[..|t + tail| - 1] == t + shorter;
    }
  }

  /** Trimming takes off the white space (the bytes 9 to 13 and 32) at both ends and nothing else. */
  lemma TrimSpaceMeaning(lead: string, t: string, tail: string)
    requires forall i | 0 <= i < |lead| :: 9 <= lead[i] as int <= 13 || lead[i] as int == 32
    requires forall i | 0 <= i < |tail| :: 9 <= tail[i] as int <= 13 || tail[i] as int == 32
    requires t != "" ==>
               !(9 <= t[0] as int <= 13 || t[0] as int == 32)
               && !(9 <= t[|t| - 1] as int <= 13 || t[|t| - 1] as int == 32)
    ensures TrimSpace(lead + (t + tail)) == t
  {
    if t == "" {
      assert Blank(lead + (t + tail));
      TrimSpaceEmpty(lead + (t + tail));
    } else {
      assert (t + tail)[0] == t[0];
      TrimLeftDrops(lead, t + tail);
      TrimRightDrops(t, tail);
    }
  }

  function ToLowerChar(c: char): char {
    if 'A' <= c <= 'Z' then c - 'A' + 'a' else c
  }

  function ToLower(s: string): (r: string)
    ensures |r| == |s|
    ensures forall i | 0 <= i < |s| :: r[i] == ToLowerChar(s[i])
  {
    seq(|s|, i requires 0 <= i < |s| => ToLowerChar(s[i]))
  }

  /** The same letter in either case, or the same byte. */
  predicate SameLetter(a: char, b: char) {
    || a == b
    || ('A' <= a <= 'Z' && b as int == a as int + 32)
    || ('A' <= b <= 'Z' && a as int == b as int + 32)
  }

  /** The same text, letter by letter, whatever the case of its letters. */
  predicate Alike(s: string, t: string) {
    |s| == |t| && forall i | 0 <= i < |s| :: SameLetter(s[i], t[i])
  }

  lemma LowerLetters(a: char, b: char)
    ensures ToLowerChar(a) == ToLowerChar(b) <==> SameLetter(a, b)
  {
  }

  lemma ToLowerAlike(s: string, t: string)
    ensures ToLower(s) == ToLower(t) <==> Alike(s, t)
  {
    forall i | 0 <= i < |s| && i < |t| ensures ToLowerChar(s[i]) == ToLowerChar(t[i]) <==> SameLetter(s[i], t[i]) {
      LowerLetters(s[i], t[i]);
    }
    if ToLower(s) == ToLower(t) {
      forall i | 0 <= i < |s| ensures SameLetter(s[i], t[i]) {
        assert ToLower(s)[i] == ToLower(t)[i];
      }
    }
  }

  predicate Contains(s: string, sub: string) {
    exists i | 0 <= i <= |s| :: sub <= s[i..]
  }

  /** The text stands at byte i, whatever the case of its letters. */
  predicate ReadsAt(s: string, i: int, text: string) {
    0 <= i <= |s| - |text| && forall j | 0 <= j < |text| :: SameLetter(s[i + j], text[j])
  }

  /** No capital letter. */
  predicate Lower(s: string) {
    forall i | 0 <= i < |s| :: ToLowerChar(s[i]) == s[i]
  }

  lemma LowerReads(s: string, i: nat, text: string)
    requires i <= |s| && Lower(text)
    ensures text <= ToLower(s)[i..] <==> ReadsAt(s, i, text)
  {
    forall j | 0 <= j < |text| && i + j < |s|
      ensures ToLower(s)[i..][j] == text[j] <==> SameLetter(s[i + j], text[j])
    {
      LowerLetters(s[i + j], text[j]);
    }
    if text <= ToLower(s)[i..] {
      assert forall j | 0 <= j < |text| :: ToLower(s)[i..][j] == text[j];
    }
  }

  /** Some stretch of s reads like the text. */
  ghost predicate Says(s: string, text: string) {
    exists i :: ReadsAt(s, i, text)
  }

  lemma ContainsMeaning(s: string, text: string)
    requires Lower(text)
    ensures Contains(ToLower(s), text) <==> Says(s, text)
  {
    forall i: nat | i <= |s| ensures text <= ToLower(s)[i..] <==> ReadsAt(s, i, text) {
      LowerReads(s, i, text);
    }
    if Contains(ToLower(s), text) {
      var i :| 0 <= i <= |s| && text <= ToLower(s)[i..];
      assert ReadsAt(s, i, text);
    }
    if i :| ReadsAt(s, i, text) {
      assert text <= ToLower(s)[i..];
    }
  }
}
