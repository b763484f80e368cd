/** What splitByOperators of validate.go promises: it loses nothing, its segments are split no
    further, and it cuts in the one possible way. */
module ShellSplit {
  import opened Shell

  /** Segments put back together with the given operators between them. */
  function Rejoin(segs: seq<string>, ops: seq<string>): string
    requires |segs| == |ops| + 1
  {
    if ops == [] then segs[0] else segs[0] + ops[0] + Rejoin(segs[1..], ops[1..])
  }

  predicate OperatorsOnly(ops: seq<string>) {
    forall k | 0 <= k < |ops| :: ops[k] == "|" || ops[k] == "&&"
  }

  lemma RejoinPush(p: string, segs: seq<string>, ops: seq<string>)
    requires |segs| == |ops| + 1
    ensures Rejoin(Push(p, segs), ops) == p + Rejoin(segs, ops)
  {
    if ops != [] {
      assert (p + segs[0]) + ops[0] + Rejoin(segs[1..], ops[1..])
          == p + (segs[0] + ops[0] + Rejoin(segs[1..], ops[1..]));
    }
  }

  /** Nothing is lost: the command is its segments re-joined with the dropped operators. */
  lemma {:induction false} SplitLossless(s: string, q: Quote)
    ensures OperatorsOnly(Operators(s, q))
    ensures Rejoin(SplitScan(s, q), Operators(s, q)) == s
    decreases |s|
  {
    if s == "" {
    } else if IsToggle(q, s[0]) {
      SplitLossless(s[1..], Toggled(q, s[0]));
      RejoinPush(s[..1], SplitScan(s[1..], Toggled(q, s[0])), Operators(s, q));
    } else if s[0] == '\\' && |s| > 1 {
      SplitLossless(s[2..], q);
      RejoinPush(s[..2], SplitScan(s[2..], q), Operators(s, q));
    } else if q == Bare && s[0] == '|' {
      SplitLossless(s[1..], q);
      RejoinCut(s, 1);
    } else if q == Bare && IsAnd(s) {
      SplitLossless(s[2..], q);
      RejoinCut(s, 2);
    } else {
      SplitLossless(s[1..], q);
      RejoinPush(s[..1], SplitScan(s[1..], q), Operators(s, q));
    }
  }

  lemma RejoinCut(s: string, n: nat)
    requires (n == 1 && s != "" && s[0] == '|') || (n == 2 && IsAnd(s))
    requires Rejoin(SplitScan(s[n..], Bare), Operators(s[n..], Bare)) == s[n..]
    ensures Rejoin(SplitScan(s, Bare), Operators(s, Bare)) == s
  {
    var op := if n == 1 then "|" else "&&";
    AtOperator(s, n);
    RejoinFirst(op, SplitScan(s[n..], Bare), Operators(s[n..], Bare));
    assert s[..n] == op && op + s[n..] == s;
  }

  lemma RejoinFirst(op: string, segs: seq<string>, ops: seq<string>)
    requires |segs| == |ops| + 1
    ensures Rejoin([""] + segs, [op] + ops) == op + Rejoin(segs, ops)
  {
    assert ([""] + segs)[1..] == segs && ([op] + ops)[1..] == ops;
    assert "" + op == op;
  }

  lemma AtOperator(s: string, n: nat)
    requires (n == 1 && s != "" && s[0] == '|') || (n == 2 && IsAnd(s))
    ensures SplitScan(s, Bare) == [""] + SplitScan(s[n..], Bare)
    ensures Operators(s, Bare) == [if n == 1 then "|" else "&&"] + Operators(s[n..], Bare)
  {
  }

  /** Read from state q, the text ends outside quotes with no escape left open. */
  predicate Closes(s: string, q: Quote)
    decreases |s|
  {
    if s == "" then q == Bare
    else if IsToggle(q, s[0]) then Closes(s[1..], Toggled(q, s[0]))
    else if s[0] == '\\' then |s| > 1 && Closes(s[2..], q)
    else Closes(s[1..], q)
  }

  /** Read from state q, the last byte is an ampersand that is neither quoted nor escaped. */
  predicate EndsInAnd(s: string, q: Quote)
    decreases |s|
  {
    if s == "" then false
    else if IsToggle(q, s[0]) then EndsInAnd(s[1..], Toggled(q, s[0]))
    else if s[0] == '\\' && |s| > 1 then EndsInAnd(s[2..], q)
    else if |s| == 1 then q == Bare && s[0] == '&'
    else EndsInAnd(s[1..], q)
  }

  /** A piece that may stand before the operator op: the splitter leaves it whole, it
      closes its quotes, and its end does not run into the operator. */
  predicate Piece(t: string, q: Quote, op: string) {
    SplitScan(t, q) == [t] && Closes(t, q) && (op == "&&" ==> !EndsInAnd(t, q))
  }

  /** The first segment is a prefix of the text, cut where an operator or the end follows. */
  predicate HeadFits(s: string, segs: seq<string>)
    requires |segs| >= 1
  {
    && segs[0] <= s
    && (|segs| > 1 ==> |segs[0]| < |s| && (s[|segs[0]|] == '|' || s[|segs[0]|] == '&'))
    && (|segs| == 1 ==> segs[0] == s)
  }

  lemma PushedHeadFits(s: string, n: nat, segs: seq<string>)
    requires n <= |s| && |segs| >= 1 && HeadFits(s[n..], segs)
    ensures HeadFits(s, Push(s[..n], segs))
  {
    assert s[..n] + s[n..] == s;
  }

  lemma {:induction false} HeadSegment(s: string, q: Quote)
    ensures HeadFits(s, SplitScan(s, q))
    decreases |s|
  {
    if s == "" {
    } else if IsToggle(q, s[0]) {
      HeadSegment(s[1..], Toggled(q, s[0]));
      PushedHeadFits(s, 1, SplitScan(s[1..], Toggled(q, s[0])));
    } else if s[0] == '\\' && |s| > 1 {
      HeadSegment(s[2..], q);
      PushedHeadFits(s, 2, SplitScan(s[2..], q));
    } else if q == Bare && (s[0] == '|' || IsAnd(s)) {
    } else {
      HeadSegment(s[1..], q);
      PushedHeadFits(s, 1, SplitScan(s[1..], q));
    }
  }

  /** The head segment is split no further; if an operator follows, it is a piece. */
  lemma {:induction false} HeadIsPiece(s: string, q: Quote)
    ensures SplitScan(SplitScan(s, q)[0], q) == [SplitScan(s, q)[0]]
    ensures |SplitScan(s, q)| > 1 ==> Piece(SplitScan(s, q)[0], q, Operators(s, q)[0])
    decreases |s|
  {
    var t := SplitScan(s, q)[0];
    if s == "" {
    } else if IsToggle(q, s[0]) {
      HeadIsPiece(s[1..], Toggled(q, s[0]));
      assert t[1..] == SplitScan(s[1..], Toggled(q, s[0]))[0];
    } else if s[0] == '\\' && |s| > 1 {
      HeadIsPiece(s[2..], q);
      assert t[2..] == SplitScan(s[2..], q)[0];
      assert t[..2] == s[..2];
    } else if q == Bare && (s[0] == '|' || IsAnd(s)) {
    } else {
      HeadIsPiece(s[1..], q);
      HeadSegment(s[1..], q);
      assert t[1..] == SplitScan(s[1..], q)[0];
      assert t[..1] == s[..1];
      if |t| > 1 { assert t[1] == t[1..][0] == s[1..][0] == s[1]; }
      if |t| == 1 && |SplitScan(s, q)| > 1 && q == Bare && s[0] == '&' {
        assert SplitScan(s[1..], q)[0] == "";
        assert s[1..][0] == s[1] != '&';
        assert Operators(s, q)[0] == Operators(s[1..], q)[0] == "|";
      }
    }
  }

  /** Segment k is split no further and fits the operator after it. */
  predicate PieceAt(segs: seq<string>, ops: seq<string>, k: nat)
    requires k < |segs|
  {
    SplitScan(segs[k], Bare) == [segs[k]] && (k < |ops| ==> Piece(segs[k], Bare, ops[k]))
  }

  lemma PushedPiece(prefix: string, segs: seq<string>, ops: seq<string>, k: nat)
    requires 1 <= k < |segs| && PieceAt(segs, ops, k)
    ensures PieceAt(Push(prefix, segs), ops, k)
  {
    assert Push(prefix, segs)[k] == segs[k];
  }

  lemma NextPiece(segs: seq<string>, op: string, ops: seq<string>, k: nat)
    requires k < |segs| && PieceAt(segs, ops, k)
    ensures PieceAt([""] + segs, [op] + ops, k + 1)
  {
    assert ([""] + segs)[k + 1] == segs[k];
    assert k < |ops| ==> ([op] + ops)[k + 1] == ops[k];
  }

  lemma FirstPiece(s: string)
    ensures PieceAt(SplitScan(s, Bare), Operators(s, Bare), 0)
  {
    HeadIsPiece(s, Bare);
  }

  lemma PieceAfterOperator(s: string, n: nat, k: nat)
    requires s != "" && n == (if s[0] == '|' then 1 else 2) && (n == 2 ==> IsAnd(s))
    requires 1 <= k <= |SplitScan(s[n..], Bare)|
    requires PieceAt(SplitScan(s[n..], Bare), Operators(s[n..], Bare), k - 1)
    ensures k < |SplitScan(s, Bare)| && PieceAt(SplitScan(s, Bare), Operators(s, Bare), k)
  {
    AtOperator(s, n);
    NextPiece(SplitScan(s[n..], Bare), if n == 1 then "|" else "&&", Operators(s[n..], Bare), k - 1);
  }

  lemma {:induction false} LaterPieces(s: string, q: Quote, k: nat)
    requires 1 <= k < |SplitScan(s, q)|
    ensures PieceAt(SplitScan(s, q), Operators(s, q), k)
    decreases |s|
  {
    if IsToggle(q, s[0]) {
      LaterPieces(s[1..], Toggled(q, s[0]), k);
      PushedPiece(s[..1], SplitScan(s[1..], Toggled(q, s[0])), Operators(s, q), k);
    } else if s[0] == '\\' && |s| > 1 {
      LaterPieces(s[2..], q, k);
      PushedPiece(s[..2], SplitScan(s[2..], q), Operators(s, q), k);
    } else if q == Bare && (s[0] == '|' || IsAnd(s)) {
      var n := if s[0] == '|' then 1 else 2;
      if k > 1 {
        LaterPieces(s[n..], Bare, k - 1);
      }
      FirstPiece(s[n..]);
      PieceAfterOperator(s, n, k);
    } else {
      LaterPieces(s[1..], q, k);
      PushedPiece(s[..1], SplitScan(s[1..], q), Operators(s, q), k);
    }
  }

  /** Every segment is split no further, and every one but the last closes its quotes and
      escapes and does not run into the operator after it. */
  lemma SplitStable(s: string, k: nat)
    requires k < |Split(s)|
    ensures Split(Split(s)[k]) == [Split(s)[k]]
    ensures k < |Operators(s, Bare)| ==> Piece(Split(s)[k], Bare, Operators(s, Bare)[k])
  {
    if k == 0 { HeadIsPiece(s, Bare); } else { LaterPieces(s, Bare, k); }
  }

  lemma {:induction false} PieceThenOperator(t: string, q: Quote, op: string, rest: string)
    requires Piece(t, q, op) && (op == "|" || op == "&&")
    ensures SplitScan(t + op + rest, q) == [t] + SplitScan(rest, Bare)
    ensures Operators(t + op + rest, q) == [op] + Operators(rest, Bare)
    decreases |t|
  {
    if t == "" {
      OperatorAlone(op, rest);
      assert t + op + rest == op + rest;
    } else if IsToggle(q, t[0]) {
      TailOf(t, 1, op, rest);
      PieceThenOperator(t[1..], Toggled(q, t[0]), op, rest);
    } else if t[0] == '\\' {
      TailOf(t, 2, op, rest);
      PieceThenOperator(t[2..], q, op, rest);
    } else {
      PlainHead(t, q, op, rest);
      TailOf(t, 1, op, rest);
      PieceThenOperator(t[1..], q, op, rest);
    }
  }

  lemma OperatorAlone(op: string, rest: string)
    requires op == "|" || op == "&&"
    ensures SplitScan(op + rest, Bare) == [""] + SplitScan(rest, Bare)
    ensures Operators(op + rest, Bare) == [op] + Operators(rest, Bare)
  {
    assert (op + rest)[|op|..] == rest;
  }

  /** Taking n bytes off t takes them off t + op + rest. */
  lemma TailOf(t: string, n: nat, op: string, rest: string)
    requires 1 <= n <= |t|
    ensures (t + op + rest)[n..] == t[n..] + op + rest
    ensures (t + op + rest)[..n] == t[..n] && (t + op + rest)[0] == t[0]
    ensures forall tail: seq<string> :: Push(t[..n], [t[n..]] + tail) == [t] + tail
    ensures |t + op + rest| >= |t|
  {
    assert t[..n] + t[n..] == t;
    forall tail: seq<string> ensures Push(t[..n], [t[n..]] + tail) == [t] + tail {
      assert ([t[n..]] + tail)[1..] == tail;
    }
  }

  lemma PlainHead(t: string, q: Quote, op: string, rest: string)
    requires Piece(t, q, op) && (op == "|" || op == "&&")
    requires t != "" && !IsToggle(q, t[0]) && t[0] != '\\'
    ensures !(q == Bare && (t[0] == '|' || IsAnd(t + op + rest)))
    ensures Piece(t[1..], q, op)
  {
    assert SplitScan(t, q) == [t];
    assert !(q == Bare && (t[0] == '|' || IsAnd(t)));
    var s := t + op + rest;
    if |t| > 1 {
      assert s[1] == t[1];
    } else {
      assert s[1] == op[0];
      assert t[1..] == "";
    }
  }

  /** The split is the only way to cut a command into pieces joined by operators. */
  lemma {:induction false} SplitUnique(segs: seq<string>, ops: seq<string>)
    requires |segs| == |ops| + 1 && OperatorsOnly(ops)
    requires forall k | 0 <= k < |ops| :: Piece(segs[k], Bare, ops[k])
    requires Split(segs[|ops|]) == [segs[|ops|]]
    ensures Split(Rejoin(segs, ops)) == segs && Operators(Rejoin(segs, ops), Bare) == ops
  {
    if ops != [] {
      SplitUnique(segs[1..], ops[1..]);
      PieceThenOperator(segs[0], Bare, ops[0], Rejoin(segs[1..], ops[1..]));
    }
  }
}
