/** internal/preview/rewrite.go: going through the files of a build output, editing each in turn,
    up to the first failure. */
module PageWalk {

  /** What can go wrong with one file: a failed write leaves whatever it got to. */
  datatype Fault = Fine | ReadFails | WriteFails(left: string)

  /** What is to be done with one file: nothing, or a new page that differs in so many places. */
  datatype Edit = LeaveAlone | Replace(page: string, changes: nat)

  datatype Outcome = Outcome(pages: map<string, string>, total: nat, failed: bool)

  function OneFile(rel: string, pages: map<string, string>, edit: (string, string) -> Edit, fault: Fault): Outcome
    requires rel in pages
  {
    match edit(rel, pages[rel])
    case LeaveAlone => Outcome(pages, 0, false)
    case Replace(page, changes) =>
      if fault.ReadFails? then Outcome(pages, 0, true)
      else if changes == 0 then Outcome(pages, 0, false)
      else if fault.WriteFails? then Outcome(pages[rel := fault.left], changes, true)
      else Outcome(pages[rel := page], changes, false)
  }

  predicate Within(walk: seq<string>, pages: map<string, string>) {
    forall i | 0 <= i < |walk| :: walk[i] in pages
  }

  /** The walk up to the first failure, on top of `total` changes. */
  function Run(walk: seq<string>, pages: map<string, string>, total: nat, edit: (string, string) -> Edit,
               fault: string -> Fault): Outcome
    requires Within(walk, pages)
    decreases |walk|
  {
    if walk == [] then Outcome(pages, total, false)
    else
      var one := OneFile(walk[0], pages, edit, fault(walk[0]));
      if one.failed then Outcome(one.pages, total + one.total, true)
      else Run(walk[1..], one.pages, total + one.total, edit, fault)
  }

  /** After i files without failure, what is still to come leads to the goal. */
  predicate OnCourse(walk: seq<string>, i: nat, pages: map<string, string>, total: nat,
                     edit: (string, string) -> Edit, fault: string -> Fault, goal: Outcome)
  {
    i <= |walk| && Within(walk, pages) && Run(walk[i..], pages, total, edit, fault) == goal
  }

  lemma OnCourseStep(walk: seq<string>, i: nat, pages: map<string, string>, total: nat,
                     edit: (string, string) -> Edit, fault: string -> Fault, goal: Outcome)
    requires i < |walk| && OnCourse(walk, i, pages, total, edit, fault, goal)
    ensures walk[i] in pages
    ensures var one := OneFile(walk[i], pages, edit, fault(walk[i]));
            && (one.failed ==> goal == Outcome(one.pages, total + one.total, true))
            && (!one.failed ==> OnCourse(walk, i + 1, one.pages, total + one.total, edit, fault, goal))
  {
  }

  // ----- what a walk comes to ------------------------------------------------------------------

  /** The page a file ends up with, were nothing to fail. */
  function Edited(rel: string, page: string, edit: (string, string) -> Edit): string {
    if ChangeCount(rel, page, edit) > 0 then edit(rel, page).page else page
  }

  function ChangeCount(rel: string, page: string, edit: (string, string) -> Edit): nat {
    match edit(rel, page) case LeaveAlone => 0 case Replace(_, changes) => changes
  }

  /** The walk stops at this file. */
  predicate Stops(rel: string, page: string, edit: (string, string) -> Edit, fault: Fault) {
    edit(rel, page).Replace? && (fault.ReadFails? || (fault.WriteFails? && ChangeCount(rel, page, edit) > 0))
  }

  /** How many files go through before the first that stops the walk. */
  function Done(walk: seq<string>, pages: map<string, string>, edit: (string, string) -> Edit,
                fault: string -> Fault): (n: nat)
    requires Within(walk, pages)
    ensures n <= |walk| && (n < |walk| ==> Stops(walk[n], pages[walk[n]], edit, fault(walk[n])))
    ensures forall i | 0 <= i < n :: !Stops(walk[i], pages[walk[i]], edit, fault(walk[i]))
    decreases |walk|
  {
    if walk == [] || Stops(walk[0], pages[walk[0]], edit, fault(walk[0])) then 0
    else 1 + Done(walk[1..], pages, edit, fault)
  }

  /** Changes over a list of files. */
  function Total(walk: seq<string>, pages: map<string, string>, edit: (string, string) -> Edit): nat
    requires Within(walk, pages)
    decreases |walk|
  {
    if walk == [] then 0 else ChangeCount(walk[0], pages[walk[0]], edit) + Total(walk[1..], pages, edit)
  }

  predicate Distinct(walk: seq<string>) {
    forall i, j | 0 <= i < j < |walk| :: walk[i] != walk[j]
  }

  lemma OneFileMeaning(rel: string, pages: map<string, string>, edit: (string, string) -> Edit, fault: Fault)
    requires rel in pages
    ensures var one := OneFile(rel, pages, edit, fault);
            && one.failed == Stops(rel, pages[rel], edit, fault)
            && one.pages == pages[rel := if !one.failed then Edited(rel, pages[rel], edit)
                                         else if fault.WriteFails? then fault.left else pages[rel]]
            && one.total == if one.failed && fault.ReadFails? then 0 else ChangeCount(rel, pages[rel], edit)
  {
  }

  lemma {:induction false} SameTotal(walk: seq<string>, p: map<string, string>, q: map<string, string>,
                                     edit: (string, string) -> Edit)
    requires forall i | 0 <= i < |walk| :: walk[i] in p && walk[i] in q && p[walk[i]] == q[walk[i]]
    ensures Total(walk, p, edit) == Total(walk, q, edit)
    decreases |walk|
  {
    if walk != [] {
      SameTotal(walk[1..], p, q, edit);
    }
  }

  lemma {:induction false} SameDone(walk: seq<string>, p: map<string, string>, q: map<string, string>,
                                    edit: (string, string) -> Edit, fault: string -> Fault)
    requires forall i | 0 <= i < |walk| :: walk[i] in p && walk[i] in q && p[walk[i]] == q[walk[i]]
    ensures Done(walk, p, edit, fault) == Done(walk, q, edit, fault)
    decreases |walk|
  {
    if walk != [] {
      SameDone(walk[1..], p, q, edit, fault);
    }
  }

  lemma FirstStops(walk: seq<string>, pages: map<string, string>, total: nat,
                   edit: (string, string) -> Edit, fault: string -> Fault)
    requires walk != [] && Within(walk, pages) && OneFile(walk[0], pages, edit, fault(walk[0])).failed
    ensures Done(walk, pages, edit, fault) == 0
    ensures var one := OneFile(walk[0], pages, edit, fault(walk[0]));
            Run(walk, pages, total, edit, fault) == Outcome(one.pages, total + one.total, true)
  {
    OneFileMeaning(walk[0], pages, edit, fault(walk[0]));
  }

  lemma FirstGoesOn(walk: seq<string>, pages: map<string, string>, total: nat,
                    edit: (string, string) -> Edit, fault: string -> Fault)
    requires walk != [] && Within(walk, pages) && Distinct(walk)
    requires !OneFile(walk[0], pages, edit, fault(walk[0])).failed
    ensures var one := OneFile(walk[0], pages, edit, fault(walk[0]));
            && Within(walk[1..], one.pages) && Distinct(walk[1..])
            && one.pages == pages[walk[0] := Edited(walk[0], pages[walk[0]], edit)]
            && one.total == ChangeCount(walk[0], pages[walk[0]], edit)
            && Run(walk, pages, total, edit, fault) == Run(walk[1..], one.pages, total + one.total, edit, fault)
            && Done(walk, pages, edit, fault) == 1 + Done(walk[1..], one.pages, edit, fault)
  {
    var one := OneFile(walk[0], pages, edit, fault(walk[0]));
    OneFileMeaning(walk[0], pages, edit, fault(walk[0]));
    SameDone(walk[1..], pages, one.pages, edit, fault);
  }

  lemma {:induction false} RunKeys(walk: seq<string>, pages: map<string, string>, total: nat,
                                   edit: (string, string) -> Edit, fault: string -> Fault)
    requires Within(walk, pages) && Distinct(walk)
    ensures var out := Run(walk, pages, total, edit, fault);
            out.pages.Keys == pages.Keys && (out.failed <==> Done(walk, pages, edit, fault) < |walk|)
    decreases |walk|
  {
    if walk != [] {
      var one := OneFile(walk[0], pages, edit, fault(walk[0]));
      OneFileMeaning(walk[0], pages, edit, fault(walk[0]));
      if one.failed {
        FirstStops(walk, pages, total, edit, fault);
      } else {
        FirstGoesOn(walk, pages, total, edit, fault);
        RunKeys(walk[1..], one.pages, total + one.total, edit, fault);
      }
    }
  }

  /** A page that the walk gets through is edited; the one it fails at is as the failed write left
      it; every other page is as it was. */
  predicate PageAfter(after: map<string, string>, walk: seq<string>, pages: map<string, string>, done: nat,
                      edit: (string, string) -> Edit, fault: string -> Fault, rel: string)
    requires rel in pages && done <= |walk|
  {
    && rel in after
    && after[rel] == if rel in walk[..done] then Edited(rel, pages[rel], edit)
                     else if done < |walk| && rel == walk[done] && fault(rel).WriteFails? then fault(rel).left
                     else pages[rel]
  }

  lemma {:induction false} RunPage(walk: seq<string>, pages: map<string, string>, total: nat,
                                   edit: (string, string) -> Edit, fault: string -> Fault, rel: string)
    requires Within(walk, pages) && Distinct(walk) && rel in pages
    ensures PageAfter(Run(walk, pages, total, edit, fault).pages, walk, pages, Done(walk, pages, edit, fault),
                      edit, fault, rel)
    decreases |walk|
  {
    if walk != [] {
      var first, more := walk[0], walk[1..];
      var one := OneFile(first, pages, edit, fault(first));
      OneFileMeaning(first, pages, edit, fault(first));
      if one.failed {
        FirstStops(walk, pages, total, edit, fault);
      } else {
        FirstGoesOn(walk, pages, total, edit, fault);
        RunPage(more, one.pages, total + one.total, edit, fault, rel);
        PageStep(walk, pages, one.pages, Run(walk, pages, total, edit, fault).pages,
                 Done(more, one.pages, edit, fault), edit, fault, rel);
      }
    }
  }

  /** One more page at the front: the first file went through. */
  lemma PageStep(walk: seq<string>, pages: map<string, string>, later: map<string, string>, after: map<string, string>,
                 done: nat, edit: (string, string) -> Edit, fault: string -> Fault, rel: string)
    requires walk != [] && Distinct(walk) && rel in pages && walk[0] in pages && done <= |walk| - 1
    requires later == pages[walk[0] := Edited(walk[0], pages[walk[0]], edit)]
    requires PageAfter(after, walk[1..], later, done, edit, fault, rel)
    ensures PageAfter(after, walk, pages, done + 1, edit, fault, rel)
  {
    assert walk[..done + 1] == [walk[0]] + walk[1..][..done];
    assert done + 1 < |walk| ==> walk[1..][done] == walk[done + 1];
    assert walk[0] !in walk[1..][..done];
  }

  lemma TotalStep(walk: seq<string>, pages: map<string, string>, later: map<string, string>, done: nat,
                  edit: (string, string) -> Edit)
    requires done < |walk| && Within(walk, pages) && Within(walk[1..], later)
    requires forall i | 1 <= i < |walk| :: pages[walk[i]] == later[walk[i]]
    ensures Total(walk[..done + 1], pages, edit)
         == ChangeCount(walk[0], pages[walk[0]], edit) + Total(walk[1..][..done], later, edit)
  {
    SameTotal(walk[1..][..done], pages, later, edit);
    assert walk[..done + 1][1..] == walk[1..][..done];
  }

  /** The changes of the page whose write failed. */
  function Unwritten(walk: seq<string>, pages: map<string, string>, done: nat, edit: (string, string) -> Edit,
                     fault: string -> Fault): nat
    requires Within(walk, pages)
  {
    if done < |walk| && fault(walk[done]).WriteFails? then ChangeCount(walk[done], pages[walk[done]], edit) else 0
  }

  /** The total counts what was rewritten, a page whose write failed included. */
  lemma {:induction false} RunTotal(walk: seq<string>, pages: map<string, string>, total: nat,
                                    edit: (string, string) -> Edit, fault: string -> Fault)
    requires Within(walk, pages) && Distinct(walk)
    ensures var done := Done(walk, pages, edit, fault);
            Run(walk, pages, total, edit, fault).total
            == total + Total(walk[..done], pages, edit) + Unwritten(walk, pages, done, edit, fault)
    decreases |walk|
  {
    if walk != [] {
      var rel, more := walk[0], walk[1..];
      var one := OneFile(rel, pages, edit, fault(rel));
      if one.failed {
        FirstStops(walk, pages, total, edit, fault);
        OneFileMeaning(rel, pages, edit, fault(rel));
      } else {
        FirstGoesOn(walk, pages, total, edit, fault);
        RunTotal(more, one.pages, total + one.total, edit, fault);
        var done := Done(more, one.pages, edit, fault);
        TotalStep(walk, pages, one.pages, done, edit);
        UnwrittenStep(walk, pages, one.pages, done, edit, fault);
      }
    }
  }

  lemma UnwrittenStep(walk: seq<string>, pages: map<string, string>, later: map<string, string>, done: nat,
                      edit: (string, string) -> Edit, fault: string -> Fault)
    requires walk != [] && Within(walk, pages) && Within(walk[1..], later)
    requires forall i | 1 <= i < |walk| :: pages[walk[i]] == later[walk[i]]
    ensures Unwritten(walk, pages, done + 1, edit, fault) == Unwritten(walk[1..], later, done, edit, fault)
  {
    assert done + 1 < |walk| ==> walk[1..][done] == walk[done + 1];
  }
}
