/** The circular window that the replay buffer and the loop detector both keep: fixed slots, a
    next-write position and a count, against the plain list of the most recent items. */
module Ring {

  /** The simple form: of everything ever put in, the last `cap`. */
  function Kept<T>(items: seq<T>, cap: nat): (kept: seq<T>)
    ensures |kept| == if |items| <= cap then |items| else cap
  {
    if |items| <= cap then items else items[|items| - cap..]
  }

  /** x modulo c, for x below 2c. */
  function Wrap(x: nat, c: nat): nat {
    if x < c then x else x - c
  }

  method Remainder(x: nat, c: nat) returns (r: nat)
    requires c > 0 && x < 2 * c
    ensures r == Wrap(x, c)
  {
    r := x % c;
  }

  /** Slot of the i-th oldest of count items, head being the next to write. */
  function SlotOf(head: nat, count: nat, c: nat, i: nat): (slot: nat)
    requires head < c && count <= c && i < c
    ensures slot < c
  {
    Wrap(Wrap(head - count + c, c) + i, c)
  }

  /** The slots hold the kept items, oldest first from head - count. */
  ghost predicate Holds<T>(slots: seq<T>, head: nat, count: nat, kept: seq<T>) {
    && head < |slots| && count == |kept| <= |slots|
    && forall i: nat | i < count :: HeldAt(slots, head, count, kept, i)
  }

  /** The i-th oldest item is in its slot. */
  ghost predicate HeldAt<T>(slots: seq<T>, head: nat, count: nat, kept: seq<T>, i: nat)
    requires head < |slots| && i < count == |kept| <= |slots|
  {
    slots[SlotOf(head, count, |slots|, i)] == kept[i]
  }

  lemma SlotHolds<T>(slots: seq<T>, head: nat, count: nat, kept: seq<T>, i: nat)
    requires Holds(slots, head, count, kept) && i < count
    ensures slots[SlotOf(head, count, |slots|, i)] == kept[i]
  {
    assert HeldAt(slots, head, count, kept, i);
  }

  /** One write at head keeps the slots in step with the list, however often the positions have
      wrapped around: a full ring loses its oldest item and nothing else. */
  lemma PushHolds<T>(slots: seq<T>, head: nat, count: nat, items: seq<T>, x: T)
    requires Holds(slots, head, count, Kept(items, |slots|))
    ensures Holds(slots[head := x], Wrap(head + 1, |slots|),
                  if count < |slots| then count + 1 else count, Kept(items + [x], |slots|))
  {
    var c, head' := |slots|, Wrap(head + 1, |slots|);
    var count' := if count < c then count + 1 else count;
    var slots', kept' := slots[head := x], Kept(items + [x], c);
    forall i: nat | i < count' ensures HeldAt(slots', head', count', kept', i) {
      if i < count' - 1 {
        assert HeldAt(slots, head, count, Kept(items, c), if count < c then i else i + 1);
      }
      PushSlot(head, count, c, i);
      KeptAppend(items, x, c, i);
    }
  }

  /** Where item i is after a push at head: the newest at head, the others where they were; the
      oldest has gone when the ring was full. */
  lemma PushSlot(head: nat, count: nat, c: nat, i: nat)
    requires head < c && count <= c && i < (if count < c then count + 1 else count)
    ensures var head', count' := Wrap(head + 1, c), if count < c then count + 1 else count;
            if i == count' - 1 then SlotOf(head', count', c, i) == head
            else var j := if count < c then i else i + 1;
                 SlotOf(head', count', c, i) == SlotOf(head, count, c, j) != head
  {
  }

  lemma KeptAppend<T>(items: seq<T>, x: T, cap: nat, i: nat)
    requires cap > 0 && i < |Kept(items + [x], cap)|
    ensures var kept, kept' := Kept(items, cap), Kept(items + [x], cap);
            kept'[i] == if i == |kept'| - 1 then x else kept[if |kept| < cap then i else i + 1]
  {
  }

  datatype Window<T> = Window(slots: seq<T>, head: nat, count: nat)

  /** A push, as both rings do it. */
  function Pushed<T>(w: Window<T>, x: T): Window<T>
    requires w.head < |w.slots|
  {
    Window(w.slots[w.head := x], Wrap(w.head + 1, |w.slots|), if w.count < |w.slots| then w.count + 1 else w.count)
  }

  function PushAll<T>(slots: seq<T>, items: seq<T>): (w: Window<T>)
    requires slots != []
    ensures |w.slots| == |slots| && w.head < |slots|
  {
    if items == [] then Window(slots, 0, 0) else Pushed(PushAll(slots, items[..|items| - 1]), items[|items| - 1])
  }

  ghost predicate HoldsLast<T>(w: Window<T>, items: seq<T>) {
    Holds(w.slots, w.head, w.count, Kept(items, |w.slots|))
  }

  lemma PushedHoldsLast<T>(w: Window<T>, items: seq<T>, x: T)
    requires HoldsLast(w, items)
    ensures HoldsLast(Pushed(w, x), items + [x])
  {
    PushHolds(w.slots, w.head, w.count, items, x);
  }

  lemma OneMorePush<T>(slots: seq<T>, items: seq<T>, x: T)
    requires slots != [] && HoldsLast(PushAll(slots, items), items)
    ensures HoldsLast(PushAll(slots, items + [x]), items + [x])
  {
    PushedHoldsLast(PushAll(slots, items), items, x);
    assert (items + [x])[..|items|] == items;
  }

  /** After any pushes the ring is the list of the last |slots| items; what was in the slots before
      the first push never shows. */
  lemma {:induction false} RingRefinesList<T>(slots: seq<T>, items: seq<T>)
    requires slots != []
    ensures HoldsLast(PushAll(slots, items), items)
    decreases |items|
  {
    if items != [] {
      var before, x := items[..|items| - 1], items[|items| - 1];
      RingRefinesList(slots, before);
      OneMorePush(slots, before, x);
      assert items == before + [x];
    }
  }
}
