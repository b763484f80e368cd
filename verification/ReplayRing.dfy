/** internal/bridge/buffer.go: the ring of recently sent messages, against a plain list. */
module ReplayRing {

  import opened Ring

  const DEFAULT_BUFFER_CAPACITY: nat := 1000

  datatype Message = Message(id: int, data: seq<char>, timestamp: int)

  predicate Numbered(pushed: seq<Message>) {
    forall k | 0 <= k < |pushed| :: pushed[k].id == k + 1
  }

  function Above(ms: seq<Message>, ack: int): seq<Message> {
    if ms == [] then []
    else Above(ms[..|ms| - 1], ack) + (if ms[|ms| - 1].id > ack then [ms[|ms| - 1]] else [])
  }

  /** How many of n messages a reader that acknowledged `ack` does not get: those it has seen and
      those the ring has let go. */
  function ResumeAt(n: nat, cap: nat, ack: int): (k: nat)
    ensures k <= n
  {
    var lost := if n <= cap then 0 else n - cap;
    if ack < lost then lost else if ack > n then n else ack
  }

  class MessageBuffer {
    var messages: array<Message>
    var cap: nat
    var head: nat
    var count: nat
    var lastAck: int
    var nextID: int
    ghost var pushed: seq<Message>

    ghost predicate Valid()
      reads this, messages
    {
      && cap > 0 && messages.Length == cap && nextID == |pushed| + 1 && Numbered(pushed)
      && Holds(messages[..], head, count, Kept(pushed, cap))
    }

    constructor (capacity: int)
      ensures Valid() && pushed == [] && lastAck == 0 && fresh(messages)
      ensures cap == if capacity <= 0 then 1000 else capacity
    {
      var c: nat := if capacity <= 0 then DEFAULT_BUFFER_CAPACITY else capacity;
      messages := new Message[c](_ => Message(0, [], 0));
      cap, head, count, lastAck, nextID := c, 0, 0, 0, 1;
      pushed := [];
    }

    method Push(data: seq<char>, timestamp: int) returns (id: int)
      requires Valid()
      modifies this, messages
      ensures Valid() && messages == old(messages) && cap == old(cap) && lastAck == old(lastAck)
      ensures id == |old(pushed)| + 1 && pushed == old(pushed) + [Message(id, data, timestamp)]
    {
      ghost var m := Message(nextID, data, timestamp);
      PushHolds(messages[..], head, count, pushed, m);
      id := nextID;
      nextID := nextID + 1;
      messages[head] := Message(id, data, timestamp);
      assert messages[..] == old(messages[..])[head := m];
      head := Remainder(head + 1, cap);
      if count < cap {
        count := count + 1;
      }
      pushed := pushed + [Message(id, data, timestamp)];
    }

    method ReplayAfter(ack: int) returns (result: seq<Message>)
      requires Valid()
      ensures result == pushed[ResumeAt(|pushed|, cap, ack)..]
    {
      ReplayAfterMeaning(pushed, cap, ack);
      if count == 0 {
        return [];
      }
      result := Collect(ack);
    }

    /** ReplayAfter's loop over the occupied slots, oldest first. */
    method Collect(ack: int) returns (result: seq<Message>)
      requires Valid()
      ensures result == Above(Kept(pushed, cap), ack)
    {
      var start := Remainder(head - count + cap, cap);
      result := [];
      ghost var kept := Kept(pushed, cap);
      for i := 0 to count
        invariant result == Above(kept[..i], ack)
      {
        var idx := Remainder(start + i, cap);
        assert idx == SlotOf(head, count, cap, i);
        CollectNext(messages[..], head, count, kept, i, ack);
        if messages[idx].id > ack {
          result := result + [messages[idx]];
        }
      }
      assert kept[..count] == kept;
    }

    method SetLastAck(id: int)
      requires Valid()
      modifies this`lastAck
      ensures Valid() && lastAck == if id > old(lastAck) then id else old(lastAck)
    {
      if id > lastAck {
        lastAck := id;
      }
    }
  }

  lemma CollectNext(slots: seq<Message>, head: nat, count: nat, kept: seq<Message>, i: nat, ack: int)
    requires Holds(slots, head, count, kept) && i < count
    ensures var m := slots[SlotOf(head, count, |slots|, i)];
            Above(kept[..i + 1], ack) == if m.id > ack then Above(kept[..i], ack) + [m] else Above(kept[..i], ack)
  {
    SlotHolds(slots, head, count, kept, i);
    AboveNext(kept, i, ack);
  }

  lemma AboveNext(ms: seq<Message>, i: nat, ack: int)
    requires i < |ms|
    ensures Above(ms[..i + 1], ack) == Above(ms[..i], ack) + if ms[i].id > ack then [ms[i]] else []
  {
    assert ms[..i + 1][..i] == ms[..i];
  }

  // ----- what the list form promises -----------------------------------------------------------

  /** How many of n messages numbered from first are at or below ack. */
  function AtMost(first: int, n: nat, ack: int): (k: nat)
    ensures k <= n
  {
    if ack < first then 0 else if ack - first + 1 > n then n else ack - first + 1
  }

  /** A replay is a suffix of what is kept: exactly the messages above the acknowledged id, in
      ascending order, with no gap up to the newest. */
  lemma {:induction false} ReplayIsSuffix(ms: seq<Message>, first: int, ack: int)
    requires forall i | 0 <= i < |ms| :: ms[i].id == first + i
    ensures Above(ms, ack) == ms[AtMost(first, |ms|, ack)..]
  {
    if ms != [] {
      var n := |ms| - 1;
      ReplayIsSuffix(ms[..n], first, ack);
      SuffixNext(ms, AtMost(first, n, ack));
      if ms[n].id > ack {
        assert AtMost(first, |ms|, ack) == AtMost(first, n, ack);
      } else {
        assert AtMost(first, n, ack) == n && AtMost(first, |ms|, ack) == |ms|;
      }
    }
  }

  lemma SuffixNext(ms: seq<Message>, k: nat)
    requires ms != [] && k <= |ms| - 1
    ensures ms[k..] == ms[..|ms| - 1][k..] + [ms[|ms| - 1]]
    ensures ms[..|ms| - 1][|ms| - 1..] == [] == ms[|ms|..]
  {
  }

  /** After any pushes, replaying from ack gives every message with a greater id that the
      capacity still allows. */
  lemma ReplayAfterMeaning(pushed: seq<Message>, cap: nat, ack: int)
    requires Numbered(pushed) && cap > 0
    ensures Above(Kept(pushed, cap), ack) == pushed[ResumeAt(|pushed|, cap, ack)..]
  {
    var kept := Kept(pushed, cap);
    ReplayIsSuffix(kept, |pushed| - |kept| + 1, ack);
  }
}
