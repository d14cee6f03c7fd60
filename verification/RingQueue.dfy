/**
 The upstream queue: items are added once and then handed out in rotation, never removed.
 */
module RingQueue {
  import opened Arithmetic
  import opened Wrappers

  const QUEUE_MAX: nat := 8

  /** `slots` is the array, its length the capacity; a slot never written holds nothing. */
  datatype Ring<T> = Ring(slots: seq<Option<T>>, head: nat, tail: nat, size: nat)

  function Empty<T>(): Ring<T> { Ring([], 0, 0, 0) }

  ghost predicate RingOk<T>(q: Ring<T>) {
    q.size > 0 ==> q.size <= |q.slots| && q.tail < |q.slots| && q.head < q.size
  }

  /** A full array doubles; the item goes to the tail slot. */
  function Enqueue<T>(q: Ring<T>, x: T): Ring<T>
    requires RingOk(q)
    ensures RingOk(Enqueue(q, x))
  {
    var q0 := if q.size == 0 then Ring(seq(QUEUE_MAX, _ => None), 0, 0, 0) else q;
    var slots := if q0.size == |q0.slots| then q0.slots + seq(|q0.slots|, _ => None) else q0.slots;
    Ring(slots[q0.tail := Some(x)], q0.head, (q0.tail + 1) % |slots|, q0.size + 1)
  }

  /** The head moves on modulo the number of items; nothing leaves. */
  function Rotate<T>(q: Ring<T>): Ring<T>
    requires RingOk(q) && q.size > 0
    ensures RingOk(Rotate(q))
  {
    q.(head := (q.head + 1) % q.size)
  }

  function EnqueueAll<T>(items: seq<T>): (q: Ring<T>)
    ensures RingOk(q)
  {
    if |items| == 0 then Empty() else Enqueue(EnqueueAll(items[..|items| - 1]), items[|items| - 1])
  }

  function After<T>(q: Ring<T>, n: nat): (r: Ring<T>)
    requires RingOk(q) && q.size > 0
    ensures RingOk(r) && r.size == q.size && r.slots == q.slots
  {
    if n == 0 then q else Rotate(After(q, n - 1))
  }

  /** What the n-th dequeue, from zero, hands out. */
  function Nth<T>(q: Ring<T>, n: nat): Option<T>
    requires RingOk(q) && q.size > 0
  {
    var r := After(q, n);
    r.slots[r.head]
  }

  // ---------------------------------------------------------------- rotation

  lemma EnqueueLast<T>(items: seq<T>)
    requires |items| > 0
    ensures EnqueueAll(items) == Enqueue(EnqueueAll(items[..|items| - 1]), items[|items| - 1])
    ensures |items| == 1 ==> EnqueueAll(items) == Enqueue(Empty(), items[0])
  {}

  /** What a slot holds after the items were added: the item eight places on when there is one, else its own. */
  function Holding<T>(items: seq<T>, j: nat): Option<T> {
    if j + 8 < |items| then Some(items[j + 8]) else if j < 8 && j < |items| then Some(items[j]) else None
  }

  /** The shape of the array while the items fit it. */
  lemma {:induction false} Filled<T>(items: seq<T>)
    requires 0 < |items| <= QUEUE_MAX
    ensures var q := EnqueueAll(items);
            && q.size == |items| && q.head == 0 && |q.slots| == QUEUE_MAX && q.tail == |items| % QUEUE_MAX
            && forall j :: 0 <= j < |q.slots| ==> q.slots[j] == Holding(items, j)
    decreases |items|
  {
    hide Enqueue, EnqueueAll;
    var n := |items| - 1;
    EnqueueLast(items);
    if n == 0 {
      FirstEnqueued(items[0]);
    } else {
      Filled(items[..n]);
      EnqueuedEarly(EnqueueAll(items[..n]), items[n]);
    }
  }

  /** The shape of the array afterwards. */
  lemma {:induction false} Overfilled<T>(items: seq<T>)
    requires |items| > QUEUE_MAX
    ensures var q := EnqueueAll(items);
            && q.size == |items| && q.head == 0 && q.tail == |items| - QUEUE_MAX
            && 2 * QUEUE_MAX <= |q.slots| < 2 * |items|
            && forall j :: 0 <= j < |q.slots| ==> q.slots[j] == Holding(items, j)
    decreases |items|
  {
    hide Enqueue, EnqueueAll;
    var n := |items| - 1;
    var front := items[..n];
    EnqueueLast(items);
    if n == QUEUE_MAX { Filled(front); } else { Overfilled(front); }
    var q, q1 := EnqueueAll(front), EnqueueAll(items);
    EnqueuedTail(q, items[n]);
    forall j | 0 <= j < |q1.slots| ensures q1.slots[j] == Holding(items, j) {
      if j == q.tail {
        assert j + 8 == n;
      } else {
        assert Holding(items, j) == Holding(front, j);
      }
    }
  }

  lemma FirstEnqueued<T>(x: T)
    ensures var q := Enqueue(Empty(), x);
            && |q.slots| == QUEUE_MAX && q.size == 1 && q.head == 0 && q.tail == 1 && q.slots[0] == Some(x)
            && forall j :: 0 < j < |q.slots| ==> q.slots[j] == None
  {}

  lemma EnqueuedEarly<T>(q: Ring<T>, x: T)
    requires RingOk(q) && 0 < q.size < QUEUE_MAX && |q.slots| == QUEUE_MAX && q.tail == q.size
    ensures Enqueue(q, x) == q.(slots := q.slots[q.size := Some(x)], tail := (q.size + 1) % QUEUE_MAX, size := q.size + 1)
  {}

  /** Past the first array the tail never wraps. */
  lemma EnqueuedTail<T>(q: Ring<T>, x: T)
    requires RingOk(q) && q.size >= QUEUE_MAX && |q.slots| >= QUEUE_MAX
    requires q.tail == q.size - QUEUE_MAX
    ensures var q1 := Enqueue(q, x);
            && q1.size == q.size + 1 && q1.head == q.head
            && q1.tail == q.tail + 1 && |q1.slots| == (if q.size == |q.slots| then 2 * |q.slots| else |q.slots|)
            && q1.slots[q.tail] == Some(x) && (forall i :: 0 <= i < |q.slots| && i != q.tail ==> q1.slots[i] == q.slots[i])
            && (forall i :: |q.slots| <= i < |q1.slots| ==> q1.slots[i] == None)
  {
    var n := if q.size == |q.slots| then 2 * |q.slots| else |q.slots|;
    DivModUnique(q.tail + 1, n, 0, q.tail + 1);
  }

  /** The next head, without the remainder. */
  lemma RotateHead<T>(q: Ring<T>)
    requires RingOk(q) && q.size > 0
    ensures Rotate(q).head == if q.head + 1 == q.size then 0 else q.head + 1
  {
    if q.head + 1 == q.size {
      DivModUnique(q.head + 1, q.size, 1, 0);
    } else {
      DivModUnique(q.head + 1, q.size, 0, q.head + 1);
    }
  }

  lemma {:induction false} HeadRotates<T>(q: Ring<T>, n: nat)
    requires RingOk(q) && q.size > 0
    ensures After(q, n).head == (q.head + n) % q.size
    decreases n
  {
    hide Rotate;
    if n == 0 {
      DivModUnique(q.head, q.size, 0, q.head);
    } else {
      HeadRotates(q, n - 1);
      ModStep(q.head + n - 1, q.size);
      RotateHead(After(q, n - 1));
    }
  }

  /** The n-th dequeue from a queue just filled reads the slot in turn. */
  lemma NthReads<T>(q: Ring<T>, n: nat)
    requires RingOk(q) && q.size > 0 && q.head == 0
    ensures n % q.size < |q.slots| && Nth(q, n) == q.slots[n % q.size]
  {
    hide After;
    HeadRotates(q, n);
  }

  /** Which item every dequeue hands out, however many were added: past eight the rotation starts with the ninth. */
  lemma NthExactly<T>(items: seq<T>, n: nat)
    requires |items| > 0
    ensures Nth(EnqueueAll(items), n) == Holding(items, n % |items|)
  {
    hide Nth, EnqueueAll;
    if |items| <= QUEUE_MAX { Filled(items); } else { Overfilled(items); }
    NthReads(EnqueueAll(items), n);
  }

  /** Items are handed out in turn, for ever, exactly when they fit the first array. */
  lemma RoundRobinExactly<T>(items: seq<T>)
    requires |items| > 0
    ensures (forall n: nat :: Nth(EnqueueAll(items), n) == Some(items[n % |items|])) <==> |items| <= QUEUE_MAX
  {
    hide Nth, EnqueueAll;
    if |items| <= QUEUE_MAX {
      Filled(items);
      forall n: nat ensures Nth(EnqueueAll(items), n) == Some(items[n % |items|]) { NthExactly(items, n); }
    } else {
      var n := |items| - 1;
      Overfilled(items);
      NthExactly(items, n);
      DivModUnique(n, |items|, 0, n);
      assert Nth(EnqueueAll(items), n) != Some(items[n % |items|]);
    }
  }

  /** How many of the first `n` dequeues read slot `i`. */
  function Picks<T>(q: Ring<T>, i: nat, n: nat): nat
    requires RingOk(q) && q.size > 0
  {
    if n == 0 then 0 else Picks(q, i, n - 1) + if After(q, n - 1).head == i then 1 else 0
  }

  /** A slot is chosen once in every full turn, counted from slot zero, and once more if the last turn passed it. */
  lemma {:induction false} PicksShare<T>(q: Ring<T>, i: nat, n: nat)
    requires RingOk(q) && q.size > 0 && i < q.size
    ensures Picks(q, i, n) + (if i < q.head then 1 else 0)
            == (q.head + n) / q.size + if i < (q.head + n) % q.size then 1 else 0
    decreases n
  {
    if n == 0 {
      DivModUnique(q.head, q.size, 0, q.head);
    } else {
      PicksShare(q, i, n - 1);
      HeadRotates(q, n - 1);
      ModStep(q.head + n - 1, q.size);
    }
  }

  /** From any head, over any number of dequeues, two slots are chosen equally often, give or take one. */
  lemma Fairness<T>(q: Ring<T>, i: nat, j: nat, n: nat)
    requires RingOk(q) && q.size > 0 && i < q.size && j < q.size
    ensures Picks(q, i, n) <= Picks(q, j, n) + 1
  {
    PicksShare(q, i, n);
    PicksShare(q, j, n);
  }

  // ---------------------------------------------------------------- the queue itself

  class Queue<T(0)> {
    var data: array<Option<T>>
    var head: nat
    var tail: nat
    var size: nat

    ghost function View(): Ring<T>
      reads this, data
    {
      Ring(data[..], head, tail, size)
    }

    ghost predicate Valid()
      reads this, data
    {
      RingOk(View())
    }

    constructor ()
      ensures Valid() && View() == Empty() && fresh(data)
    {
      data := new Option<T>[0];
      head, tail, size := 0, 0, 0;
    }

    method Add(x: T)
      requires Valid()
      modifies this, data
      ensures Valid() && View() == Enqueue(old(View()), x) && (data == old(data) || fresh(data))
    {
      if size == 0 {
        data := new Option<T>[QUEUE_MAX](_ => None);
        head, tail := 0, 0;
        assert data[..] == seq(QUEUE_MAX, _ => None);
      }
      if size == data.Length {
        Grow();
      }
      data[tail] := Some(x);
      tail := (tail + 1) % data.Length;
      size := size + 1;
    }

    /** Doubles the array; the new slots are not written. */
    method Grow()
      modifies this`data
      ensures fresh(data) && data[..] == old(data[..]) + seq(old(data.Length), _ => None)
    {
      var n := data.Length;
      var bigger := new Option<T>[2 * n](_ => None);
      var i := 0;
      while i < n
        invariant i <= n && data == old(data) && bigger.Length == 2 * n
        invariant bigger[..i] == data[..i] == old(data[..i])
        invariant forall j :: i <= j < 2 * n ==> bigger[j] == None
      {
        bigger[i] := data[i];
        i := i + 1;
      }
      assert bigger[..] == old(data[..]) + seq(n, _ => None);
      data := bigger;
    }

    method Next() returns (r: Option<T>)
      requires Valid()
      modifies this
      ensures Valid() && data == old(data)
      ensures old(size) == 0 ==> r == None && View() == old(View())
      ensures old(size) > 0 ==> r == old(data[head]) && View() == Rotate(old(View()))
    {
      if size == 0 { return None; }
      r := data[head];
      head := (head + 1) % size;
    }
  }
}
