/** The circular array behind both queues of the framework: a fixed block of
    slots, a write index and a read index, one slot always left unused.
    The queues are specified by the sequence of stored elements, oldest first.
  */
module Ring {

  datatype Ring<T> = Ring(slots: seq<T>, head: nat, tail: nat) {

    ghost predicate Valid() {
      head < |slots| && tail < |slots|
    }

    /** Successor of an index, wrapping at the end of the block. */
    function Next(i: nat): (j: nat)
      requires 0 < |slots|
      ensures j < |slots|
      ensures i < |slots| ==> j == if i + 1 == |slots| then 0 else i + 1
    {
      (i + 1) % |slots|
    }

    predicate Full()
      requires 0 < |slots|
    {
      Next(head) == tail
    }

    predicate Empty() {
      tail == head
    }

    /** The stored elements, oldest first. */
    ghost function Contents(): (s: seq<T>)
      requires Valid()
      ensures |s| < |slots|
    {
      if tail <= head then slots[tail..head] else slots[tail..] + slots[..head]
    }

    function Put(x: T): Ring<T>
      requires head < |slots|
    {
      Ring(slots[head := x], Next(head), tail)
    }

    function Front(): T
      requires tail < |slots|
    {
      slots[tail]
    }

    function Drop(): Ring<T>
      requires tail < |slots|
    {
      Ring(slots, head, Next(tail))
    }
  }

  /** The index tests mean what the callers take them to mean. */
  lemma FullAndEmpty<T>(r: Ring<T>)
    requires r.Valid()
    ensures r.Full() <==> |r.Contents()| == |r.slots| - 1
    ensures r.Empty() <==> r.Contents() == []
  {
  }

  lemma PutAppends<T>(r: Ring<T>, x: T)
    requires r.Valid() && !r.Full()
    ensures r.Put(x).Valid() && |r.Put(x).slots| == |r.slots|
    ensures r.Put(x).Contents() == r.Contents() + [x]
  {
    var s := r.Put(x).slots;
    if r.tail <= r.head {
      if r.head + 1 == |s| {
        assert s[r.tail..] == r.slots[r.tail..r.head] + [x];
      } else {
        assert s[r.tail..r.head + 1] == r.slots[r.tail..r.head] + [x];
      }
    } else {
      assert s[r.tail..] == r.slots[r.tail..];
      assert s[..r.head + 1] == r.slots[..r.head] + [x];
    }
  }

  lemma DropRemovesFront<T>(r: Ring<T>)
    requires r.Valid() && !r.Empty()
    ensures r.Drop().Valid() && |r.Drop().slots| == |r.slots|
    ensures r.Contents() == [r.Front()] + r.Drop().Contents()
  {
  }

  /** The block as an object. Each method is one critical section of
      ConcurrentRingBuffer: what runs between taking the mutex and either
      releasing it or going to wait. A false result is a refused async call or
      a sync call that has to wait.
    */
  class ConcurrentRingBuffer<T(0)> {
    const buff: array<T>
    var head: nat
    var tail: nat

    ghost predicate Valid()
      reads this
    {
      head < buff.Length && tail < buff.Length
    }

    ghost function Model(): (r: Ring<T>)
      requires Valid()
      reads this, buff
      ensures r.Valid()
    {
      Ring(buff[..], head, tail)
    }

    constructor (size: nat)
      requires size > 0
      ensures Valid() && fresh(buff) && buff.Length == size
      ensures Model().Contents() == []
    {
      buff := new T[size];
      head, tail := 0, 0;
    }

    method PutSection(x: T) returns (ok: bool)
      requires Valid()
      modifies this, buff
      ensures Valid()
      ensures ok == (|old(Model()).Contents()| < buff.Length - 1)
      ensures ok ==> Model() == old(Model()).Put(x) && Model().Contents() == old(Model()).Contents() + [x]
      ensures !ok ==> Model() == old(Model())
    {
      FullAndEmpty(Model());
      var next := (head + 1) % buff.Length;
      if next == tail {
        return false;
      }
      PutAppends(Model(), x);
      buff[head] := x;
      head := next;
      return true;
    }

    method GetSection(dflt: T) returns (ok: bool, x: T)
      requires Valid()
      modifies this`tail
      ensures Valid()
      ensures ok == (old(Model()).Contents() != [])
      ensures ok ==> old(Model()).Contents() == [x] + Model().Contents() && Model() == old(Model()).Drop()
      ensures !ok ==> Model() == old(Model()) && x == dflt
    {
      FullAndEmpty(Model());
      if tail == head {
        return false, dflt;
      }
      DropRemovesFront(Model());
      x := buff[tail];
      tail := (tail + 1) % buff.Length;
      ok := true;
    }
  }
}
