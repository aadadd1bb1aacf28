/** The growable ring buffers: the per-key task deque (first capacity 64) and
    the raw-item queue (first capacity 1024). Both double when they are full. */
module Rings {

  /** `x mod cap` for the two arguments a ring ever reduces: below `2 * cap`. */
  lemma WrapOnce(x: nat, cap: nat)
    requires 0 < cap && x < 2 * cap
    ensures x % cap == if x < cap then x else x - cap
  {
    if cap <= x {
      assert x == cap * 1 + (x - cap);
    }
  }

  class Ring<T> {
    const firstCap: nat
    const blank: T
    var buf: array<T>
    var cap: nat
    var head: nat
    var tail: nat
    var count: nat
    ghost var contents: seq<T>

    /** The slot of the element at position `i`, counted from the front. */
    ghost function Slot(i: nat): (s: nat)
      reads this
      requires head < cap && i <= cap
      ensures s < cap
    {
      if head + i < cap then head + i else head + i - cap
    }

    ghost predicate Valid()
      reads this, buf
    {
      && 0 < firstCap
      && cap == buf.Length
      && count == |contents| <= cap
      && (cap == 0 ==> head == tail == 0)
      && (0 < cap ==>
            && head < cap
            && tail == Slot(count)
            && forall i :: 0 <= i < count ==> buf[Slot(i)] == contents[i])
    }

    constructor (firstCap: nat, blank: T)
      requires 0 < firstCap
      ensures Valid() && fresh(buf)
      ensures contents == [] && this.firstCap == firstCap && this.blank == blank
    {
      this.firstCap := firstCap;
      this.blank := blank;
      buf := new T[0];
      cap, head, tail, count := 0, 0, 0, 0;
      contents := [];
    }

    /** Makes room for one more element; growing compacts the ring to slot 0. */
    method Ensure()
      requires Valid()
      modifies this
      ensures Valid() && count < cap
      ensures contents == old(contents)
      ensures cap == if old(cap) == 0 then firstCap else if old(count < cap) then old(cap) else 2 * old(cap)
      ensures old(count < cap) ==> unchanged(this)
      ensures old(count == cap) ==> fresh(buf) && head == 0 && tail == count
    {
      if cap == 0 {
        cap := firstCap;
        var blank := blank;
        buf := new T[cap](_ => blank);
        return;
      }
      if count < cap {
        return;
      }
      var nextCap := cap * 2;
      var blank := blank;
      var next := new T[nextCap](_ => blank);
      var i := 0;
      while i < count
        invariant 0 <= i <= count
        invariant Valid() && next != buf && unchanged(this) && 0 < cap
        invariant forall j :: 0 <= j < i ==> next[j] == contents[j]
      {
        WrapOnce(head + i, cap);
        next[i] := buf[(head + i) % cap];
        i := i + 1;
      }
      buf := next;
      cap := nextCap;
      head := 0;
      tail := count;
    }

    method PushBack(x: T)
      requires Valid()
      modifies this, buf
      ensures Valid() && contents == old(contents) + [x]
      ensures buf == old(buf) || fresh(buf)
    {
      Ensure();
      WrapOnce(tail + 1, cap);
      buf[tail] := x;
      tail := (tail + 1) % cap;
      count := count + 1;
      contents := contents + [x];
    }

    method PushFront(x: T)
      requires Valid()
      modifies this, buf
      ensures Valid() && contents == [x] + old(contents)
      ensures buf == old(buf) || fresh(buf)
    {
      Ensure();
      WrapOnce(head + cap - 1, cap);
      head := (head + cap - 1) % cap;
      buf[head] := x;
      count := count + 1;
      contents := [x] + contents;
    }

    /** Takes the front element and blanks its slot; fails on an empty ring. */
    method PopFront() returns (ok: bool, x: T)
      requires Valid()
      modifies this, buf
      ensures Valid() && buf == old(buf)
      ensures ok == (old(contents) != [])
      ensures ok ==> x == old(contents)[0] && contents == old(contents)[1..]
      ensures !ok ==> contents == [] && x == blank
    {
      if count == 0 {
        return false, blank;
      }
      ok, x := true, buf[head];
      WrapOnce(head + 1, cap);
      buf[head] := blank;
      head := (head + 1) % cap;
      count := count - 1;
      contents := contents[1..];
    }
  }
}
