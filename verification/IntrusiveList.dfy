/** Sequences without repetition, and the intrusive doubly linked lists that refine them. */
module Sequences {

  ghost predicate NoDup<T>(s: seq<T>) {
    forall i, j :: 0 <= i < j < |s| ==> s[i] != s[j]
  }

  /** The sequence without the first occurrence of `x`. */
  function Without<T(==)>(s: seq<T>, x: T): (r: seq<T>)
    ensures x in s ==> |r| == |s| - 1
    ensures x !in s ==> r == s
    ensures forall y :: y in r ==> y in s
    ensures forall y :: y in s && y != x ==> y in r
    ensures NoDup(s) ==> NoDup(r) && x !in r
  {
    if s == [] then []
    else if s[0] == x then
      assert s == [x] + s[1..];
      assert NoDup(s) ==> NoDup(s[1..]);
      s[1..]
    else
      assert s == [s[0]] + s[1..];
      assert NoDup(s) ==> NoDup(s[1..]) && s[0] !in s[1..];
      var r' := Without(s[1..], x);
      assert NoDup(s) ==> s[0] !in r';
      [s[0]] + r'
  }

  lemma {:induction false} WithoutAt<T>(s: seq<T>, k: nat)
    requires k < |s| && NoDup(s)
    ensures Without(s, s[k]) == s[..k] + s[k + 1..]
  {
    if k > 0 {
      assert s[0] != s[k];
      WithoutAt(s[1..], k - 1);
      assert s[..k] == [s[0]] + s[1..][..k - 1];
    }
  }

  function Reversed<T>(s: seq<T>): (r: seq<T>)
    ensures |r| == |s| && forall i :: 0 <= i < |s| ==> r[i] == s[|s| - 1 - i]
  {
    seq(|s|, i requires 0 <= i < |s| => s[|s| - 1 - i])
  }

  lemma ReversedSame<T>(s: seq<T>)
    ensures forall x :: x in Reversed(s) <==> x in s
    ensures NoDup(s) ==> NoDup(Reversed(s))
  {
    forall x | x in s ensures x in Reversed(s) {
      var k :| 0 <= k < |s| && s[k] == x;
      assert Reversed(s)[|s| - 1 - k] == x;
    }
  }

  lemma IsIn(s: seq<int>, i: nat, x: int)
    requires i < |s| && s[i] == x
    ensures x in s
  {
  }

  /** A repetition-free sequence of indices below `n` holds all of them exactly when it has `n` entries. */
  lemma {:induction false} Covers(s: seq<int>, n: nat)
    requires NoDup(s) && forall i :: i in s ==> 0 <= i < n
    ensures |s| <= n
    ensures |s| == n <==> forall i :: 0 <= i < n ==> i in s
    decreases n
  {
    if n == 0 {
      if s != [] {
        IsIn(s, 0, s[0]);
        assert false;
      }
    } else {
      var r := Without(s, n - 1);
      Covers(r, n - 1);
      assert forall i :: 0 <= i < n - 1 ==> (i in r <==> i in s);
    }
  }

  lemma NoDupFront<T>(x: T, s: seq<T>)
    requires NoDup(s) && x !in s
    ensures NoDup([x] + s)
  {
  }
}

module IntrusiveList {
  import opened Sequences

  class Cell<T> {
    var value: T
    var next: Cell?<T>
    var prev: Cell?<T>

    /** Links the tail back to the new cell. */
    constructor (tail: Cell?<T>, value: T)
      modifies (if tail == null then {} else {tail})`prev
      ensures this.value == value && next == tail && prev == null
      ensures tail != null ==> tail.prev == this
    {
      this.value := value;
      next := tail;
      prev := null;
      new;
      if next != null {
        next.prev := this;
      }
    }
  }

  class List<T> {
    var head: Cell?<T>
    ghost var cells: seq<Cell<T>>

    /** The cells are linked in order. The back link of the first one is left free: `PopFront` does not
        reset it. */
    ghost predicate Valid()
      reads this, cells
    {
      && NoDup(cells)
      && head == (if cells == [] then null else cells[0])
      && (forall i {:trigger cells[i].next} :: 0 <= i < |cells| ==>
            cells[i].next == (if i + 1 < |cells| then cells[i + 1] else null))
      && (forall i {:trigger cells[i].prev} :: 1 <= i < |cells| ==> cells[i].prev == cells[i - 1])
    }

    /** The back link of the first cell, if there is one, is null. */
    ghost predicate HeadClean()
      reads this, cells
    {
      cells != [] ==> cells[0].prev == null
    }

    constructor ()
      ensures Valid() && cells == []
    {
      head := null;
      cells := [];
    }

    method EmplaceFront(value: T)
      requires Valid()
      modifies this, cells`prev
      ensures Valid() && HeadClean()
      ensures |cells| == |old(cells)| + 1 && cells[1..] == old(cells) && fresh(cells[0]) && cells[0].value == value
    {
      var cell := new Cell(head, value);
      head := cell;
      cells := [cell] + cells;
    }

    method PopFront()
      requires Valid() && cells != []
      modifies this
      ensures Valid() && cells == old(cells[1..])
      ensures cells != [] ==> cells[0].prev == old(cells[0])
    {
      assert cells[0].next == if 1 < |cells| then cells[1] else null;
      head := head.next;
      cells := cells[1..];
    }

    method Erase(cell: Cell<T>)
      requires Valid() && cell in cells
      modifies this, cells`next, cells`prev
      ensures Valid() && cells == Without(old(cells), cell)
      ensures cell != old(head) ==> (HeadClean() <==> old(HeadClean()))
      ensures cell == old(head) && cells != [] ==> !HeadClean()
    {
      hide Without;
      if cell == head {
        WithoutAt(cells, 0);
        PopFront();
        return;
      }
      ghost var k :| 1 <= k < |cells| && cells[k] == cell;
      assert cell.next == if k + 1 < |cells| then cells[k + 1] else null;
      WithoutAt(cells, k);
      var prev, next := cell.prev, cell.next;
      prev.next := next;
      if next != null {
        next.prev := prev;
      }
      cells := cells[..k] + cells[k + 1..];
    }
  }

  /** Moves a cell of `rhs` to the front of `lhs`. It trusts the back link of the cell to tell whether the
      cell is the first one: `rhs` lets go of the cell exactly when that link tells the truth. */
  method Steal<T>(lhs: List<T>, rhs: List<T>, cell: Cell<T>)
    requires lhs != rhs && lhs.Valid() && rhs.Valid() && cell in rhs.cells
    requires forall c :: c in lhs.cells ==> c !in rhs.cells
    modifies lhs, rhs, lhs.cells`next, lhs.cells`prev, rhs.cells`next, rhs.cells`prev,
             (if cell.prev == null then {} else {cell.prev})`next
    ensures rhs.head != cell <==> (old(rhs.head) != cell || old(cell.prev) == null)
    ensures rhs.head != cell ==> lhs.Valid() && rhs.Valid() && lhs.HeadClean()
    ensures rhs.head != cell ==> lhs.cells == [cell] + old(lhs.cells) && rhs.cells == Without(old(rhs.cells), cell)
    ensures rhs.head != cell ==> (rhs.HeadClean() <==> old(rhs.HeadClean()))
    ensures rhs.head == cell ==> lhs.head == cell
  {
    Unlink(rhs, cell);
    if rhs.head != cell {
      assert lhs.Valid() && cell !in lhs.cells && cell !in rhs.cells;
      assert lhs.head != null ==> lhs.head in lhs.cells && lhs.head !in rhs.cells;
    }
    Relink(lhs, cell);
  }

  method Unlink<T>(rhs: List<T>, cell: Cell<T>)
    requires rhs.Valid() && cell in rhs.cells
    modifies rhs, rhs.cells`next, rhs.cells`prev, (if cell.prev == null then {} else {cell.prev})`next
    ensures cell.next == old(cell.next)
    ensures rhs.head != cell <==> (old(rhs.head) != cell || old(cell.prev) == null)
    ensures rhs.head != cell ==> rhs.Valid() && rhs.cells == Without(old(rhs.cells), cell)
    ensures rhs.head != cell ==> (rhs.HeadClean() <==> old(rhs.HeadClean()))
    ensures rhs.head != cell ==> forall c :: c !in old(rhs.cells) && old(allocated(c)) ==>
              c.next == old(c.next) && c.prev == old(c.prev)
  {
    hide Without;
    ghost var k :| 0 <= k < |rhs.cells| && rhs.cells[k] == cell;
    assert cell.next == if k + 1 < |rhs.cells| then rhs.cells[k + 1] else null;
    assert k > 0 ==> cell.prev == rhs.cells[k - 1] && rhs.head != cell;
    WithoutAt(rhs.cells, k);
    ghost var rest := rhs.cells[..k] + rhs.cells[k + 1..];
    assert rest == Without(rhs.cells, cell) && cell !in rest;
    if cell.next != null {
      cell.next.prev := cell.prev;
    }
    if cell.prev != null {
      cell.prev.next := cell.next;
    } else {
      rhs.head := rhs.head.next;
    }
    if rhs.head != cell {
      rhs.cells := rest;
    }
  }

  method Relink<T>(lhs: List<T>, cell: Cell<T>)
    modifies lhs, cell`next, cell`prev, (if lhs.head == null then {} else {lhs.head})`prev
    ensures lhs.head == cell
    ensures old(lhs.Valid()) && cell !in old(lhs.cells) ==>
              lhs.Valid() && lhs.HeadClean() && lhs.cells == [cell] + old(lhs.cells)
  {
    if lhs.head != null {
      lhs.head.prev := cell;
    }
    cell.prev := null;
    cell.next := lhs.head;
    lhs.head := cell;
    lhs.cells := [cell] + lhs.cells;
  }
}
