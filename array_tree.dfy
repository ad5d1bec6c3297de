/** The array-backed binary tree of tree.c: a fixed table of 50 integers in
    which the children of slot `i` sit at `2i + 1` and `2i + 2`. */
module ArrayTree {

  /** Number of slots of `tree[50]`. */
  const Size: nat := 50

  /** Value `main` writes into every slot before building: "no node here". */
  const Empty: int := -1

  function LeftOf(i: int): int { 2 * i + 1 }

  function RightOf(i: int): int { 2 * i + 2 }

  /** `tree[50]`. The C array is a global; the functions write it in place and
      never check an index, so every write requires the index to lie in the table. */
  class Tree {
    const slots: array<int>

    ghost predicate Valid()
      reads this
    {
      slots.Length == Size
    }

    /** The table at program start: a global array, zero-initialised. */
    constructor ()
      ensures Valid() && fresh(slots)
      ensures slots[..] == seq(Size, _ => 0)
    {
      slots := new int[Size](_ => 0);
    }

    /** The loop at the top of `main`: every slot becomes -1. */
    method Reset()
      requires Valid()
      modifies slots
      ensures slots[..] == seq(Size, _ => Empty)
    {
      for i := 0 to Size
        invariant forall k :: 0 <= k < i ==> slots[k] == Empty
      {
        slots[i] := Empty;
      }
    }

    /** `createtree(vl)`: the root is slot 0. */
    method CreateTree(value: int)
      requires Valid()
      modifies slots
      ensures slots[..] == old(slots[..])[0 := value]
    {
      slots[0] := value;
    }

    /** `setleftchild(i, val)`. */
    method SetLeftChild(i: int, value: int)
      requires Valid() && 0 <= LeftOf(i) < Size
      modifies slots
      ensures slots[..] == old(slots[..])[LeftOf(i) := value]
    {
      slots[2 * i + 1] := value;
    }

    /** `setrightchild(i, val)`. */
    method SetRightChild(i: int, value: int)
      requires Valid() && 0 <= RightOf(i) < Size
      modifies slots
      ensures slots[..] == old(slots[..])[RightOf(i) := value]
    {
      slots[2 * i + 2] := value;
    }

    /** The build sequence of `main`: reset, root 1, left child 2, right child 3. */
    method Build()
      requires Valid()
      modifies slots
      ensures slots[..] == Built()
      ensures slots[..3] == [1, 2, 3] && forall k :: 3 <= k < Size ==> slots[k] == Empty
    {
      Reset();
      CreateTree(1);
      SetLeftChild(0, 2);
      SetRightChild(0, 3);
      assert slots[..] == seq(Size, _ => Empty)[0 := 1][1 := 2][2 := 3];
      BuiltSlots();
    }
  }

  /** The table `main` leaves behind. */
  function Built(): seq<int>
  {
    seq(Size, _ => Empty)[0 := 1][1 := 2][2 := 3]
  }

  /** After `main`: the root and its two children hold 1, 2, 3 and every other
      slot is still empty. */
  lemma BuiltSlots()
    ensures |Built()| == Size
    ensures Built()[..3] == [1, 2, 3]
    ensures forall k :: 3 <= k < Size ==> Built()[k] == Empty
  {
    assert Built()[..3] == [Built()[0], Built()[1], Built()[2]];
  }

  /** The children of a slot are two different slots, both after it, so setting
      a child never overwrites its parent or its sibling. */
  lemma ChildrenAfterParent(i: int)
    requires i >= 0
    ensures i < LeftOf(i) < RightOf(i)
    ensures LeftOf(i) % 2 == 1 && RightOf(i) % 2 == 0
  {
  }

  /** Without a bounds check, the largest slot with room for a right child is 23
      (and 24 for a left child). */
  lemma LastParents(i: int)
    ensures 0 <= RightOf(i) < Size <==> -1 <= i <= 23
    ensures 0 <= LeftOf(i) < Size <==> 0 <= i <= 24
  {
  }

  /** Distinct slots have distinct children: no two parents share a child. */
  lemma ChildrenInjective(i: int, j: int)
    ensures LeftOf(i) == LeftOf(j) ==> i == j
    ensures RightOf(i) == RightOf(j) ==> i == j
    ensures LeftOf(i) != RightOf(j)
  {
  }

  /** Every slot but the root is a child of exactly one parent, `(k - 1) / 2`. */
  lemma ParentOf(k: int)
    requires 0 < k
    ensures var p := (k - 1) / 2; 0 <= p < k && (k == LeftOf(p) || k == RightOf(p))
  {
  }
}
