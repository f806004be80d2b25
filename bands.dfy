/** The designated piles both strategies keep: containers of size k (1..4) live only
    on two piles of k adjacent columns, starting at columns `stack_position(1, k)`
    and `stack_position(2, k)`. `Banded` is the invariant that this layout gives the
    store, and the lemmas show that every strategy action keeps it and that, under
    it, the store's weak `can_remove` test is as good as a full one. */
module Bands {
  import opened Containers
  import opened Yards

  /** `stack_position(n, size)`: leftmost column of pile `n` (1 or 2) for containers
      of `size`. The source asserts `n` is 1 or 2. */
  function StackPosition(n: int, size: int): int
    requires 1 <= n <= 2
  {
    if n == 1 then size * (size - 1) else size * size
  }

  /** Both piles of size `k` hold nothing. */
  predicate SizeEmpty(storage: seq<seq<Container>>, k: int)
    requires |storage| >= 20 && 1 <= k <= 4
  {
    |storage[StackPosition(1, k)]| == 0 && |storage[StackPosition(2, k)]| == 0
  }

  /** The leftmost column of the pile that column `j` (< 20) belongs to; the piles
      are 0, 1 (size 1), 2..3, 4..5 (size 2), 6..8, 9..11 (size 3), 12..15, 16..19
      (size 4). */
  function PileStart(j: nat): nat
    requires j < 20
  {
    if j < 1 then 0 else if j < 2 then 1 else if j < 4 then 2 else if j < 6 then 4
    else if j < 9 then 6 else if j < 12 then 9 else if j < 16 then 12 else 16
  }

  /** The container size whose piles cover column `j` (< 20). */
  function ClassOf(j: nat): nat
    requires j < 20
  {
    if j < 2 then 1 else if j < 6 then 2 else if j < 12 then 3 else 4
  }

  /** Column `q` is the leftmost column of a pile. */
  predicate IsStart(q: nat)
  {
    q < 20 && PileStart(q) == q
  }

  /** Column `p` is the leftmost column of one of the two piles for `size`. */
  predicate IsPile(p: int, size: int)
  {
    0 <= p < 20 && PileStart(p) == p && ClassOf(p) == size
  }

  /** A pile starting at `q` covers exactly the columns q .. q + ClassOf(q) - 1. */
  lemma PileSpan(q: nat, j: nat)
    requires IsStart(q)
    ensures 1 <= ClassOf(q) && q + ClassOf(q) <= 20
    ensures (j < 20 && PileStart(j) == q) <==> q <= j < q + ClassOf(q)
  {
  }

  lemma StartOfColumn(j: nat)
    requires j < 20
    ensures IsStart(PileStart(j)) && ClassOf(PileStart(j)) == ClassOf(j)
  {
  }

  /** The two stack positions of each size 1..4 are the two distinct piles of that
      size. */
  lemma StackPositionsArePiles(size: int)
    requires 1 <= size <= 4
    ensures IsPile(StackPosition(1, size), size) && IsPile(StackPosition(2, size), size)
    ensures StackPosition(1, size) != StackPosition(2, size)
    ensures forall q: nat :: IsPile(q, size) ==> q == StackPosition(1, size) || q == StackPosition(2, size)
  {
    if size == 1 {
    } else if size == 2 {
    } else if size == 3 {
    } else {
    }
  }

  /** Piles pack contiguously: pile 2 of size k starts k columns after pile 1, and
      pile 1 of size k + 1 starts k columns after pile 2 of size k. */
  lemma PilesPackContiguously(k: int)
    ensures StackPosition(1, k) + k == StackPosition(2, k)
    ensures StackPosition(2, k) + k == StackPosition(1, k + 1)
  {
  }

  /** Hence the eight piles of sizes 1..4 are disjoint and lie inside columns 0..19:
      a column covered by two of them is covered by the same one twice. */
  lemma PilesDisjoint(n1: int, k1: int, n2: int, k2: int, j: int)
    requires 1 <= n1 <= 2 && 1 <= n2 <= 2 && 1 <= k1 <= 4 && 1 <= k2 <= 4
    requires StackPosition(n1, k1) <= j < StackPosition(n1, k1) + k1
    requires StackPosition(n2, k2) <= j < StackPosition(n2, k2) + k2
    ensures n1 == n2 && k1 == k2
    ensures 0 <= j < 20
  {
    StackPositionsArePiles(k1);
    StackPositionsArePiles(k2);
    PileSpan(StackPosition(n1, k1), j);
    PileSpan(StackPosition(n2, k2), j);
  }

  /** Column `j` holds the same stack as the leftmost column of its pile. */
  predicate ColumnMatches(y: Yard, j: nat)
    requires Valid(y) && j < 20 && y.width >= 20
  {
    y.storage[j] == y.storage[PileStart(j)]
  }

  /** The entry at level `h` of pile `q` has the pile's size, is listed, and is
      recorded at (h, q). */
  predicate OnPile(y: Yard, q: nat, h: nat)
    requires Valid(y) && q < y.width && h < |y.storage[q]|
  {
    var c := y.storage[q][h];
    q < 20 && c.size == ClassOf(q) && c in y.items && c.id in y.index && y.index[c.id] == Location(h, q)
  }

  /** A listed container is recorded at a pile start, and found there. */
  predicate AtHome(y: Yard, c: Container)
    requires Valid(y)
  {
    c.id in y.index && IsStart(y.index[c.id].column) &&
    y.index[c.id].height < |y.storage[y.index[c.id].column]| &&
    y.storage[y.index[c.id].column][y.index[c.id].height] == c
  }

  /** The band layout: every pile's columns hold one and the same stack of containers
      of the pile's size, columns from 20 on are empty, stacks, index and list agree,
      and no container is listed twice. */
  ghost predicate Banded(y: Yard)
  {
    Valid(y) && y.width >= 20 &&
    (forall j :: 0 <= j < 20 ==> ColumnMatches(y, j)) &&
    (forall j :: 20 <= j < y.width ==> y.storage[j] == []) &&
    (forall q: nat, h: nat :: IsStart(q) && h < |y.storage[q]| ==> OnPile(y, q, h)) &&
    (forall c :: c in y.items ==> AtHome(y, c)) &&
    (forall c :: multiset(y.items)[c] <= 1)
  }

  /** A fresh store of width at least 20 is banded. */
  lemma InitialBanded(width: nat)
    requires width >= 20
    ensures Banded(Initial(width))
  {
    var y := Initial(width);
    forall j | 0 <= j < 20
      ensures ColumnMatches(y, j)
    {
      StartOfColumn(j);
    }
  }

  /** Under the band layout, a pile of `size` is a flat target for a container of
      that size. */
  lemma BandedFlat(y: Yard, p: nat, size: nat)
    requires Banded(y) && IsPile(p, size)
    ensures CheckAdd(y.storage, p, size) == Flat
  {
    PileSpan(p, p);
    forall i | p <= i < p + size
      ensures |y.storage[i]| == |y.storage[p]|
    {
      PileSpan(p, i);
      assert ColumnMatches(y, i);
    }
  }

  /** The top of a non-empty pile is listed, recorded at that pile, has the pile's
      size and passes `can_remove`. */
  lemma TopOfPile(y: Yard, q: nat)
    requires Banded(y) && IsStart(q) && |y.storage[q]| > 0
    ensures var c := y.storage[q][|y.storage[q]| - 1];
              c in y.items && c.id in y.index && y.index[c.id] == Location(|y.storage[q]| - 1, q) &&
              c.size == ClassOf(q) && CanRemove(y, c)
  {
    assert OnPile(y, q, |y.storage[q]| - 1);
  }

  /** Under the band layout `can_remove` of a listed container is enough for `remove`
      to run to completion: the whole pile, not only its leftmost column, has the
      container on top. */
  lemma BandedRemoveSafe(y: Yard, c: Container)
    requires Banded(y) && c in y.items && c.id in y.index && CanRemove(y, c)
    ensures RemoveSafe(y, c)
    ensures IsStart(y.index[c.id].column) && c.size == ClassOf(y.index[c.id].column)
    ensures forall j :: y.index[c.id].column <= j < y.index[c.id].column + c.size ==>
              y.index[c.id].height + 1 == |y.storage[j]|
  {
    var l := y.index[c.id];
    assert AtHome(y, c);
    assert OnPile(y, l.column, l.height);
    PileSpan(l.column, l.column);
    forall j | l.column <= j < l.column + c.size
      ensures l.height + 1 == |y.storage[j]|
    {
      PileSpan(l.column, j);
      assert ColumnMatches(y, j);
    }
  }

  /** Adding a container that the store does not hold to one of its own piles keeps
      the band layout. */
  lemma BandedAdd(y: Yard, c: Container, p: nat)
    requires Banded(y) && IsPile(p, c.size) && c.id !in y.index
    ensures CheckAdd(y.storage, p, c.size) == Flat
    ensures Banded(Added(y, c, p))
  {
    BandedFlat(y, p, c.size);
    var r := Added(y, c, p);
    PileSpan(p, p);
    assert c !in y.items;
    forall j | 0 <= j < 20
      ensures ColumnMatches(r, j)
    {
      PileSpan(p, j);
      StartOfColumn(j);
      PileSpan(p, PileStart(j));
      assert ColumnMatches(y, j);
    }
    forall q: nat, h: nat | IsStart(q) && h < |r.storage[q]|
      ensures OnPile(r, q, h)
    {
      PileSpan(p, q);
      if q == p && h == |y.storage[p]| {
        assert r.storage[q][h] == c;
        assert r.items[|y.items|] == c;
      } else {
        assert r.storage[q][h] == y.storage[q][h];
        assert OnPile(y, q, h);
      }
    }
    forall x | x in r.items
      ensures AtHome(r, x)
    {
      if x != c {
        assert x in y.items;
        assert AtHome(y, x);
        PileSpan(p, y.index[x.id].column);
      }
    }
    forall x
      ensures multiset(r.items)[x] <= 1
    {
      assert multiset(r.items) == multiset(y.items) + multiset{c};
    }
  }

  /** Removing a listed container that passes `can_remove` keeps the band layout. */
  lemma BandedRemove(y: Yard, c: Container)
    requires Banded(y) && c in y.items && c.id in y.index && CanRemove(y, c)
    ensures RemoveSafe(y, c)
    ensures Banded(Removed(y, c))
  {
    BandedRemoveSafe(y, c);
    RemovedColumnsMatch(y, c);
    RemovedOnPile(y, c);
    RemovedAtHome(y, c);
    var r := Removed(y, c);
    forall x
      ensures multiset(r.items)[x] <= 1
    {
      assert multiset(y.items)[x] <= 1;
    }
  }

  /** After the removal every column still holds its pile's stack. */
  lemma RemovedColumnsMatch(y: Yard, c: Container)
    requires Banded(y) && c in y.items && c.id in y.index && CanRemove(y, c) && RemoveSafe(y, c)
    ensures forall j :: 0 <= j < 20 ==> ColumnMatches(Removed(y, c), j)
  {
    var l := y.index[c.id];
    var r := Removed(y, c);
    assert AtHome(y, c);
    assert OnPile(y, l.column, l.height);
    PileSpan(l.column, l.column);
    forall j | 0 <= j < 20
      ensures ColumnMatches(r, j)
    {
      PileSpan(l.column, j);
      StartOfColumn(j);
      PileSpan(l.column, PileStart(j));
      assert ColumnMatches(y, j);
    }
  }

  /** After removing the top of a pile, every remaining entry of a pile is still
      listed and recorded where it is. */
  lemma RemovedOnPile(y: Yard, c: Container)
    requires Banded(y) && c in y.items && c.id in y.index && CanRemove(y, c) && RemoveSafe(y, c)
    ensures forall q: nat, h: nat :: IsStart(q) && h < |Removed(y, c).storage[q]| ==> OnPile(Removed(y, c), q, h)
  {
    var l := y.index[c.id];
    var r := Removed(y, c);
    assert AtHome(y, c);
    assert OnPile(y, l.column, l.height);
    PileSpan(l.column, l.column);
    forall q: nat, h: nat | IsStart(q) && h < |r.storage[q]|
      ensures OnPile(r, q, h)
    {
      PileSpan(l.column, q);
      assert r.storage[q][h] == y.storage[q][h];
      assert OnPile(y, q, h);
      var e := y.storage[q][h];
      assert e.id != c.id;
      assert multiset(r.items)[e] == multiset(y.items)[e];
    }
  }

  /** After the removal every listed container is still found at its record. */
  lemma RemovedAtHome(y: Yard, c: Container)
    requires Banded(y) && c in y.items && c.id in y.index && CanRemove(y, c) && RemoveSafe(y, c)
    ensures forall x :: x in Removed(y, c).items ==> AtHome(Removed(y, c), x)
  {
    forall x | x in Removed(y, c).items
      ensures AtHome(Removed(y, c), x)
    {
      RemovedKeepsHome(y, c, x);
    }
  }

  /** A container left after the removal of `c` is still found at its record: it
      sits below `c` on the same pile, or on another pile. */
  lemma RemovedKeepsHome(y: Yard, c: Container, x: Container)
    requires Banded(y) && c in y.items && c.id in y.index && CanRemove(y, c) && RemoveSafe(y, c)
    requires x in Removed(y, c).items
    ensures AtHome(Removed(y, c), x)
  {
    var l := y.index[c.id];
    var r := Removed(y, c);
    assert AtHome(y, c);
    assert OnPile(y, l.column, l.height);
    PileSpan(l.column, l.column);
    assert multiset(r.items)[x] == multiset(y.items)[x] - multiset{c}[x];
    assert x in y.items && x != c;
    assert AtHome(y, x);
    var lx := y.index[x.id];
    assert x.id != c.id;
    PileSpan(l.column, lx.column);
    if lx.column == l.column {
      assert lx.height != l.height;
      assert r.storage[l.column] == Delete(y.storage[l.column], l.height);
      assert Delete(y.storage[l.column], l.height)[lx.height] == x;
    } else {
      assert r.storage[lx.column] == y.storage[lx.column];
    }
  }

  /** Moving the top of a pile to one of the piles of its size: `move` runs to
      completion (it lifts the container and adds it to the target) and keeps the
      band layout. */
  lemma BandedMove(y: Yard, c: Container, p: nat)
    requires Banded(y) && c in y.items && c.id in y.index && CanRemove(y, c) && IsPile(p, c.size)
    ensures RemoveSafe(y, c)
    ensures CheckAdd(Removed(y, c).storage, p, c.size) == Flat
    ensures Moved(y, c, p) == Some(Added(Removed(y, c), c, p))
    ensures Banded(Added(Removed(y, c), c, p))
  {
    BandedFlat(y, p, c.size);
    BandedRemove(y, c);
    BandedAdd(Removed(y, c), c, p);
  }

  /** Moving the top of pile `q` onto the other pile `p` of its size: the move goes
      through, `q` loses one container, `p` gains one, and no other pile changes. */
  lemma ShiftHeights(y: Yard, q: nat, p: nat)
    requires Banded(y) && IsStart(q) && IsStart(p) && q != p && ClassOf(q) == ClassOf(p)
    requires |y.storage[q]| > 0
    ensures var c := y.storage[q][|y.storage[q]| - 1];
      c in y.items && c.id in y.index && IsPile(p, c.size) && CanMove(y, c, p) &&
      RemoveSafe(y, c) && CheckAdd(Removed(y, c).storage, p, c.size) == Flat &&
      var z := Added(Removed(y, c), c, p);
      |z.storage[q]| == |y.storage[q]| - 1 && |z.storage[p]| == |y.storage[p]| + 1 &&
      forall r: nat :: IsStart(r) && r != q && r != p ==> |z.storage[r]| == |y.storage[r]|
  {
    var c := y.storage[q][|y.storage[q]| - 1];
    TopOfPile(y, q);
    BandedFlat(y, p, c.size);
    BandedMove(y, c, p);
    PileSpan(q, q);
    PileSpan(p, p);
    PileSpan(q, p);
    PileSpan(p, q);
    var z := Added(Removed(y, c), c, p);
    forall r: nat | IsStart(r) && r != q && r != p
      ensures |z.storage[r]| == |y.storage[r]|
    {
      PileSpan(q, r);
      PileSpan(p, r);
    }
  }

  /** Taking the top of pile `q` away: the removal goes through, `q` loses one
      container, and no other pile changes. */
  lemma DropHeights(y: Yard, q: nat)
    requires Banded(y) && IsStart(q) && |y.storage[q]| > 0
    ensures var c := y.storage[q][|y.storage[q]| - 1];
      c in y.items && c.id in y.index && c.size == ClassOf(q) && CanRemove(y, c) && RemoveSafe(y, c) &&
      var z := Removed(y, c);
      |z.storage[q]| == |y.storage[q]| - 1 &&
      forall r: nat :: IsStart(r) && r != q ==> |z.storage[r]| == |y.storage[r]|
  {
    var c := y.storage[q][|y.storage[q]| - 1];
    TopOfPile(y, q);
    BandedRemoveSafe(y, c);
    PileSpan(q, q);
    var z := Removed(y, c);
    forall r: nat | IsStart(r) && r != q
      ensures |z.storage[r]| == |y.storage[r]|
    {
      PileSpan(q, r);
    }
  }

  /** Taking one container off keeps every other removable container removable: it
      sits on a different pile. */
  lemma RemoveKeepsOthersRemovable(y: Yard, c: Container, x: Container)
    requires Banded(y) && c in y.items && c.id in y.index && CanRemove(y, c)
    requires x in y.items && x.id in y.index && CanRemove(y, x) && x != c
    ensures RemoveSafe(y, c)
    ensures x in Removed(y, c).items && x.id in Removed(y, c).index && CanRemove(Removed(y, c), x)
  {
    BandedRemoveSafe(y, c);
    var r := Removed(y, c);
    var l := y.index[c.id];
    var lx := y.index[x.id];
    assert AtHome(y, c) && AtHome(y, x);
    assert multiset(r.items)[x] == multiset(y.items)[x];
    PileSpan(l.column, lx.column);
  }

  /** Under the band layout every listed container is recorded in the index. */
  lemma BandedIndexed(y: Yard)
    requires Banded(y)
    ensures Indexed(y)
  {
    forall k | 0 <= k < |y.items|
      ensures y.items[k].id in y.index
    {
      assert y.items[k] in y.items;
      assert AtHome(y, y.items[k]);
    }
  }

  /** A store that holds a container has a non-empty pile. */
  lemma NonEmptyStoreHasPile(y: Yard)
    requires Banded(y) && y.items != []
    ensures exists q: nat :: IsStart(q) && |y.storage[q]| > 0
  {
    assert AtHome(y, y.items[0]);
    var q := y.index[y.items[0].id].column;
    assert IsStart(q) && |y.storage[q]| > 0;
  }

  /** Every stacked container is listed; in particular an empty store has every
      column empty. */
  lemma StackedAreListed(y: Yard)
    requires Banded(y)
    ensures forall j, h :: 0 <= j < y.width && 0 <= h < |y.storage[j]| ==> y.storage[j][h] in y.items
    ensures forall j :: 0 <= j < y.width ==> y.storage[j] == [] || y.storage[j][0] in y.items
    ensures y.items == [] ==> forall j :: 0 <= j < y.width ==> y.storage[j] == []
  {
    forall j, h | 0 <= j < 20 && 0 <= h < |y.storage[j]|
      ensures y.storage[j][h] in y.items
    {
      StartOfColumn(j);
      assert ColumnMatches(y, j);
      assert OnPile(y, PileStart(j), h);
    }
  }

  /** A store that holds a container has a container on one of the eight stack
      positions. */
  lemma StoredOnStackPositions(y: Yard)
    requires Banded(y)
    ensures y.items != [] ==>
              exists k :: 1 <= k <= 4 && !SizeEmpty(y.storage, k)
  {
    if y.items != [] {
      assert AtHome(y, y.items[0]);
      var q := y.index[y.items[0].id].column;
      StartsAreStackPositions(q);
      StackPositionsArePiles(ClassOf(q));
      assert q == StackPosition(1, ClassOf(q)) || q == StackPosition(2, ClassOf(q));
      assert !SizeEmpty(y.storage, ClassOf(q));
    }
  }

  /** The eight pile starts are exactly the stack positions of sizes 1..4. */
  lemma StartsAreStackPositions(q: nat)
    requires IsStart(q)
    ensures 1 <= ClassOf(q) <= 4
    ensures q == StackPosition(1, ClassOf(q)) || q == StackPosition(2, ClassOf(q))
  {
  }

  /** The other pile of the size whose pile starts at `q`. */
  function Twin(q: nat): (r: nat)
    requires IsStart(q)
    ensures IsStart(r) && r != q && ClassOf(r) == ClassOf(q)
    ensures r == StackPosition(1, ClassOf(q)) || r == StackPosition(2, ClassOf(q))
  {
    if q == 0 then 1 else if q == 1 then 0 else if q == 2 then 4 else if q == 4 then 2
    else if q == 6 then 9 else if q == 9 then 6 else if q == 12 then 16 else 12
  }

  /** The band layout does not depend on the cash counter. */
  lemma BandedIgnoresCash(y: Yard, amount: int)
    requires Banded(y)
    ensures Banded(Credited(y, amount))
  {
    var r := Credited(y, amount);
    assert r.storage == y.storage && r.index == y.index && r.items == y.items && r.width == y.width;
    forall j | 0 <= j < 20
      ensures ColumnMatches(r, j)
    {
      assert ColumnMatches(y, j);
    }
    forall q: nat, h: nat | IsStart(q) && h < |r.storage[q]|
      ensures OnPile(r, q, h)
    {
      assert OnPile(y, q, h);
    }
    forall x | x in r.items
      ensures AtHome(r, x)
    {
      assert AtHome(y, x);
    }
  }
}
