/** The storage yard as a value: the state a `Store` object holds, and the effect of
    each of its operations on that state. The imperative `Store` class is proved to
    follow these functions, and the log replay is a fold of them. */
module Yards {
  import opened Containers

  /** Where a container sits: its 0-based level in the column stack and its leftmost column. */
  datatype Location = Location(height: nat, column: nat)

  /** `width` columns, each listed from bottom to top; the identifier index
      (`_map`); the containers in insertion order (`_containers`); the cash counter. */
  datatype Yard = Yard(width: nat, storage: seq<seq<Container>>, index: map<int, Location>,
                       items: seq<Container>, cash: int)

  /** The shape every store keeps: one stack per column, and every recorded
      location names an existing column. */
  predicate Valid(y: Yard)
  {
    |y.storage| == y.width &&
    forall id :: id in y.index ==> y.index[id].column < y.width
  }

  /** A fresh store: `width` empty columns, no containers, no cash. */
  function Initial(width: nat): (y: Yard)
    ensures Valid(y) && y.width == width
    ensures y.items == [] && y.index == map[] && y.cash == 0
    ensures forall p :: 0 <= p < width ==> y.storage[p] == []
  {
    Yard(width, seq(width, _ => []), map[], [], 0)
  }

  predicate ValidPosition(y: Yard, p: int)
  {
    p < y.width
  }

  function Height(y: Yard, p: nat): nat
    requires Valid(y) && p < y.width
  {
    |y.storage[p]|
  }

  /** The three outcomes of `can_add`: true, false, or a failed assertion. */
  datatype AddCheck = Flat | NotFlat | OutOfRange

  /** `can_add` for a container of `size` at column `p`. The source compares the
      columns p, p+1, ... with column p in turn and returns false at the first
      mismatch; it fails an assertion when `p`, or a column reached before any
      mismatch, lies outside the store. */
  function CheckAdd(storage: seq<seq<Container>>, p: nat, size: nat): (r: AddCheck)
    ensures r == Flat <==>
              p < |storage| && p + size <= |storage| &&
              forall i :: p <= i < p + size ==> |storage[i]| == |storage[p]|
    ensures r == OutOfRange ==> p >= |storage| || p + size > |storage|
    ensures r == NotFlat <==>
              p < |storage| && exists i :: p <= i < |storage| && i < p + size && |storage[i]| != |storage[p]|
  {
    if p >= |storage| then OutOfRange
    else if exists i :: p <= i < |storage| && i < p + size && |storage[i]| != |storage[p]| then NotFlat
    else if p + size > |storage| then OutOfRange
    else Flat
  }

  /** `add`: record the location (current height of `p`, `p`), append the container
      to the insertion list and push it onto columns p .. p+size-1. */
  function Added(y: Yard, c: Container, p: nat): (r: Yard)
    requires Valid(y) && CheckAdd(y.storage, p, c.size) == Flat
    ensures Valid(r) && r.width == y.width && r.cash == y.cash
    ensures c.id in r.index && r.index[c.id] == Location(Height(y, p), p)
    ensures forall id :: id in y.index && id != c.id ==> id in r.index && r.index[id] == y.index[id]
    ensures r.items == y.items + [c]
    ensures forall j :: 0 <= j < y.width ==>
              |r.storage[j]| == |y.storage[j]| + (if p <= j < p + c.size then 1 else 0)
    ensures c.size >= 1 ==> CanRemove(r, c)
  {
    Yard(y.width,
         seq(y.width, j requires 0 <= j < y.width =>
               if p <= j < p + c.size then y.storage[j] + [c] else y.storage[j]),
         y.index[c.id := Location(|y.storage[p]|, p)],
         y.items + [c],
         y.cash)
  }

  /** `can_remove` for a container that has a location: its recorded height is the
      top of its LEFTMOST column. The other columns it spans are not looked at. */
  predicate CanRemove(y: Yard, c: Container)
    requires Valid(y) && c.id in y.index
  {
    y.index[c.id].height + 1 == |y.storage[y.index[c.id].column]|
  }

  /** `remove` runs to completion: its assertion (indexed and `can_remove`) holds,
      the container is in the insertion list, and every spanned column exists and
      reaches the recorded height. */
  predicate RemoveSafe(y: Yard, c: Container)
    requires Valid(y)
  {
    c.id in y.index && CanRemove(y, c) && c in y.items &&
    y.index[c.id].column + c.size <= y.width &&
    forall j :: y.index[c.id].column <= j < y.index[c.id].column + c.size ==>
      y.index[c.id].height < |y.storage[j]|
  }

  /** The list `s` with its entry at `h` deleted (`del s[h]`). */
  function Delete(s: seq<Container>, h: nat): (r: seq<Container>)
    requires h < |s|
    ensures |r| == |s| - 1
  {
    s[..h] + s[h + 1..]
  }

  /** First index of `x` in `s`. */
  function FirstIndex(s: seq<Container>, x: Container): (k: nat)
    requires x in s
    ensures k < |s| && s[k] == x && x !in s[..k]
  {
    if s[0] == x then 0 else 1 + FirstIndex(s[1..], x)
  }

  /** `list.remove`: drop the first occurrence of `x`. */
  function RemoveFirst(s: seq<Container>, x: Container): (r: seq<Container>)
    ensures x in s ==> |r| == |s| - 1 && multiset(r) == multiset(s) - multiset{x}
    ensures x !in s ==> r == s
  {
    if s == [] then []
    else if s[0] == x then (assert s == [s[0]] + s[1..]; s[1..])
    else (assert s == [s[0]] + s[1..]; [s[0]] + RemoveFirst(s[1..], x))
  }

  /** `list.remove` drops exactly the entry at the first index of `x`. */
  lemma {:induction false} RemoveFirstAt(s: seq<Container>, x: Container)
    requires x in s
    ensures RemoveFirst(s, x) == s[..FirstIndex(s, x)] + s[FirstIndex(s, x) + 1..]
  {
    if s[0] != x {
      var t := s[1..];
      assert s == [s[0]] + t;
      RemoveFirstAt(t, x);
      ConsDelete(s[0], t, FirstIndex(t, x));
    }
  }

  /** Deleting entry `k` of `t`, then putting `a` in front, is deleting entry
      `k + 1` of `[a] + t`. */
  lemma ConsDelete(a: Container, t: seq<Container>, k: nat)
    requires k < |t|
    ensures [a] + (t[..k] + t[k + 1..]) == ([a] + t)[..k + 1] + ([a] + t)[k + 2..]
  {
    assert [a] + t[..k] == ([a] + t)[..k + 1];
    assert t[k + 1..] == ([a] + t)[k + 2..];
  }

  /** `remove`: drop the index entry and the first equal list entry, and delete the
      entry at the recorded height from every spanned column. */
  function Removed(y: Yard, c: Container): (r: Yard)
    requires Valid(y) && RemoveSafe(y, c)
    ensures Valid(r) && r.width == y.width && r.cash == y.cash
    ensures forall id :: id in r.index <==> id in y.index && id != c.id
    ensures forall id :: id in r.index ==> r.index[id] == y.index[id]
    ensures multiset(r.items) == multiset(y.items) - multiset{c}
    ensures forall j :: 0 <= j < y.width ==>
              |r.storage[j]| == |y.storage[j]| -
                (if y.index[c.id].column <= j < y.index[c.id].column + c.size then 1 else 0)
  {
    var loc := y.index[c.id];
    Yard(y.width,
         seq(y.width, j requires 0 <= j < y.width =>
               if loc.column <= j < loc.column + c.size then Delete(y.storage[j], loc.height)
               else y.storage[j]),
         y.index - {c.id},
         RemoveFirst(y.items, c),
         y.cash)
  }

  /** `add_cash`. */
  function Credited(y: Yard, amount: int): (r: Yard)
    ensures r.cash == y.cash + amount
    ensures r.(cash := y.cash) == y
  {
    y.(cash := y.cash + amount)
  }

  /** Crediting cash and removing a container commute: `sell_container` credits
      first, the log replay removes first, and both reach the same store. */
  lemma CreditCommutesWithRemove(y: Yard, c: Container, amount: int)
    requires Valid(y) && RemoveSafe(y, c)
    ensures RemoveSafe(Credited(y, amount), c)
    ensures Removed(Credited(y, amount), c) == Credited(Removed(y, c), amount)
  {
  }

  /** `move`; None where the source raises. The test `can_move` (can_remove, then
      can_add) is made on the state BEFORE the removal; when it fails the store is
      left as it is. After the removal `add` asserts `can_add` again. */
  function Moved(y: Yard, c: Container, p: nat): (r: Option<Yard>)
    requires Valid(y)
    ensures r.Some? ==> Valid(r.value) && r.value.width == y.width && r.value.cash == y.cash
    ensures r.Some? && r.value != y ==>
              c.id in y.index && CanRemove(y, c) && CheckAdd(y.storage, p, c.size) == Flat
    ensures c.id !in y.index ==> r.None?
  {
    if c.id !in y.index then None
    else if !CanRemove(y, c) then Some(y)
    else match CheckAdd(y.storage, p, c.size)
      case OutOfRange => None
      case NotFlat => Some(y)
      case Flat =>
        if !RemoveSafe(y, c) then None
        else
          var y1 := Removed(y, c);
          if CheckAdd(y1.storage, p, c.size) != Flat then None
          else Some(Added(y1, c, p))
  }

  /** `can_move` answers false on the state before the move: the container is not on
      top, or the target is not flat (a target running off the store is not a false
      answer but a failed assertion). */
  predicate MoveRefused(y: Yard, c: Container, p: nat)
    requires Valid(y) && c.id in y.index
  {
    !CanRemove(y, c) || CheckAdd(y.storage, p, c.size) == NotFlat
  }

  /** The outcomes of `move`: a failed `can_move` leaves the store as it is; the move
      fails only where the source raises (an unknown container, a target outside the
      store, or a lifted container that no longer fits); otherwise the container is
      lifted and put down at `p`. */
  lemma MovedCases(y: Yard, c: Container, p: nat)
    requires Valid(y)
    ensures c.id in y.index && MoveRefused(y, c, p) ==> Moved(y, c, p) == Some(y)
    ensures Moved(y, c, p).None? ==>
              c.id !in y.index || (CanRemove(y, c) && CheckAdd(y.storage, p, c.size) != NotFlat)
    ensures c.id in y.index && CanRemove(y, c) && CheckAdd(y.storage, p, c.size) == Flat &&
            RemoveSafe(y, c) && CheckAdd(Removed(y, c).storage, p, c.size) == Flat ==>
              Moved(y, c, p) == Some(Added(Removed(y, c), c, p))
  {
  }

  /** `can_move` as the source asks it just before moving: removable now, and the
      target flat now (both judged before the container is lifted). */
  predicate CanMove(y: Yard, c: Container, p: nat)
    requires Valid(y) && c.id in y.index
  {
    CanRemove(y, c) && CheckAdd(y.storage, p, c.size) == Flat
  }

  /** `empty(p)`. */
  predicate EmptyAt(y: Yard, p: nat)
    requires Valid(y) && p < y.width
  {
    |y.storage[p]| == 0
  }

  /** `top_container(p)`. */
  function TopContainer(y: Yard, p: nat): Option<Container>
    requires Valid(y) && p < y.width
  {
    if EmptyAt(y, p) then None else Some(y.storage[p][|y.storage[p]| - 1])
  }

  /** `location(c)`. */
  function LocationOf(y: Yard, c: Container): Option<Location>
  {
    if c.id in y.index then Some(y.index[c.id]) else None
  }

  /** Every listed container has a location (so `can_remove` can be asked of it). */
  predicate Indexed(y: Yard)
  {
    forall k :: 0 <= k < |y.items| ==> y.items[k].id in y.index
  }

  /** The entries of `s` that `can_remove` accepts, in the order of `s`. */
  function FilterRemovable(y: Yard, s: seq<Container>): seq<Container>
    requires Valid(y)
  {
    if s == [] then []
    else
      var rest := FilterRemovable(y, s[1..]);
      if s[0].id in y.index && CanRemove(y, s[0]) then [s[0]] + rest else rest
  }

  /** The filter keeps exactly the entries `can_remove` accepts, each no more often
      than it occurs. */
  lemma {:induction false} FilterRemovableMembers(y: Yard, s: seq<Container>)
    requires Valid(y)
    ensures multiset(FilterRemovable(y, s)) <= multiset(s)
    ensures forall x :: x in FilterRemovable(y, s) <==> x in s && x.id in y.index && CanRemove(y, x)
  {
    if s != [] {
      FilterRemovableMembers(y, s[1..]);
      assert s == [s[0]] + s[1..];
    }
  }

  /** The filter over a suffix `s[k..]` looks at `s[k]`, then goes on with `s[k+1..]`. */
  lemma FilterRemovableStep(y: Yard, s: seq<Container>, k: nat)
    requires Valid(y) && k < |s|
    ensures FilterRemovable(y, s[k..]) ==
              (if s[k].id in y.index && CanRemove(y, s[k]) then [s[k]] else []) + FilterRemovable(y, s[k + 1..])
  {
    assert s[k..][0] == s[k] && s[k..][1..] == s[k + 1..];
  }

  /** `removable_containers`. */
  function Removables(y: Yard): seq<Container>
    requires Valid(y) && Indexed(y)
  {
    FilterRemovable(y, y.items)
  }

  /** Round trip: adding a container that the store does not hold and removing it
      straight away gives back the same columns, index, list and cash. */
  lemma AddThenRemove(y: Yard, c: Container, p: nat)
    requires Valid(y) && CheckAdd(y.storage, p, c.size) == Flat && c.size >= 1
    requires c.id !in y.index && c !in y.items
    ensures RemoveSafe(Added(y, c, p), c)
    ensures Removed(Added(y, c, p), c) == y
  {
    var y1 := Added(y, c, p);
    var h := |y.storage[p]|;
    assert y1.index[c.id] == Location(h, p);
    assert c in y1.items by { assert y1.items[|y.items|] == c; }
    forall j | p <= j < p + c.size
      ensures h < |y1.storage[j]|
    {
      assert y1.storage[j] == y.storage[j] + [c];
    }
    var y2 := Removed(y1, c);
    forall j | 0 <= j < y.width
      ensures y2.storage[j] == y.storage[j]
    {
      if p <= j < p + c.size {
        assert y1.storage[j] == y.storage[j] + [c];
        assert |y.storage[j]| == h;
        assert Delete(y1.storage[j], h) == y.storage[j];
      }
    }
    assert y2.storage == y.storage;
    assert y2.index == y.index;
    assert RemoveFirst(y.items + [c], c) == y.items by { RemoveFirstSkips(y.items, c); }
  }

  lemma {:induction false} RemoveFirstSkips(s: seq<Container>, x: Container)
    requires x !in s
    ensures RemoveFirst(s + [x], x) == s
  {
    if s != [] {
      assert (s + [x])[1..] == s[1..] + [x];
      RemoveFirstSkips(s[1..], x);
    }
  }
}
