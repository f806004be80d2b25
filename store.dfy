/** The `Store` class: a yard updated in place. Its fields are the source's
    `_width`, `_storage`, `_map`, `_containers` and `_cash`; every method is proved
    to leave the fields equal to the matching `Yards` function of the old ones. */
module Stores {
  import opened Containers
  import opened Yards

  class Store {
    const width: nat
    var storage: seq<seq<Container>>
    var index: map<int, Location>
    var items: seq<Container>
    var cash: int

    /** The fields as one value. */
    function Model(): Yard
      reads this
    {
      Yard(width, storage, index, items, cash)
    }

    ghost predicate Valid()
      reads this
    {
      Yards.Valid(Model())
    }

    constructor (width: nat)
      ensures Valid() && Model() == Initial(width)
    {
      this.width := width;
      storage := seq(width, _ => []);
      index := map[];
      items := [];
      cash := 0;
    }

    /** `add_cash`: the only operation that touches the cash counter. */
    method AddCash(amount: int)
      requires Valid()
      modifies this
      ensures Valid() && Model() == Credited(old(Model()), amount)
    {
      cash := cash + amount;
    }

    /** `can_add`; `OutOfRange` stands for the source's failed assertion. */
    method CanAdd(c: Container, p: nat) returns (r: AddCheck)
      requires Valid()
      ensures r == CheckAdd(storage, p, c.size)
    {
      if p >= width {
        return OutOfRange;
      }
      var level := |storage[p]|;
      var i := p;
      while i < p + c.size
        invariant p <= i <= p + c.size && i <= width
        invariant forall k :: p <= k < i ==> k < width && |storage[k]| == level
      {
        if i >= width {
          return OutOfRange;
        }
        if |storage[i]| != level {
          return NotFlat;
        }
        i := i + 1;
      }
      return Flat;
    }

    /** `add`, whose assertion `can_add` is its precondition. */
    method Add(c: Container, p: nat)
      requires Valid() && CheckAdd(storage, p, c.size) == Flat
      modifies this
      ensures Valid() && Model() == Added(old(Model()), c, p)
    {
      index := index[c.id := Location(|storage[p]|, p)];
      items := items + [c];
      var i := p;
      while i < p + c.size
        invariant p <= i <= p + c.size <= width
        invariant |storage| == width
        invariant forall j :: 0 <= j < width ==>
                    storage[j] == if p <= j < i then old(storage)[j] + [c] else old(storage)[j]
        invariant index == old(index)[c.id := Location(|old(storage)[p]|, p)]
        invariant items == old(items) + [c] && cash == old(cash)
      {
        storage := storage[i := storage[i] + [c]];
        i := i + 1;
      }
      assert storage == Added(old(Model()), c, p).storage;
    }

    /** `remove`; its assertion and the index errors it would raise are its precondition. */
    method Remove(c: Container)
      requires Valid() && RemoveSafe(Model(), c)
      modifies this
      ensures Valid() && Model() == Removed(old(Model()), c)
    {
      var loc := index[c.id];
      index := index - {c.id};
      items := RemoveFirst(items, c);
      var i := loc.column;
      while i < loc.column + c.size
        invariant loc.column <= i <= loc.column + c.size <= width
        invariant |storage| == width
        invariant forall j :: 0 <= j < width ==>
                    storage[j] == if loc.column <= j < i then Delete(old(storage)[j], loc.height)
                                  else old(storage)[j]
        invariant index == old(index) - {c.id}
        invariant items == RemoveFirst(old(items), c) && cash == old(cash)
      {
        storage := storage[i := Delete(storage[i], loc.height)];
        i := i + 1;
      }
      assert storage == Removed(old(Model()), c).storage;
    }

    /** `move`. The result is false where the source raises: `can_add` failing its
        assertion on the target, `remove` failing, or `add` failing its assertion
        after the removal. When `can_move` is false the store is left untouched and
        the result is true. */
    method Move(c: Container, p: nat) returns (ok: bool)
      requires Valid() && c.id in index
      modifies this
      ensures Valid()
      ensures ok == Moved(old(Model()), c, p).Some?
      ensures ok ==> Model() == Moved(old(Model()), c, p).value
      ensures MoveRefused(old(Model()), c, p) ==> ok && unchanged(this)
    {
      MovedCases(Model(), c, p);
      if !Yards.CanRemove(Model(), c) {
        return true;
      }
      var fits := CanAdd(c, p);
      if fits == OutOfRange {
        return false;
      }
      if fits == NotFlat {
        return true;
      }
      if !RemoveSafe(Model(), c) {
        return false;
      }
      Remove(c);
      var again := CanAdd(c, p);
      if again != Flat {
        return false;
      }
      Add(c, p);
      return true;
    }

    /** `removable_containers`: the listed containers that `can_remove` accepts, in
        insertion order. */
    method RemovableContainers() returns (r: seq<Container>)
      requires Valid() && Indexed(Model())
      ensures r == Removables(Model())
      ensures forall x :: x in r <==> x in items && Yards.CanRemove(Model(), x)
    {
      ghost var y := Model();
      r := [];
      var k := 0;
      while k < |items|
        invariant 0 <= k <= |items|
        invariant r + FilterRemovable(y, items[k..]) == Removables(y)
      {
        FilterRemovableStep(y, items, k);
        if Yards.CanRemove(Model(), items[k]) {
          r := r + [items[k]];
        }
        k := k + 1;
      }
      FilterRemovableMembers(y, items);
    }
  }
}
