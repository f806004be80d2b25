/** The expert strategy: a clock and a store, driven one incoming container at a
    time. The queries that only read the store are functions of the yard and the
    clock; those the source writes as accumulator loops are methods proved equal to
    them; the actions that change the store are methods of `Strategy` that keep the
    band layout and keep the action log replayable to exactly the store built. */
module Expert {
  import opened Containers
  import opened Yards
  import opened Stores
  import opened Replay
  import opened Bands
  import opened Actions

  /** A pile candidate of `best_pile`: [position, score, remaining time]. The score is
      the source's `(3 * money + count) / 4` multiplied by 4, so it is an integer. */
  datatype PileChoice = PileChoice(pos: nat, score: int, rem: int)

  /** The candidate `best_pile` starts from: [0, -1, 0], score -1 scaled by 4. */
  const Unscored := PileChoice(0, -4, 0)

  /** The columns `best_pile` visits, in order: i*i then i*(i-1) for i = 1..4. */
  const Order: seq<nat> := [1, 0, 4, 2, 9, 6, 16, 12]

  /** Every stacked container has a non-negative value. */
  ghost predicate NonNegative(y: Yard)
  {
    forall j, x :: 0 <= j < |y.storage| && x in y.storage[j] ==> x.value >= 0
  }

  /** Every column of `Order` is a pile start, and entries 2i-2 and 2i-1 are the
      columns i*i and i*(i-1) that round i of `best_pile` visits. */
  lemma OrderAt(i: int)
    requires 1 <= i <= 4
    ensures forall k :: 0 <= k < |Order| ==> IsStart(Order[k])
    ensures Order[2 * i - 2] == i * i && Order[2 * i - 1] == i * (i - 1)
  {
    if i == 1 {
    } else if i == 2 {
    } else if i == 3 {
    } else {
    }
  }

  /** The entries a pile scan of `depth` reads, in reading order: the scan reads
      d = min(depth, height) entries, `storage[p][d-1]` first and `storage[p][0]`
      last. When `depth` is below the height these are the BOTTOM d entries. */
  function Scan(y: Yard, p: nat, depth: nat): (s: seq<Container>)
    requires Valid(y) && p < y.width
    ensures |s| == if depth < |y.storage[p]| then depth else |y.storage[p]|
    ensures forall i :: 0 <= i < |s| ==> s[i] == y.storage[p][|s| - 1 - i]
    ensures forall x :: x in s ==> x in y.storage[p]
  {
    var d := if depth < |y.storage[p]| then depth else |y.storage[p]|;
    seq(d, i requires 0 <= i < d => y.storage[p][d - 1 - i])
  }

  /** The number of scanned entries that `containers_from_pile` counts: sellable or
      expired at clock `t`. */
  function Ripe(s: seq<Container>, t: int): (n: nat)
    ensures n <= |s|
  {
    if s == [] then 0
    else Ripe(s[..|s| - 1], t) + (if Sellable(s[|s| - 1], t) || Expired(s[|s| - 1], t) then 1 else 0)
  }

  /** The money `money_from_pile` collects: entry i of the scan is worth its value
      when it is deliverable at clock `t + i`. */
  function Money(s: seq<Container>, t: int): int
  {
    if s == [] then 0
    else Money(s[..|s| - 1], t) + (if DeliverableAt(s[|s| - 1], t + |s| - 1) then s[|s| - 1].value else 0)
  }

  /** Sum of the values of `s`. */
  function Total(s: seq<Container>): int
  {
    if s == [] then 0 else Total(s[..|s| - 1]) + s[|s| - 1].value
  }

  /** With non-negative values the money of a scan lies between 0 and the total value
      of the scanned entries. */
  lemma {:induction false} MoneyBounds(s: seq<Container>, t: int)
    requires forall x :: x in s ==> x.value >= 0
    ensures 0 <= Money(s, t) <= Total(s)
  {
    if s != [] {
      assert forall x :: x in s[..|s| - 1] ==> x in s;
      MoneyBounds(s[..|s| - 1], t);
    }
  }

  /** `pile_score(p, depth)`, scaled by 4: 3 * money + count, and the remaining time
      `depth - height(p)`, which is negative when the pile is taller than `depth`. */
  function PileScore(y: Yard, t: int, p: nat, depth: nat): (r: PileChoice)
    requires Valid(y) && p < y.width
    ensures r.pos == p && r.rem == depth - |y.storage[p]|
    ensures r.score == 3 * Money(Scan(y, p, depth), t) + Ripe(Scan(y, p, depth), t)
    ensures |y.storage[p]| == 0 ==> r.score == 0
    ensures (forall x :: x in y.storage[p] ==> x.value >= 0) ==> r.score >= 0
  {
    var s := Scan(y, p, depth);
    ScanMoneyNonNegative(s, t, y.storage[p]);
    PileChoice(p, 3 * Money(s, t) + Ripe(s, t), depth - |y.storage[p]|)
  }

  lemma ScanMoneyNonNegative(s: seq<Container>, t: int, col: seq<Container>)
    requires forall x :: x in s ==> x in col
    ensures (forall x :: x in col ==> x.value >= 0) ==> Money(s, t) >= 0
  {
    if forall x :: x in col ==> x.value >= 0 {
      MoneyBounds(s, t);
    }
  }

  /** The source compares `(3 * money + count) / 4` with the threshold 0.3 and with
      other scores; on the scaled integer score these comparisons are exact. */
  lemma ScaledScoreIsExact(a: int, b: int)
    ensures (a as real) / 4.0 <= 0.3 <==> a <= 1
    ensures (a as real) / 4.0 < (b as real) / 4.0 <==> a < b
    ensures -1.0 < (b as real) / 4.0 <==> -4 < b
  {
  }

  /** `better_pile(pos, best, depth)`: the candidate at `pos` replaces `best` when it
      scores strictly higher, or when `best`'s column is empty. */
  function BetterPile(y: Yard, t: int, pos: nat, best: PileChoice, depth: nat): (r: PileChoice)
    requires Valid(y) && pos < y.width && best.pos < y.width
    ensures r == best || r == PileScore(y, t, pos, depth)
    ensures EmptyAt(y, best.pos) ==> r == PileScore(y, t, pos, depth)
    ensures !EmptyAt(y, best.pos) ==>
              r.score >= best.score && r.score >= PileScore(y, t, pos, depth).score &&
              (PileScore(y, t, pos, depth).score <= best.score ==> r == best)
  {
    var pile := PileScore(y, t, pos, depth);
    if best.score < pile.score || EmptyAt(y, best.pos) then pile else best
  }

  /** `best` is a real candidate scoring at least as high as every pile in `seen`. */
  ghost predicate Leads(y: Yard, t: int, best: PileChoice, depth: nat, seen: seq<nat>)
  {
    Valid(y) && best != Unscored &&
    forall k :: 0 <= k < |seen| ==> seen[k] < y.width && PileScore(y, t, seen[k], depth).score <= best.score
  }

  /** When no stacked container has a negative value, one `better_pile` step keeps
      the candidate at the highest score seen so far: an empty column scores 0 and
      every score is at least 0, so replacing an empty column's candidate loses
      nothing. */
  lemma BetterPileLeads(y: Yard, t: int, pos: nat, best: PileChoice, depth: nat, seen: seq<nat>)
    requires Valid(y) && pos < y.width && best.pos < y.width && NonNegative(y)
    requires best == Unscored || best == PileScore(y, t, best.pos, depth)
    requires if seen == [] then best == Unscored else Leads(y, t, best, depth, seen)
    ensures Leads(y, t, BetterPile(y, t, pos, best, depth), depth, seen + [pos])
  {
    assert forall x :: x in y.storage[pos] ==> x.value >= 0;
    assert forall x :: x in y.storage[best.pos] ==> x.value >= 0;
    var r := BetterPile(y, t, pos, best, depth);
    forall k | 0 <= k < |seen| + 1
      ensures (seen + [pos])[k] < y.width && PileScore(y, t, (seen + [pos])[k], depth).score <= r.score
    {
      if k < |seen| {
        assert (seen + [pos])[k] == seen[k];
      }
    }
  }

  /** The fold of `better_pile` over the first `n` columns of `Order`, from the
      candidate `Unscored`: what `best_pile` holds after `n` visits. The result is
      the starting candidate or one of those columns with its own score. */
  function BestOf(y: Yard, t: int, n: nat, depth: nat): (r: PileChoice)
    requires Valid(y) && y.width >= 20 && n <= |Order|
    ensures r == Unscored || (r.pos in Order[..n] && r == PileScore(y, t, r.pos, depth))
  {
    if n == 0 then Unscored
    else
      var best := BestOf(y, t, n - 1, depth);
      assert Order[n - 1] < 20 && best.pos < 20 by {
        OrderAt(1);
        assert best.pos in Order[..n - 1] ==> best.pos in Order;
      }
      BetterPile(y, t, Order[n - 1], best, depth)
  }

  /** The two columns round `i` of `best_pile` visits lie inside the first 20. */
  lemma RoundColumns(i: int)
    requires 1 <= i <= 4
    ensures 0 <= i * (i - 1) < i * i < 20
  {
    OrderAt(i);
  }

  /** Round `i` of `best_pile` scores i*i then i*(i-1): the fold goes on by the next
      two entries of `Order`. */
  lemma BestOfRound(y: Yard, t: int, i: int, depth: nat)
    requires Valid(y) && y.width >= 20 && 1 <= i <= 4
    ensures 0 <= i * (i - 1) < i * i < y.width && BestOf(y, t, 2 * i - 2, depth).pos < y.width
    ensures BestOf(y, t, 2 * i, depth) ==
              BetterPile(y, t, i * (i - 1), BetterPile(y, t, i * i, BestOf(y, t, 2 * i - 2, depth), depth), depth)
  {
    OrderAt(i);
  }

  /** When no stacked container has a negative value, the fold over the first `n > 0`
      columns ends at a real candidate scoring at least as high as each of them. */
  lemma {:induction false} BestOfLeads(y: Yard, t: int, n: nat, depth: nat)
    requires Valid(y) && y.width >= 20 && 0 < n <= |Order| && NonNegative(y)
    ensures Leads(y, t, BestOf(y, t, n, depth), depth, Order[..n])
  {
    OrderAt(1);
    assert Order[..n - 1] + [Order[n - 1]] == Order[..n];
    if n > 1 {
      BestOfLeads(y, t, n - 1, depth);
    }
    BetterPileLeads(y, t, Order[n - 1], BestOf(y, t, n - 1, depth), depth, Order[..n - 1]);
  }

  /** A score of `best_pile` above the threshold comes from one of the eight pile
      starts, and that pile is not empty. */
  lemma BestOfDig(y: Yard, t: int, depth: nat)
    requires Valid(y) && y.width >= 20
    ensures var best := BestOf(y, t, |Order|, depth);
      best.score > 1 ==> IsStart(best.pos) && best.pos < y.width && |y.storage[best.pos]| > 0 && best.rem < depth
  {
    OrderAt(1);
    assert Order[..|Order|] == Order;
  }

  /** What `best_pile` returns: one of the eight visited piles with its own score,
      or the starting candidate; when no stacked value is negative, a pile scoring
      highest of the eight; and a score above the threshold only for a non-empty pile. */
  lemma BestOfOrder(y: Yard, t: int, depth: nat)
    requires Valid(y) && y.width >= 20
    ensures forall k :: 0 <= k < |Order| ==> Order[k] < y.width
    ensures var best := BestOf(y, t, |Order|, depth);
      (best == Unscored || (best.pos in Order && best == PileScore(y, t, best.pos, depth))) &&
      (NonNegative(y) ==>
         best != Unscored &&
         forall k :: 0 <= k < |Order| ==> PileScore(y, t, Order[k], depth).score <= best.score) &&
      (best.score > 1 ==> |y.storage[best.pos]| > 0 && best.rem < depth)
  {
    OrderAt(1);
    assert Order[..|Order|] == Order;
    if NonNegative(y) {
      BestOfLeads(y, t, |Order|, depth);
    }
  }

  /** `least_full_pile`: the lower of the two piles for `size`, pile 1 on a tie. */
  function LeastFullPile(y: Yard, size: int): (p: nat)
    requires Valid(y) && y.width >= 20 && 1 <= size <= 4
    ensures IsPile(p, size)
    ensures p == StackPosition(1, size) || p == StackPosition(2, size)
    ensures |y.storage[p]| <= |y.storage[StackPosition(1, size)]|
    ensures |y.storage[p]| <= |y.storage[StackPosition(2, size)]|
    ensures p == StackPosition(2, size) <==>
              |y.storage[StackPosition(1, size)]| > |y.storage[StackPosition(2, size)]|
  {
    StackPositionsArePiles(size);
    if |y.storage[StackPosition(1, size)]| > |y.storage[StackPosition(2, size)]| then StackPosition(2, size)
    else StackPosition(1, size)
  }

  /** `adjacent_stack(c)`: the pile of `c`'s size that `c` is not on. */
  function AdjacentStack(y: Yard, c: Container): (p: nat)
    requires c.id in y.index && 1 <= c.size <= 4
    ensures IsPile(p, c.size)
    ensures IsPile(y.index[c.id].column, c.size) ==> p != y.index[c.id].column
  {
    StackPositionsArePiles(c.size);
    if y.index[c.id].column == StackPosition(2, c.size) then StackPosition(1, c.size)
    else StackPosition(2, c.size)
  }

  /** Height difference of the two piles for `size` (pile 2 minus pile 1). */
  function Imbalance(y: Yard, size: int): int
    requires Valid(y) && y.width >= 20 && 1 <= size <= 4
  {
    StackPositionsArePiles(size);
    |y.storage[StackPosition(2, size)]| - |y.storage[StackPosition(1, size)]|
  }

  function Abs(x: int): nat
  {
    if x < 0 then -x else x
  }

  /** The valid (sellable) entries of `s`, in order. */
  function Selling(s: seq<Container>, t: int): seq<Container>
  {
    if s == [] then []
    else Selling(s[..|s| - 1], t) + (if Sellable(s[|s| - 1], t) then [s[|s| - 1]] else [])
  }

  /** The other entries of `s`, in order. */
  function Keeping(s: seq<Container>, t: int): seq<Container>
  {
    if s == [] then []
    else Keeping(s[..|s| - 1], t) + (if Sellable(s[|s| - 1], t) then [] else [s[|s| - 1]])
  }

  /** The first part holds exactly the valid entries, the second exactly the others. */
  lemma {:induction false} PartitionMembers(s: seq<Container>, t: int)
    ensures forall x :: x in Selling(s, t) <==> x in s && Sellable(x, t)
    ensures forall x :: x in Keeping(s, t) <==> x in s && !Sellable(x, t)
  {
    if s != [] {
      var a, x := s[..|s| - 1], s[|s| - 1];
      PartitionMembers(a, t);
      assert s == a + [x];
    }
  }

  /** The valid-first partition of `sort_by_cost` is a permutation of its input. */
  lemma {:induction false} PartitionIsPermutation(s: seq<Container>, t: int)
    ensures multiset(Selling(s, t) + Keeping(s, t)) == multiset(s)
  {
    if s != [] {
      PartitionIsPermutation(s[..|s| - 1], t);
      PartitionLast(s, t);
    }
  }

  /** The partition of `s` holds that of `s` without its last entry, and that entry. */
  lemma PartitionLast(s: seq<Container>, t: int)
    requires s != []
    ensures multiset(Selling(s, t) + Keeping(s, t)) ==
              multiset(Selling(s[..|s| - 1], t) + Keeping(s[..|s| - 1], t)) + multiset{s[|s| - 1]}
    ensures multiset(s) == multiset(s[..|s| - 1]) + multiset{s[|s| - 1]}
  {
    assert s == s[..|s| - 1] + [s[|s| - 1]];
    var sa, ka := Selling(s[..|s| - 1], t), Keeping(s[..|s| - 1], t);
    assert multiset(Selling(s, t) + Keeping(s, t)) == multiset(sa) + multiset(ka) + multiset([s[|s| - 1]]);
  }

  lemma SellingAppend(a: seq<Container>, x: Container, t: int)
    ensures Selling(a + [x], t) == Selling(a, t) + (if Sellable(x, t) then [x] else [])
    ensures Keeping(a + [x], t) == Keeping(a, t) + (if Sellable(x, t) then [] else [x])
  {
    assert (a + [x])[..|a|] == a;
  }

  /** The partition of a prefix one entry longer. */
  lemma PartitionStep(s: seq<Container>, k: nat, t: int)
    requires k < |s|
    ensures Sellable(s[k], t) ==>
              Selling(s[..k + 1], t) == Selling(s[..k], t) + [s[k]] && Keeping(s[..k + 1], t) == Keeping(s[..k], t)
    ensures !Sellable(s[k], t) ==>
              Selling(s[..k + 1], t) == Selling(s[..k], t) && Keeping(s[..k + 1], t) == Keeping(s[..k], t) + [s[k]]
  {
    assert s[..k + 1] == s[..k] + [s[k]];
    SellingAppend(s[..k], s[k], t);
    assert Selling(s[..k], t) + [] == Selling(s[..k], t);
    assert Keeping(s[..k], t) + [] == Keeping(s[..k], t);
  }

  lemma ValidTotalAppend(a: seq<Container>, x: Container, t: int)
    ensures Total(Selling(a + [x], t)) == Total(Selling(a, t)) + (if Sellable(x, t) then x.value else 0)
  {
    SellingAppend(a, x, t);
    if Sellable(x, t) {
      TotalAppend(Selling(a, t), x);
    } else {
      assert Selling(a + [x], t) == Selling(a, t);
    }
  }

  /** The same, for the prefixes of a sequence. */
  lemma ValidTotalStep(s: seq<Container>, k: nat, t: int)
    requires k < |s|
    ensures Total(Selling(s[..k + 1], t)) == Total(Selling(s[..k], t)) + (if Sellable(s[k], t) then s[k].value else 0)
  {
    assert s[..k + 1] == s[..k] + [s[k]];
    ValidTotalAppend(s[..k], s[k], t);
  }

  lemma TotalAppend(a: seq<Container>, x: Container)
    ensures Total(a + [x]) == Total(a) + x.value
  {
    assert (a + [x])[..|a|] == a;
  }

  /** Partitioning into valid and other entries splits the total value. */
  lemma {:induction false} PartitionSplitsTotal(s: seq<Container>, t: int)
    ensures Total(Selling(s, t)) + Total(Keeping(s, t)) == Total(s)
  {
    if s != [] {
      var s' := s[..|s| - 1];
      var x := s[|s| - 1];
      PartitionSplitsTotal(s', t);
      assert Total(s) == Total(s') + x.value;
      if Sellable(x, t) {
        assert Selling(s, t) == Selling(s', t) + [x] && Keeping(s, t) == Keeping(s', t);
        TotalAppend(Selling(s', t), x);
      } else {
        assert Keeping(s, t) == Keeping(s', t) + [x] && Selling(s, t) == Selling(s', t);
        TotalAppend(Keeping(s', t), x);
      }
    }
  }

  /** Where the entries of `Selling(s, t)` (when `valid`) or `Keeping(s, t)` come
      from in `s`: strictly increasing positions, so each group keeps the input
      order. */
  function Positions(s: seq<Container>, t: int, valid: bool): (idx: seq<nat>)
    ensures |idx| == |if valid then Selling(s, t) else Keeping(s, t)|
    ensures forall i :: 0 <= i < |idx| ==>
              idx[i] < |s| && (if valid then Selling(s, t) else Keeping(s, t))[i] == s[idx[i]]
    ensures forall i, j :: 0 <= i < j < |idx| ==> idx[i] < idx[j]
  {
    if s == [] then []
    else
      var rest := Positions(s[..|s| - 1], t, valid);
      if Sellable(s[|s| - 1], t) == valid then rest + [|s| - 1] else rest
  }

  /** A sequence in which nothing occurs twice has no repeated entries. */
  lemma NoRepeats(s: seq<Container>, i: nat, j: nat)
    requires forall x :: multiset(s)[x] <= 1
    requires i < j < |s|
    ensures s[i] != s[j]
  {
    assert s == s[..j] + s[j..];
    assert s[i] in s[..j] && s[j] in s[j..];
    assert multiset(s)[s[j]] == multiset(s[..j])[s[j]] + multiset(s[j..])[s[j]];
  }

  /** Entry `j` of `rs` is still stored, indexed and removable in `y`. */
  predicate Pending(y: Yard, rs: seq<Container>, j: nat)
    requires Valid(y) && j < |rs|
  {
    rs[j] in y.items && rs[j].id in y.index && CanRemove(y, rs[j])
  }

  /** The state of `treat_removables` after the first `i` entries of `rs`: the
      others are still stored and removable, every container gone since `y0` is
      among the first `i`, and each of those whose delivery window had opened by
      `t0` is gone. */
  ghost predicate Walked(y0: Yard, y: Yard, rs: seq<Container>, i: nat, t0: int)
  {
    Valid(y) && i <= |rs| &&
    (forall id :: id in y.index ==> id in y0.index) &&
    multiset(y.items) <= multiset(y0.items) &&
    (forall j :: i <= j < |rs| ==> Pending(y, rs, j)) &&
    (forall x :: x in y0.items && x !in y.items ==> x in rs[..i]) &&
    (forall x :: x in rs[..i] && x.delivery.start <= t0 ==> x !in y.items)
  }

  /** Every container gone since `y0` had expired by `t`, or its delivery window had
      opened by `t`: the walk leaves the other containers where they are. */
  ghost predicate LeftOpened(y0: Yard, y: Yard, t: int)
  {
    forall x :: x in y0.items && x !in y.items ==> Expired(x, t) || x.delivery.start <= t
  }

  /** Treating one entry at clock `t` keeps `LeftOpened` at any later clock: the entry
      leaves only when it is expired or valid, and nothing else leaves. */
  lemma TreatedLeftOpened(y0: Yard, y: Yard, x: Container, t: int, t2: int)
    requires Valid(y) && RemoveSafe(y, x) && LeftOpened(y0, y, t) && t <= t2
    ensures LeftOpened(y0, Treated(y, x, t), t2)
  {
    var r := Treated(y, x, t);
    forall z | z in y0.items && z !in r.items
      ensures Expired(z, t2) || z.delivery.start <= t2
    {
      if z in y.items {
        assert r != y;
        assert multiset(r.items) == multiset(y.items) - multiset{x};
        assert multiset(r.items)[z] == 0 < multiset(y.items)[z];
        assert multiset{x}[z] > 0;
      }
    }
  }

  /** No container occurs twice in `rs`. */
  ghost predicate Distinct(rs: seq<Container>)
  {
    forall x :: multiset(rs)[x] <= 1
  }

  /** Before the walk: the sorted removables are stored, removable and distinct. */
  lemma WalkStart(y0: Yard, rs: seq<Container>, t0: int)
    requires Banded(y0) && Indexed(y0) && multiset(rs) == multiset(Removables(y0))
    ensures Walked(y0, y0, rs, 0, t0)
    ensures Distinct(rs)
  {
    FilterRemovableMembers(y0, y0.items);
    forall x
      ensures multiset(rs)[x] <= 1
    {
      assert multiset(y0.items)[x] <= 1;
    }
    forall j | 0 <= j < |rs|
      ensures Pending(y0, rs, j)
    {
      assert rs[j] in multiset(Removables(y0));
    }
  }

  /** The order `treat_removables` walks the containers of `y` in at clock `t`:
      `sort_by_cost` of `removable_containers()`, a permutation of the removables. */
  ghost function WalkOrder(y: Yard, t: int): (r: seq<Container>)
    requires Valid(y) && Indexed(y)
    ensures multiset(r) == multiset(Removables(y))
  {
    PartitionIsPermutation(Removables(y), t);
    Selling(Removables(y), t) + Keeping(Removables(y), t)
  }

  /** The store after the intake step of `exec(c)` at clock `t`: `c` added at `p`
      when its delivery window is still open, otherwise `y` as it is. */
  ghost function TakenIn(y: Yard, t: int, c: Container, p: nat): (r: Yard)
    requires Valid(y) && Indexed(y)
    requires t < c.delivery.end ==> CheckAdd(y.storage, p, c.size) == Flat
    ensures Valid(r) && Indexed(r) && r.width == y.width
    ensures t < c.delivery.end ==> r.items == y.items + [c] && c.id in r.index
    ensures t >= c.delivery.end ==> r == y
  {
    if t < c.delivery.end then Added(y, c, p) else y
  }

  /** The first index from `k` on whose entry is not worth more than `c` (or `|rs|`):
      where the `before_add` loop of `treat_removables`, started at `k`, stops when
      time allows. */
  function PricierFrom(rs: seq<Container>, c: Container, k: nat): (n: nat)
    requires k <= |rs|
    ensures k <= n <= |rs|
    decreases |rs| - k
  {
    if k == |rs| || rs[k].value <= c.value then k else PricierFrom(rs, c, k + 1)
  }

  /** The entry at the stopping index, if any, is worth at most `c`. */
  lemma {:induction false} PricierFromStops(rs: seq<Container>, c: Container, k: nat)
    requires k <= |rs|
    ensures PricierFrom(rs, c, k) < |rs| ==> rs[PricierFrom(rs, c, k)].value <= c.value
    decreases |rs| - k
  {
    if k < |rs| && rs[k].value > c.value {
      PricierFromStops(rs, c, k + 1);
    }
  }

  /** Every entry from `k` up to the stopping index is worth more than `c`. */
  lemma {:induction false} PricierFromIsPricier(rs: seq<Container>, c: Container, k: nat, j: nat)
    requires k <= j && k <= |rs| && j < PricierFrom(rs, c, k)
    ensures c.value < rs[j].value
    decreases |rs| - k
  {
    if j > k {
      PricierFromIsPricier(rs, c, k + 1, j);
    }
  }

  /** The store after `treat_removables` looks at entry `x` at clock `t`: lost when
      expired, sold when valid, left alone otherwise. */
  function Treated(y: Yard, x: Container, t: int): (r: Yard)
    requires Valid(y) && RemoveSafe(y, x)
    ensures Valid(r)
    ensures Expired(x, t) ==> r == Removed(y, x)
    ensures Sellable(x, t) ==> r == Credited(Removed(y, x), x.value)
    ensures !Expired(x, t) && !Sellable(x, t) ==> r == y
  {
    if Expired(x, t) then Removed(y, x)
    else if Sellable(x, t) then Credited(Removed(y, x), x.value)
    else y
  }

  /** One entry of the walk: it leaves the store when it is lost or sold, and is
      skipped only when its delivery window has not opened yet. */
  lemma WalkStep(y0: Yard, y: Yard, rs: seq<Container>, i: nat, t0: int, t: int)
    requires Banded(y) && Walked(y0, y, rs, i, t0) && i < |rs| && t0 <= t
    requires Distinct(rs)
    ensures RemoveSafe(y, rs[i])
    ensures Walked(y0, Treated(y, rs[i], t), rs, i + 1, t0)
  {
    assert rs[..i + 1] == rs[..i] + [rs[i]];
    WalkRemove(y0, y, rs, i, t0);
    if Sellable(rs[i], t) {
      WalkedIgnoresCash(y0, Removed(y, rs[i]), rs, i + 1, t0, rs[i].value);
    }
  }

  /** Removing entry `i` leaves the later entries stored and removable. */
  lemma RemoveKeepsRest(y: Yard, rs: seq<Container>, i: nat)
    requires Banded(y) && i < |rs| && Distinct(rs)
    requires forall j :: i <= j < |rs| ==> Pending(y, rs, j)
    ensures RemoveSafe(y, rs[i])
    ensures forall j :: i + 1 <= j < |rs| ==> Pending(Removed(y, rs[i]), rs, j)
  {
    assert Pending(y, rs, i);
    BandedRemoveSafe(y, rs[i]);
    forall j | i + 1 <= j < |rs|
      ensures Pending(Removed(y, rs[i]), rs, j)
    {
      assert Pending(y, rs, j);
      NoRepeats(rs, i, j);
      RemoveKeepsOthersRemovable(y, rs[i], rs[j]);
    }
  }

  /** Removing `x` from a store it occurs in once: what is gone is what was gone
      before, plus `x`. */
  lemma RemoveExtendsGone(y0: Yard, y: Yard, x: Container, done: seq<Container>, t0: int)
    requires Valid(y) && RemoveSafe(y, x) && multiset(y.items)[x] <= 1
    requires forall z :: z in y0.items && z !in y.items ==> z in done
    requires forall z :: z in done && z.delivery.start <= t0 ==> z !in y.items
    ensures forall z :: z in y0.items && z !in Removed(y, x).items ==> z in done + [x]
    ensures forall z :: z in done + [x] && z.delivery.start <= t0 ==> z !in Removed(y, x).items
  {
    var r := Removed(y, x);
    forall z | z in y0.items && z !in r.items
      ensures z in done + [x]
    {
      if z in y.items {
        assert multiset(r.items)[z] == multiset(y.items)[z] - multiset{x}[z];
      }
    }
    forall z | z in done + [x] && z.delivery.start <= t0
      ensures z !in r.items
    {
      if z != x {
        assert z in done;
        assert multiset(r.items)[z] <= multiset(y.items)[z];
      }
    }
  }

  lemma WalkRemove(y0: Yard, y: Yard, rs: seq<Container>, i: nat, t0: int)
    requires Banded(y) && Walked(y0, y, rs, i, t0) && i < |rs|
    requires Distinct(rs)
    ensures RemoveSafe(y, rs[i])
    ensures Walked(y0, Removed(y, rs[i]), rs, i + 1, t0)
  {
    var x := rs[i];
    RemoveKeepsRest(y, rs, i);
    assert rs[..i + 1] == rs[..i] + [x];
    assert multiset(y.items)[x] <= 1;
    RemoveExtendsGone(y0, y, x, rs[..i], t0);
  }

  /** The walk does not depend on the cash counter. */
  lemma WalkedIgnoresCash(y0: Yard, y: Yard, rs: seq<Container>, i: nat, t0: int, amount: int)
    requires Walked(y0, y, rs, i, t0)
    ensures Walked(y0, Credited(y, amount), rs, i, t0)
  {
    var r := Credited(y, amount);
    assert r.storage == y.storage && r.index == y.index && r.items == y.items;
    forall j | i <= j < |rs|
      ensures Pending(r, rs, j)
    {
      assert Pending(y, rs, j);
    }
  }

  /** The stopping index of the whole list: every entry before it is worth more
      than `c`, and the entry at it, if any, is not. */
  lemma PricierFromBound(rs: seq<Container>, c: Container, n: nat)
    requires n == PricierFrom(rs, c, 0)
    ensures n <= |rs| && (n < |rs| ==> rs[n].value <= c.value)
    ensures forall j :: 0 <= j < n ==> c.value < rs[j].value
  {
    PricierFromStops(rs, c, 0);
    forall j | 0 <= j < n
      ensures c.value < rs[j].value
    {
      PricierFromIsPricier(rs, c, 0, j);
    }
  }

  /** After the walk: what left the store was a removable container (worth more than
      `c` when `beforeAdd`), and a walk that reached the end removed every removable
      container whose delivery window had opened by `t0`. */
  lemma WalkEnd(y0: Yard, y: Yard, rs: seq<Container>, i: nat, t0: int, c: Container, beforeAdd: bool)
    requires Valid(y0) && Indexed(y0) && multiset(rs) == multiset(Removables(y0))
    requires Walked(y0, y, rs, i, t0)
    requires beforeAdd ==> i <= PricierFrom(rs, c, 0)
    ensures forall x :: x in y0.items && x !in y.items ==>
              x in Removables(y0) && (beforeAdd ==> c.value < x.value)
    ensures i == |rs| ==> forall x :: x in Removables(y0) && x.delivery.start <= t0 ==> x !in y.items
    ensures forall j :: 0 <= j < i && rs[j].delivery.start <= t0 ==> rs[j] !in y.items
  {
    forall j | 0 <= j < i && rs[j].delivery.start <= t0
      ensures rs[j] !in y.items
    {
      assert rs[..i][j] == rs[j];
    }
    forall x | x in y0.items && x !in y.items
      ensures x in Removables(y0) && (beforeAdd ==> c.value < x.value)
    {
      assert x in rs[..i];
      var j :| 0 <= j < i && rs[..i][j] == x;
      assert rs[j] == x;
      if beforeAdd {
        PricierFromIsPricier(rs, c, 0, j);
      }
      assert x in multiset(rs);
    }
    if i == |rs| {
      assert rs[..i] == rs;
      forall x | x in Removables(y0) && x.delivery.start <= t0
        ensures x !in y.items
      {
        assert x in multiset(Removables(y0));
        assert x in rs;
      }
    }
  }

  /** The loop of `dig_pile(p, depth)` from `y` at clock `t`: the top of `p` is
      evaluated with the other pile of its size as target, one time unit per round,
      until `depth` rounds are used or `p` is empty. */
  ghost function Dug(y: Yard, t: int, p: nat, depth: int): (r: Yard)
    requires Banded(y) && IsStart(p)
    ensures Banded(r) && r.width == y.width
    decreases |y.storage[p]|
  {
    if depth <= 0 || |y.storage[p]| == 0 then y
    else Dug(Evaluated(y, p, Twin(p), t), t + 1, p, depth - 1)
  }

  /** The dig takes min(depth, height) containers off `p` and leaves the piles of
      every other size as tall as they were. */
  lemma {:induction false} DugHeights(y: Yard, t: int, p: nat, depth: int)
    requires Banded(y) && IsStart(p)
    ensures depth <= 0 ==> |Dug(y, t, p, depth).storage[p]| == |y.storage[p]|
    ensures 0 < depth < |y.storage[p]| ==> |Dug(y, t, p, depth).storage[p]| == |y.storage[p]| - depth
    ensures depth >= |y.storage[p]| ==> |Dug(y, t, p, depth).storage[p]| == 0
    ensures forall j: nat :: IsStart(j) && ClassOf(j) != ClassOf(p) ==>
              |Dug(y, t, p, depth).storage[j]| == |y.storage[j]|
    decreases |y.storage[p]|
  {
    if depth > 0 && |y.storage[p]| > 0 {
      var z := Evaluated(y, p, Twin(p), t);
      DugHeights(z, t + 1, p, depth - 1);
      assert Dug(y, t, p, depth) == Dug(z, t + 1, p, depth - 1);
      HeightsChained(|y.storage[p]|, |z.storage[p]|, |Dug(z, t + 1, p, depth - 1).storage[p]|, depth);
      forall j: nat | IsStart(j) && ClassOf(j) != ClassOf(p)
        ensures |Dug(y, t, p, depth).storage[j]| == |y.storage[j]|
      {
        assert |Dug(z, t + 1, p, depth - 1).storage[j]| == |z.storage[j]|;
      }
    }
  }

  /** The height arithmetic of one dig round. */
  lemma HeightsChained(hy: int, hz: int, hr: int, depth: int)
    requires 0 < depth && 0 < hy && hz == hy - 1
    requires depth - 1 <= 0 ==> hr == hz
    requires 0 < depth - 1 < hz ==> hr == hz - (depth - 1)
    requires depth - 1 >= hz ==> hr == 0
    ensures depth < hy ==> hr == hy - depth
    ensures depth >= hy ==> hr == 0
  {
  }

  /** One round of the dig, taken when rounds remain and `p` is not empty. */
  lemma DugStep(y: Yard, t: int, p: nat, depth: int, goal: Yard, z: Yard)
    requires Banded(y) && IsStart(p) && depth > 0 && |y.storage[p]| > 0
    requires Dug(y, t, p, depth) == goal
    requires z == Evaluated(y, p, Twin(p), t)
    ensures Banded(z) && Dug(z, t + 1, p, depth - 1) == goal
  {
  }

  /** One round of `equilibrate_piles` on a non-empty `big`: its top container is
      moved onto `small`, the other pile of its size. The move goes through. */
  ghost function Shifted(y: Yard, big: nat, small: nat): (r: Yard)
    requires Banded(y) && IsStart(big) && IsStart(small) && big != small && ClassOf(big) == ClassOf(small)
    requires |y.storage[big]| > 0
    ensures Banded(r) && r.width == y.width
  {
    var c := y.storage[big][|y.storage[big]| - 1];
    ShiftHeights(y, big, small);
    BandedMove(y, c, small);
    Added(Removed(y, c), c, small)
  }

  /** `Shifted` is what `move` makes of the top of `big` with `small` as target. */
  lemma ShiftedMoves(y: Yard, big: nat, small: nat)
    requires Banded(y) && IsStart(big) && IsStart(small) && big != small && ClassOf(big) == ClassOf(small)
    requires |y.storage[big]| > 0
    ensures Moved(y, y.storage[big][|y.storage[big]| - 1], small) == Some(Shifted(y, big, small))
  {
    ShiftHeights(y, big, small);
    BandedMove(y, y.storage[big][|y.storage[big]| - 1], small);
  }

  /** The store and the time left where the loop of `equilibrate_piles` stops. */
  datatype Balance = Balance(yard: Yard, left: int)

  /** The loop of `equilibrate_piles(rem, big, small)` from `y`: while time remains
      and `big` is at least as tall as `small`, the top of `big`, when there is one,
      moves onto `small`; every round costs one unit. Gives the store and the time
      left when the loop stops. */
  ghost function Balanced(y: Yard, rem: int, big: nat, small: nat): (r: Balance)
    requires Banded(y) && IsStart(big) && IsStart(small) && big != small && ClassOf(big) == ClassOf(small)
    ensures Banded(r.yard) && r.yard.width == y.width
    decreases rem
  {
    if rem <= 0 || |y.storage[big]| < |y.storage[small]| then Balance(y, rem)
    else if |y.storage[big]| == 0 then Balance(y, 0)
    else Balanced(Shifted(y, big, small), rem - 1, big, small)
  }

  /** The store after one round of that loop: `Shifted` when `big` has a top,
      otherwise unchanged. */
  ghost function ShiftRound(y: Yard, big: nat, small: nat): (r: Yard)
    requires Banded(y) && IsStart(big) && IsStart(small) && big != small && ClassOf(big) == ClassOf(small)
    ensures Banded(r) && r.width == y.width
  {
    if |y.storage[big]| == 0 then y else Shifted(y, big, small)
  }

  /** `equilibrate_piles` as a whole: the loop, then the time left forced to 0 when
      the store has become empty. */
  ghost function Equilibrated(y: Yard, rem: int, big: nat, small: nat): (r: Balance)
    requires Banded(y) && IsStart(big) && IsStart(small) && big != small && ClassOf(big) == ClassOf(small)
    ensures Banded(r.yard) && r.yard.width == y.width
    ensures r.yard.items == [] ==> r.left == 0
  {
    var b := Balanced(y, rem, big, small);
    Balance(b.yard, if b.yard.items == [] then 0 else b.left)
  }

  /** The number of moves `equilibrate_piles` makes with `rem` units on piles of
      heights `hb` (big) and `hs` (small), `hs <= hb`, `0 < hb`: one more than half
      the difference, unless time runs out first. */
  function Shifts(rem: int, hb: int, hs: int): int
  {
    if rem < (hb - hs) / 2 + 1 then rem else (hb - hs) / 2 + 1
  }

  /** Where the loop of `equilibrate_piles(rem, big, small)` can be, on piles that
      started at heights `hb0` (big) and `hs0` (small), with `r` units left and the
      piles now at `hb` and `hs`: the two piles keep their total, `big` only shrinks,
      and when `big` started non-empty and not shorter every round so far moved one
      container, each from a `big` still at least as tall as `small`; otherwise
      nothing moved. */
  predicate Leveling(rem: int, hb0: int, hs0: int, r: int, hb: int, hs: int)
  {
    0 <= r <= rem && 0 <= hb <= hb0 && 0 <= hs0 <= hs && hb + hs == hb0 + hs0 &&
    if 0 < hb0 && hs0 <= hb0 then hb0 - hb == rem - r && (r < rem ==> 2 * (rem - r - 1) <= hb0 - hs0)
    else hb == hb0
  }

  /** A round of that loop keeps `Leveling`: with time left and `big` at least as
      tall as `small`, a non-empty `big` gives one container to `small`, and an empty
      one gives nothing. */
  lemma LevelingStep(rem: int, hb0: int, hs0: int, r: int, hb: int, hs: int, hb': int, hs': int)
    requires Leveling(rem, hb0, hs0, r, hb, hs) && 0 < r && hs <= hb
    requires hb == 0 ==> hb' == hb && hs' == hs
    requires hb != 0 ==> hb' == hb - 1 && hs' == hs + 1
    ensures Leveling(rem, hb0, hs0, r - 1, hb', hs')
  {
  }

  /** Where that loop stops (no time left, or `big` shorter than `small`): the time
      left is at most what was given and below it when a round ran, a difference in
      `big`'s favour ends at most 2 in `small`'s favour, and `Shifts(rem, hb0, hs0)`
      containers moved when `big` started non-empty and not shorter, none
      otherwise. */
  lemma LevelingDone(rem: int, hb0: int, hs0: int, r: int, hb: int, hs: int)
    requires Leveling(rem, hb0, hs0, r, hb, hs) && (r <= 0 || hb < hs)
    ensures 0 <= r <= rem && hb0 - hb <= rem - r
    ensures 0 < rem && hs0 <= hb0 ==> r < rem
    ensures hs0 <= hb0 ==> hs - hb <= 2
    ensures hb0 - hb == if 0 < rem && hs0 <= hb0 && 0 < hb0 then Shifts(rem, hb0, hs0) else 0
  {
  }

  /** The loop of `equilibrate_piles` from `y` with `rem` units ends in `goal`. */
  ghost predicate BalancesTo(y: Yard, rem: int, big: nat, small: nat, goal: Balance)
  {
    Banded(y) && IsStart(big) && IsStart(small) && big != small && ClassOf(big) == ClassOf(small) &&
    Balanced(y, rem, big, small) == goal
  }

  /** One round of `equilibrate_piles`, taken when time remains and `big` is at least
      as tall as `small`: `z` is the store after it. */
  lemma BalancedStep(y: Yard, rem: int, next: int, big: nat, small: nat, goal: Balance, z: Yard)
    requires Banded(y) && IsStart(big) && IsStart(small) && big != small && ClassOf(big) == ClassOf(small)
    requires rem > 0 && next == rem - 1 && |y.storage[big]| >= |y.storage[small]|
    requires BalancesTo(y, rem, big, small, goal)
    requires z == ShiftRound(y, big, small)
    ensures BalancesTo(z, next, big, small, goal)
  {
  }

  /** The loop of `equilibrate_piles` stops where `Balanced` stops. */
  lemma BalancedDone(y: Yard, rem: int, big: nat, small: nat, goal: Balance)
    requires Banded(y) && IsStart(big) && IsStart(small) && big != small && ClassOf(big) == ClassOf(small)
    requires rem <= 0 || |y.storage[big]| < |y.storage[small]|
    requires BalancesTo(y, rem, big, small, goal)
    ensures goal == Balance(y, rem)
  {
  }

  /** Every event of the log carries its own position in the log as its time. */
  predicate Stamped(log: seq<Event>)
  {
    log == [] || (Stamped(log[..|log| - 1]) && log[|log| - 1].time == |log| - 1)
  }

  /** `Stamped` says exactly that entry `i` was logged at time `i`. */
  lemma {:induction false} StampedIsPositions(log: seq<Event>)
    ensures Stamped(log) <==> forall i :: 0 <= i < |log| ==> log[i].time == i
  {
    if log != [] {
      var a := log[..|log| - 1];
      StampedIsPositions(a);
      assert forall i :: 0 <= i < |a| ==> a[i] == log[i];
    }
  }

  /** Appending an event stamped with the log's length. */
  lemma ClockedAppend(log: seq<Event>, e: Event)
    requires Stamped(log) && e.time == |log|
    ensures Stamped(log + [e])
  {
    assert (log + [e])[..|log|] == log;
  }

  /** The clock readings along `exec`: each of the first three stages either keeps
      the clock or ends by the end of the delivery window, the last one ends by the
      later of its start and the end of the arrival window. */
  lemma ClockBound(t0: int, t1: int, t2: int, t3: int, t4: int, dend: int, aend: int)
    requires t0 <= t1 && (t1 > t0 ==> t1 <= dend)
    requires t1 <= t2 && (t2 > t1 ==> t2 <= dend)
    requires t2 <= t3 && (t3 > t2 ==> t3 <= dend)
    requires t3 <= t4 <= Latest(t3, aend)
    ensures t4 <= Latest(t0, Latest(dend, aend))
  {
  }

  /** The expert strategy: the store, the clock `_time`, the log the strategy writes
      (as a ghost sequence of events) and the container definitions the log will be
      replayed against. */
  class Strategy {
    const store: Store
    var time: int
    ghost var log: seq<Event>
    ghost const defs: map<int, Container>

    /** The store keeps the band layout, every stored container is the definition the
        replay will find for it, replaying the log on a fresh store gives exactly the
        current store, and the clock counts the logged actions, each stamped with the
        clock at the time. */
    ghost predicate Inv()
      reads this, store
    {
      store.Valid() && Consistent(defs, store.width, store.Model(), log) &&
      time == |log| && Stamped(log)
    }

    /** Each action is logged at the current clock, which then advances by one. */
    ghost predicate Ticked(log0: seq<Event>, time0: int, e: Event)
      reads this
    {
      e.time == time0 && log == log0 + [e] && time == time0 + 1
    }

    /** `__init__`: an empty store of `width` columns, clock 0, empty log. */
    constructor (width: nat, defs: map<int, Container>)
      requires width >= 20
      ensures Inv() && fresh(store) && store.Model() == Initial(width)
      ensures time == 0 && log == [] && this.defs == defs
    {
      store := new Store(width);
      time := 0;
      log := [];
      this.defs := defs;
      InitialConsistent(defs, width);
    }

    /** `add_container`: its assertion `can_add` holds; the target is one of the
        container's own piles and the container is new to the store. */
    method AddContainer(c: Container, p: nat)
      requires Inv() && Known(defs, c) && c.id !in store.index && IsPile(p, c.size)
      requires CheckAdd(store.storage, p, c.size) == Flat
      modifies this, store
      ensures Inv()
      ensures store.Model() == Added(old(store.Model()), c, p)
      ensures Ticked(old(log), old(time), Event(old(time), Add(c.id, p)))
    {
      AddLogged(defs, store.width, store.Model(), log, c, p, time);
      store.Add(c, p);
      ClockedAppend(log, Event(time, Add(c.id, p)));
      log := log + [Event(time, Add(c.id, p))];
      time := time + 1;
    }

    /** `lose_container`: remove without cash, for a container outside its delivery
        window (the source calls it on expired containers only). */
    method LoseContainer(c: Container)
      requires Inv() && c in store.items && c.id in store.index && CanRemove(store.Model(), c)
      requires !Sellable(c, time)
      modifies this, store
      ensures Inv()
      ensures RemoveSafe(old(store.Model()), c) && store.Model() == Removed(old(store.Model()), c)
      ensures Ticked(old(log), old(time), Event(old(time), Remove(c.id)))
    {
      RemoveLogged(defs, store.width, store.Model(), log, c, time);
      store.Remove(c);
      ClockedAppend(log, Event(time, Remove(c.id)));
      log := log + [Event(time, Remove(c.id))];
      time := time + 1;
    }

    /** `sell_container`: credit the value, then remove, for a valid container. The
        result is the same store as removing first and crediting after. */
    method SellContainer(c: Container)
      requires Inv() && c in store.items && c.id in store.index && CanRemove(store.Model(), c)
      requires Sellable(c, time)
      modifies this, store
      ensures Inv()
      ensures RemoveSafe(old(store.Model()), c) &&
              store.Model() == Credited(Removed(old(store.Model()), c), c.value)
      ensures Ticked(old(log), old(time), Event(old(time), Remove(c.id)))
    {
      RemoveLogged(defs, store.width, store.Model(), log, c, time);
      CreditCommutesWithRemove(store.Model(), c, c.value);
      store.AddCash(c.value);
      store.Remove(c);
      ClockedAppend(log, Event(time, Remove(c.id)));
      log := log + [Event(time, Remove(c.id))];
      time := time + 1;
    }

    /** `move_container`: its assertion `can_move` holds, and the target is a pile of
        the container's size. */
    method MoveContainer(c: Container, p: nat)
      requires Inv() && c in store.items && c.id in store.index && IsPile(p, c.size)
      requires CanMove(store.Model(), c, p)
      modifies this, store
      ensures Inv()
      ensures Moved(old(store.Model()), c, p) == Some(store.Model())
      ensures Ticked(old(log), old(time), Event(old(time), Move(c.id, p)))
    {
      ghost var y := store.Model();
      MoveLogged(defs, store.width, y, log, c, p, time);
      ghost var z := Added(Removed(y, c), c, p);
      var ok := store.Move(c, p);
      assert ok && store.Model() == z;
      ClockedAppend(log, Event(time, Move(c.id, p)));
      log := log + [Event(time, Move(c.id, p))];
      time := time + 1;
    }

    /** `evaluate_container(c, p2)`: when `c` can be added at `p2` and removed, do
        exactly one of lose (expired), sell (valid) or move to `p2`; otherwise do
        nothing. An expired container is never sold. */
    method EvaluateContainer(c: Container, p2: nat)
      requires Inv() && c in store.items && c.id in store.index && IsPile(p2, c.size)
      modifies this, store
      ensures Inv()
      ensures var y := old(store.Model()); var t := old(time);
        if CheckAdd(y.storage, p2, c.size) == Flat && CanRemove(y, c) then
          if Expired(c, t) then
            RemoveSafe(y, c) && store.Model() == Removed(y, c) && Ticked(old(log), t, Event(t, Remove(c.id)))
          else if Sellable(c, t) then
            RemoveSafe(y, c) && store.Model() == Credited(Removed(y, c), c.value) &&
            Ticked(old(log), t, Event(t, Remove(c.id)))
          else
            Moved(y, c, p2) == Some(store.Model()) && Ticked(old(log), t, Event(t, Move(c.id, p2)))
        else
          store.Model() == y && time == t && log == old(log)
      ensures Expired(c, old(time)) ==> store.cash == old(store.cash)
    {
      var fits := store.CanAdd(c, p2);
      if fits == Flat && Yards.CanRemove(store.Model(), c) {
        if Expired(c, time) {
          LoseContainer(c);
        } else if Sellable(c, time) {
          SellContainer(c);
        } else {
          MoveContainer(c, p2);
        }
      }
    }

    /** `containers_from_pile(p, depth)`: how many of the scanned entries are ripe
        (valid or expired) at the current clock. */
    method ContainersFromPile(p: nat, depth: int) returns (n: int)
      requires store.Valid() && p < store.width && depth >= 0
      ensures n == Ripe(Scan(store.Model(), p, depth), time)
      ensures 0 <= n <= depth && n <= |store.storage[p]|
    {
      ghost var s := Scan(store.Model(), p, depth);
      var d := depth;
      if depth - |store.storage[p]| > 0 {
        d := |store.storage[p]|;
      }
      n := 0;
      var i := 0;
      while i < d
        invariant 0 <= i <= d && d == |s|
        invariant n == Ripe(s[..i], time)
      {
        var c := store.storage[p][d - i - 1];
        assert s[..i + 1][..i] == s[..i] && s[i] == c;
        if Sellable(c, time) || Expired(c, time) {
          n := n + 1;
        }
        i := i + 1;
      }
      assert s[..d] == s;
    }

    /** `money_from_pile(p, depth)`: the money of the scan, entry i counted when it is
        deliverable i steps from now, and the unclipped remaining time
        `depth - height(p)`. */
    method MoneyFromPile(p: nat, depth: int) returns (money: int, rem: int)
      requires store.Valid() && p < store.width && depth >= 0
      ensures money == Money(Scan(store.Model(), p, depth), time)
      ensures rem == depth - |store.storage[p]|
      ensures rem < 0 <==> depth < |store.storage[p]|
    {
      ghost var s := Scan(store.Model(), p, depth);
      rem := depth - |store.storage[p]|;
      var d := depth;
      if rem > 0 {
        d := |store.storage[p]|;
      }
      money := 0;
      var i := 0;
      while i < d
        invariant 0 <= i <= d && d == |s|
        invariant money == Money(s[..i], time)
      {
        var c := store.storage[p][d - i - 1];
        assert s[..i + 1][..i] == s[..i] && s[i] == c;
        if DeliverableAt(c, time + i) {
          money := money + c.value;
        }
        i := i + 1;
      }
      assert s[..d] == s;
    }

    /** `pile_score(p, depth)`, scaled by 4. */
    method ScorePile(p: nat, depth: int) returns (r: PileChoice)
      requires store.Valid() && p < store.width && depth >= 0
      ensures r == PileScore(store.Model(), time, p, depth)
    {
      var money, rem := MoneyFromPile(p, depth);
      var count := ContainersFromPile(p, depth);
      r := PileChoice(p, 3 * money + count, rem);
    }

    /** `better_pile(pos, best, depth)`. */
    method BetterPileAt(pos: nat, best: PileChoice, depth: int) returns (r: PileChoice)
      requires store.Valid() && pos < store.width && best.pos < store.width && depth >= 0
      ensures r == BetterPile(store.Model(), time, pos, best, depth)
    {
      var pile := ScorePile(pos, depth);
      if best.score < pile.score || |store.storage[best.pos]| == 0 {
        r := pile;
      } else {
        r := best;
      }
    }

    /** `best_pile(depth)`: the candidate kept after `better_pile` visits 1, 0, 4, 2,
        9, 6, 16, 12 in turn, that is the fold `BestOf` over `Order`, whose
        properties `BestOfOrder` states. */
    method BestPile(depth: int) returns (best: PileChoice)
      requires store.Valid() && store.width >= 20 && depth >= 0
      ensures best == BestOf(store.Model(), time, |Order|, depth)
    {
      best := Unscored;
      ghost var n: nat := 0;
      for i := 1 to 5
        invariant n == 2 * i - 2 && best.pos < store.width
        invariant best == BestOf(store.Model(), time, n, depth)
      {
        best := VisitRound(i, best, depth, n);
        n := n + 2;
      }
    }

    /** The body of the `best_pile` loop for round `i`: `better_pile` at i*i, then
        at i*(i-1), which extends the fold by round `i` (`BestOfRound`). */
    method VisitRound(i: int, best: PileChoice, depth: int, ghost n: nat) returns (r: PileChoice)
      requires store.Valid() && store.width >= 20 && 1 <= i <= 4 && best.pos < store.width && depth >= 0
      requires n == 2 * i - 2 && best == BestOf(store.Model(), time, n, depth)
      ensures r.pos < store.width && r == BestOf(store.Model(), time, n + 2, depth)
    {
      RoundColumns(i);
      r := BetterPileAt(i * i, best, depth);
      r := BetterPileAt(i * (i - 1), r, depth);
      BestOfRound(store.Model(), time, i, depth);
    }

    /** `least_equilibrated_pile()`: the two piles of the first size whose height
        difference is the largest, the taller one first; on equal heights pile 1
        comes first. */
    method LeastEquilibratedPile() returns (big: nat, small: nat)
      requires store.Valid() && store.width >= 20
      ensures IsStart(big) && IsStart(small) && big != small && ClassOf(big) == ClassOf(small)
      ensures (big == StackPosition(1, ClassOf(big)) && small == StackPosition(2, ClassOf(big))) ||
              (big == StackPosition(2, ClassOf(big)) && small == StackPosition(1, ClassOf(big)))
      ensures big == StackPosition(2, ClassOf(big)) <==> Imbalance(store.Model(), ClassOf(big)) > 0
      ensures |store.storage[small]| <= |store.storage[big]|
      ensures forall k :: 1 <= k <= 4 ==>
                Abs(Imbalance(store.Model(), k)) <= |store.storage[big]| - |store.storage[small]|
      ensures forall k :: 1 <= k < ClassOf(big) ==>
                Abs(Imbalance(store.Model(), k)) < |store.storage[big]| - |store.storage[small]|
    {
      ghost var y := store.Model();
      var maxGap := -1;
      big, small := 0, 0;
      for i := 1 to 5
        invariant i == 1 <==> maxGap == -1
        invariant i > 1 ==>
          IsStart(big) && IsStart(small) && big != small && ClassOf(big) == ClassOf(small) && ClassOf(big) < i &&
          ((big == StackPosition(1, ClassOf(big)) && small == StackPosition(2, ClassOf(big))) ||
           (big == StackPosition(2, ClassOf(big)) && small == StackPosition(1, ClassOf(big)))) &&
          (big == StackPosition(2, ClassOf(big)) <==> Imbalance(y, ClassOf(big)) > 0) &&
          maxGap == |y.storage[big]| - |y.storage[small]| >= 0 &&
          (forall k :: 1 <= k < i ==> Abs(Imbalance(y, k)) <= maxGap) &&
          (forall k :: 1 <= k < ClassOf(big) ==> Abs(Imbalance(y, k)) < maxGap)
      {
        StackPositionsArePiles(i);
        var p1 := StackPosition(1, i);
        var p2 := StackPosition(2, i);
        var diff := |store.storage[p2]| - |store.storage[p1]|;
        assert diff == Imbalance(y, i);
        if maxGap < Abs(diff) {
          if diff > 0 {
            big, small := p2, p1;
          } else {
            big, small := p1, p2;
          }
          maxGap := Abs(diff);
        }
      }
    }

    /** `money_from_removables()`: the total value of the removable containers that
        are valid now. */
    method MoneyFromRemovables() returns (money: int)
      requires store.Valid() && Indexed(store.Model())
      ensures money == Total(Selling(Removables(store.Model()), time))
    {
      var rs := store.RemovableContainers();
      money := SumValid(rs);
    }

    /** The loop of `money_from_removables` over the list it is given. */
    method SumValid(rs: seq<Container>) returns (money: int)
      ensures money == Total(Selling(rs, time))
    {
      money := 0;
      var k := 0;
      while k < |rs|
        invariant 0 <= k <= |rs|
        invariant money == Total(Selling(rs[..k], time))
      {
        var x := rs[k];
        ValidTotalStep(rs, k, time);
        if Sellable(x, time) {
          money := money + x.value;
        }
        k := k + 1;
      }
      assert rs[..|rs|] == rs;
    }

    /** `sort_by_cost(s)`: the valid entries, then the others, each group in input
        order. The source's call to `sorted` discards its result, so nothing is
        reordered by value. */
    method SortByCost(s: seq<Container>) returns (r: seq<Container>)
      ensures r == Selling(s, time) + Keeping(s, time)
      ensures multiset(r) == multiset(s)
    {
      var sell: seq<Container> := [];
      var keep: seq<Container> := [];
      var k := 0;
      while k < |s|
        invariant 0 <= k <= |s|
        invariant sell == Selling(s[..k], time) && keep == Keeping(s[..k], time)
      {
        PartitionStep(s, k, time);
        if Sellable(s[k], time) {
          sell := sell + [s[k]];
        } else {
          keep := keep + [s[k]];
        }
        k := k + 1;
      }
      assert s[..|s|] == s;
      PartitionIsPermutation(s, time);
      r := sell + keep;
    }

    /** `treat_removables(c, beforeAdd)`: walks the removable containers in
        `sort_by_cost` order while the clock is before the end of `c`'s delivery window
        (and, when `beforeAdd`, while the entry is worth more than `c`), losing expired
        entries, selling valid ones and skipping the others. Only listed removable
        containers leave the store; without `beforeAdd` and with time to spare, every
        removable container whose delivery window had opened leaves it. */
    method TreatRemovables(c: Container, beforeAdd: bool)
      requires Inv()
      modifies this, store
      ensures Inv() && NoIntake(old(log), log) && old(time) <= time
      ensures time > old(time) ==> time <= c.delivery.end
      ensures old(time) >= c.delivery.end ==> time == old(time) && log == old(log)
      ensures forall id :: id in store.index ==> id in old(store.index)
      ensures multiset(store.items) <= multiset(old(store.items))
      ensures forall x :: x in old(store.items) && x !in store.items ==>
                x in old(Removables(store.Model())) && (beforeAdd ==> c.value < x.value)
      ensures !beforeAdd && time < c.delivery.end ==>
                forall x :: x in old(Removables(store.Model())) && x.delivery.start <= old(time) ==>
                  x !in store.items
      ensures forall x :: x in old(store.items) && x !in store.items ==>
                Expired(x, time) || x.delivery.start <= time
      ensures beforeAdd && time < c.delivery.end ==>
                var rs := WalkOrder(old(store.Model()), old(time));
                forall j :: 0 <= j < PricierFrom(rs, c, 0) && rs[j].delivery.start <= old(time) ==>
                  rs[j] !in store.items
    {
      ghost var y0 := store.Model();
      var listed := store.RemovableContainers();
      var rs := SortByCost(listed);
      assert rs == WalkOrder(y0, old(time));
      WalkStart(y0, rs, time);
      var i;
      if beforeAdd {
        i := TreatPricier(rs, c);
      } else {
        i := TreatAll(rs, c);
      }
      WalkEnd(y0, store.Model(), rs, i, old(time), c, beforeAdd);
    }

    /** The `before_add` loop of `treat_removables` over the sorted list `rs`: it
        stops at the first entry not worth more than `c`, whose index `PricierFrom`
        gives (`PricierFromBound`), or when the delivery window of `c` closes.
        Returns how many entries it went through. */
    method TreatPricier(rs: seq<Container>, c: Container) returns (i: nat)
      requires Inv() && Walked(store.Model(), store.Model(), rs, 0, time)
      requires Distinct(rs)
      modifies this, store
      ensures Inv() && NoIntake(old(log), log) && old(time) <= time
      ensures time > old(time) ==> time <= c.delivery.end
      ensures Walked(old(store.Model()), store.Model(), rs, i, old(time))
      ensures LeftOpened(old(store.Model()), store.Model(), time)
      ensures i <= PricierFrom(rs, c, 0)
      ensures time < c.delivery.end ==> i == PricierFrom(rs, c, 0)
    {
      ghost var y0 := store.Model();
      ghost var t0 := time;
      ghost var log0 := log;
      var n := PricierFrom(rs, c, 0);
      i := 0;
      while i < n && c.delivery.end > time
        invariant 0 <= i <= n
        invariant Inv() && NoIntake(log0, log) && t0 <= time
        invariant time > t0 ==> time <= c.delivery.end
        invariant Walked(y0, store.Model(), rs, i, t0)
        invariant LeftOpened(y0, store.Model(), time)
      {
        TreatNext(rs, i, y0, t0, log0);
        i := i + 1;
      }
    }

    /** The other loop of `treat_removables`: every entry of `rs` while the delivery
        window of `c` is open. Returns how many entries it went through. */
    method TreatAll(rs: seq<Container>, c: Container) returns (i: nat)
      requires Inv() && Walked(store.Model(), store.Model(), rs, 0, time)
      requires Distinct(rs)
      modifies this, store
      ensures Inv() && NoIntake(old(log), log) && old(time) <= time
      ensures time > old(time) ==> time <= c.delivery.end
      ensures Walked(old(store.Model()), store.Model(), rs, i, old(time))
      ensures LeftOpened(old(store.Model()), store.Model(), time)
      ensures i == |rs| || time >= c.delivery.end
    {
      ghost var y0 := store.Model();
      ghost var t0 := time;
      ghost var log0 := log;
      i := 0;
      while i < |rs| && c.delivery.end > time
        invariant 0 <= i <= |rs|
        invariant Inv() && NoIntake(log0, log) && t0 <= time
        invariant time > t0 ==> time <= c.delivery.end
        invariant Walked(y0, store.Model(), rs, i, t0)
        invariant LeftOpened(y0, store.Model(), time)
      {
        TreatNext(rs, i, y0, t0, log0);
        i := i + 1;
      }
    }

    /** The body of the `treat_removables` loop for one removable entry `x`: lose it
        if expired, sell it if valid, otherwise do nothing. */
    method TreatEntry(x: Container)
      requires Inv() && x in store.items && x.id in store.index && CanRemove(store.Model(), x)
      modifies this, store
      ensures Inv() && NoIntake(old(log), log)
      ensures RemoveSafe(old(store.Model()), x) && store.Model() == Treated(old(store.Model()), x, old(time))
      ensures time == old(time) + (if Expired(x, old(time)) || Sellable(x, old(time)) then 1 else 0)
    {
      ghost var log1 := log;
      BandedRemoveSafe(store.Model(), x);
      if Expired(x, time) {
        LoseContainer(x);
        NoIntakeExtend(log1, log1, Event(time - 1, Remove(x.id)));
      } else if Sellable(x, time) {
        SellContainer(x);
        NoIntakeExtend(log1, log1, Event(time - 1, Remove(x.id)));
      }
    }

    /** `TreatEntry` on entry `i` of `rs`: the walk from `y0` that began at clock
        `t0` goes on to entry `i + 1`, and the clock moves by at most one. */
    method TreatNext(rs: seq<Container>, i: nat, ghost y0: Yard, ghost t0: int, ghost log0: seq<Event>)
      requires Inv() && NoIntake(log0, log) && i < |rs| && t0 <= time
      requires Walked(y0, store.Model(), rs, i, t0) && Distinct(rs)
      requires LeftOpened(y0, store.Model(), time)
      modifies this, store
      ensures Inv() && NoIntake(log0, log) && Walked(y0, store.Model(), rs, i + 1, t0)
      ensures LeftOpened(y0, store.Model(), time)
      ensures old(time) <= time <= old(time) + 1
    {
      ghost var log1 := log;
      ghost var y := store.Model();
      WalkStep(y0, y, rs, i, t0, time);
      TreatEntry(rs[i]);
      TreatedLeftOpened(y0, y, rs[i], old(time), time);
      NoIntakeTrans(log0, log1, log);
    }

    /** `dig_pile(p, depth)`: treats the top of pile `p` (lose, sell, or move it to the
        other pile of its size) until `depth` steps are used or the pile is empty.
        The new store is the fold `Dug` of the old one. Under the band layout every
        step acts, so exactly min(depth, height) actions are logged and the pile
        shrinks by as many containers. */
    method DigPile(p: nat, depth: int)
      requires Inv() && IsStart(p) && depth >= 0
      modifies this, store
      ensures Inv() && NoIntake(old(log), log)
      ensures store.Model() == Dug(old(store.Model()), old(time), p, depth)
      ensures var n := if depth < old(|store.storage[p]|) then depth else old(|store.storage[p]|);
                time == old(time) + n && |store.storage[p]| == old(|store.storage[p]|) - n
    {
      ghost var log0 := log;
      ghost var t0 := time;
      ghost var h0 := |store.storage[p]|;
      ghost var goal := Dug(store.Model(), time, p, depth);
      var d := depth;
      while d > 0 && |store.storage[p]| != 0
        invariant Digging(p, d, depth, goal, t0, h0, log0)
        decreases d
      {
        ghost var log1 := log;
        ghost var y := store.Model();
        ghost var t := time;
        DigTop(p);
        NoIntakeTrans(log0, log1, log);
        DugStep(y, t, p, d, goal, store.Model());
        d := d - 1;
      }
    }

    /** The invariant of that loop with `d` rounds left, for a dig that began at
        clock `t0` on a pile of height `h0` and ends in `goal`. */
    ghost predicate Digging(p: nat, d: int, depth: int, goal: Yard, t0: int, h0: int, log0: seq<Event>)
      reads this, store
    {
      Inv() && IsStart(p) && NoIntake(log0, log) && 0 <= d <= depth &&
      time - t0 == depth - d && |store.storage[p]| == h0 - (depth - d) &&
      Dug(store.Model(), time, p, d) == goal
    }

    /** One round of `dig_pile`: the top container of pile `p` is lost when expired,
        sold when valid and otherwise moved to the other pile of its size, which the
        band layout always allows. */
    method DigTop(p: nat)
      requires Inv() && IsStart(p) && |store.storage[p]| > 0
      modifies this, store
      ensures Inv() && NoIntake(old(log), log)
      ensures time == old(time) + 1 && |store.storage[p]| == old(|store.storage[p]|) - 1
      ensures var y := old(store.Model()); var c := y.storage[p][|y.storage[p]| - 1];
        c.id in y.index && 1 <= c.size <= 4 && AdjacentStack(y, c) == Twin(p) &&
        store.Model() == Evaluated(y, p, Twin(p), old(time))
      ensures var y := old(store.Model()); var c := y.storage[p][|y.storage[p]| - 1];
        c.id in y.index && 1 <= c.size <= 4 && RemoveSafe(y, c) &&
        CheckAdd(Removed(y, c).storage, AdjacentStack(y, c), c.size) == Flat &&
        store.Model() == if Expired(c, old(time)) then Removed(y, c)
                         else if Sellable(c, old(time)) then Credited(Removed(y, c), c.value)
                         else Added(Removed(y, c), c, AdjacentStack(y, c))
    {
      ghost var y := store.Model();
      ghost var log1 := log;
      var c := store.storage[p][|store.storage[p]| - 1];
      TopOfPile(y, p);
      StartsAreStackPositions(p);
      var adj := AdjacentStack(store.Model(), c);
      BandedFlat(y, adj, c.size);
      BandedMove(y, c, adj);
      PileSpan(adj, p);
      PileSpan(p, p);
      EvaluateContainer(c, adj);
      NoIntakeExtend(log1, log1, log[|log| - 1]);
    }

    /** One round of `equilibrate_piles`: the top of `big`, if any, moves onto `small`.
        No other pile changes. */
    method ShiftTop(big: nat, small: nat)
      requires Inv() && IsStart(big) && IsStart(small) && big != small && ClassOf(big) == ClassOf(small)
      modifies this, store
      ensures Inv() && NoIntake(old(log), log)
      ensures store.Model() == ShiftRound(old(store.Model()), big, small)
      ensures old(|store.storage[big]|) == 0 ==> time == old(time)
      ensures old(|store.storage[big]|) != 0 ==>
                time == old(time) + 1 &&
                |store.storage[big]| == old(|store.storage[big]|) - 1 &&
                |store.storage[small]| == old(|store.storage[small]|) + 1 &&
                Moved(old(store.Model()), old(store.storage[big][|store.storage[big]| - 1]), small) ==
                  Some(store.Model())
      ensures forall q: nat :: IsStart(q) && q != big && q != small ==>
                |store.storage[q]| == old(|store.storage[q]|)
    {
      if |store.storage[big]| != 0 {
        ghost var log1 := log;
        var c := store.storage[big][|store.storage[big]| - 1];
        ShiftHeights(store.Model(), big, small);
        ShiftedMoves(store.Model(), big, small);
        MoveContainer(c, small);
        NoIntakeExtend(log1, log1, Event(time - 1, Move(c.id, small)));
      }
    }

    /** `equilibrate_piles(rem, big, small)`: while time remains and `big` is at least
        as tall as `small`, moves the top of `big` (when there is one) onto `small`,
        one time unit per round; returns the time left, or 0 once the store is empty.
        The new store and the result are `Equilibrated` of the old store. Only the two
        piles change, their total height is kept, a difference in `big`'s favour ends
        at most 2 in `small`'s favour, and the containers moved, one time unit each,
        number `Shifts(rem, hb, hs)` for heights `hb >= hs` with `hb > 0`, and none
        otherwise. */
    method EquilibratePiles(rem: int, big: nat, small: nat) returns (r: int)
      requires Inv() && rem >= 0
      requires IsStart(big) && IsStart(small) && big != small && ClassOf(big) == ClassOf(small)
      modifies this, store
      ensures Inv() && NoIntake(old(log), log)
      ensures Balance(store.Model(), r) == Equilibrated(old(store.Model()), rem, big, small)
      ensures 0 <= r <= rem && time - old(time) <= rem - r
      ensures rem > 0 && old(|store.storage[small]|) <= old(|store.storage[big]|) ==> r < rem
      ensures store.items == [] ==> r == 0
      ensures r > 0 ==> |store.storage[big]| < |store.storage[small]|
      ensures old(|store.storage[small]|) <= old(|store.storage[big]|) ==>
                |store.storage[small]| - |store.storage[big]| <= 2
      ensures time - old(time) == old(|store.storage[big]|) - |store.storage[big]|
      ensures var hb := old(|store.storage[big]|); var hs := old(|store.storage[small]|);
                time - old(time) == if 0 < rem && hs <= hb && 0 < hb then Shifts(rem, hb, hs) else 0
      ensures |store.storage[big]| + |store.storage[small]| == old(|store.storage[big]| + |store.storage[small]|)
      ensures forall q: nat :: IsStart(q) && q != big && q != small ==>
                |store.storage[q]| == old(|store.storage[q]|)
    {
      ghost var hb0 := |store.storage[big]|;
      ghost var hs0 := |store.storage[small]|;
      r := EquilibrateRounds(rem, big, small);
      LevelingDone(rem, hb0, hs0, r, |store.storage[big]|, |store.storage[small]|);
      if |store.items| == 0 {
        r := 0;
      }
    }

    /** The while loop of `equilibrate_piles`: it ends where `Balanced` ends, each
        container taken off `big` took one time unit, the two piles are where
        `Leveling` says the loop can stop, and no other pile changed. */
    method EquilibrateRounds(rem: int, big: nat, small: nat) returns (r: int)
      requires Inv() && rem >= 0
      requires IsStart(big) && IsStart(small) && big != small && ClassOf(big) == ClassOf(small)
      modifies this, store
      ensures Inv() && NoIntake(old(log), log)
      ensures Balance(store.Model(), r) == Balanced(old(store.Model()), rem, big, small)
      ensures time - old(time) == old(|store.storage[big]|) - |store.storage[big]|
      ensures Leveling(rem, old(|store.storage[big]|), old(|store.storage[small]|), r,
                       |store.storage[big]|, |store.storage[small]|)
      ensures r <= 0 || |store.storage[big]| < |store.storage[small]|
      ensures forall q: nat :: IsStart(q) && q != big && q != small ==>
                |store.storage[q]| == old(|store.storage[q]|)
    {
      ghost var goal := Balanced(store.Model(), rem, big, small);
      ghost var log0 := log;
      ghost var t0 := time;
      ghost var st := store.storage;
      ghost var h0: seq<nat> := seq(|st|, j requires 0 <= j < |st| => |st[j]|);
      r := rem;
      while r > 0 && |store.storage[big]| >= |store.storage[small]|
        invariant Equilibrating(big, small, rem, r, goal, t0, h0, log0)
        decreases r
      {
        r := BalanceRound(big, small, rem, r, goal, t0, h0, log0);
      }
      BalancedDone(store.Model(), r, big, small, goal);
    }

    /** One round of that loop: the round `ShiftTop` takes, and one unit less. */
    method BalanceRound(big: nat, small: nat, ghost rem: int, r: int, ghost goal: Balance, ghost t0: int,
                        ghost h0: seq<nat>, ghost log0: seq<Event>) returns (r': int)
      requires Equilibrating(big, small, rem, r, goal, t0, h0, log0)
      requires r > 0 && |store.storage[big]| >= |store.storage[small]|
      modifies this, store
      ensures r' == r - 1 && Equilibrating(big, small, rem, r', goal, t0, h0, log0)
    {
      r' := r - 1;
      ghost var log1 := log;
      ghost var y := store.Model();
      ShiftTop(big, small);
      NoIntakeTrans(log0, log1, log);
      BalancedStep(y, r, r', big, small, goal, store.Model());
      LevelingStep(rem, h0[big], h0[small], r, |y.storage[big]|, |y.storage[small]|,
                   |store.storage[big]|, |store.storage[small]|);
    }

    /** The invariant of that loop with `r` of `rem` units left, for a loop that began
        at clock `t0` with pile heights `h0` and ends in `goal`. */
    ghost predicate Equilibrating(big: nat, small: nat, rem: int, r: int, goal: Balance, t0: int,
                                  h0: seq<nat>, log0: seq<Event>)
      reads this, store
    {
      Inv() && IsStart(big) && IsStart(small) && big != small && ClassOf(big) == ClassOf(small) &&
      NoIntake(log0, log) && |h0| == |store.storage| && time - t0 == h0[big] - |store.storage[big]| &&
      BalancesTo(store.Model(), r, big, small, goal) &&
      Leveling(rem, h0[big], h0[small], r, |store.storage[big]|, |store.storage[small]|) &&
      forall q: nat :: IsStart(q) && q != big && q != small && q < |h0| ==> |store.storage[q]| == h0[q]
    }

    /** The closing loop of `exec(c)`: while time remains before the end of `c`'s
        arrival window and the store is not empty, dig the best pile when its score
        is above the threshold 0.3, and otherwise equilibrate the least balanced
        pair of piles. Every round uses at least one unit of the remaining time.
        Returns the remaining time it stopped at: used up, or the store empty. */
    method SpendArrival(c: Container) returns (rem: int)
      requires Inv()
      modifies this, store
      ensures Inv() && NoIntake(old(log), log) && old(time) <= time
      ensures time <= Latest(old(time), c.arrival.end)
      ensures rem <= 0 || store.items == []
      ensures rem > 0 ==> time + rem <= c.arrival.end
    {
      ghost var log0 := log;
      ghost var t0 := time;
      rem := c.arrival.end - time;
      while rem > 0 && |store.items| != 0
        invariant Inv() && NoIntake(log0, log) && t0 <= time
        invariant rem > 0 ==> time + rem <= c.arrival.end
        invariant time <= Latest(t0, c.arrival.end)
        decreases rem
      {
        ghost var log1 := log;
        var best := BestPile(rem);
        BestOfDig(store.Model(), time, rem);
        if best.score <= 1 {
          var big, small := LeastEquilibratedPile();
          rem := EquilibratePiles(rem, big, small);
        } else {
          DigPile(best.pos, rem);
          rem := best.rem;
        }
        NoIntakeTrans(log0, log1, log);
      }
    }

    /** The opening of `exec(c)`: treat the removables worth more than `c`, then add
        `c` on its least full pile, which the band layout keeps flat, exactly when the
        clock is still before the end of its delivery window. Returns the log, store
        and clock after the walk, and the pile chosen. */
    method TakeIn(c: Container) returns (ghost log1: seq<Event>, ghost y1: Yard, ghost t1: int, pos: nat)
      requires Inv() && Known(defs, c) && c.id !in store.index && 1 <= c.size <= 4
      modifies this, store
      ensures Inv() && NoIntake(old(log), log1)
      ensures old(time) <= t1 && (t1 > old(time) ==> t1 <= c.delivery.end)
      ensures t1 <= time && (time > t1 ==> time <= c.delivery.end)
      ensures Valid(y1) && Indexed(y1) && y1.width >= 20 && pos == LeastFullPile(y1, c.size) && IsPile(pos, c.size)
      ensures multiset(y1.items) <= multiset(old(store.items))
      ensures forall x :: x in old(store.items) && x !in y1.items ==>
                x in old(Removables(store.Model())) && c.value < x.value
      ensures t1 < c.delivery.end ==>
                var rs := WalkOrder(old(store.Model()), old(time));
                forall j :: 0 <= j < PricierFrom(rs, c, 0) && rs[j].delivery.start <= old(time) ==>
                  rs[j] !in y1.items
      ensures log == if t1 < c.delivery.end then log1 + [Event(t1, Add(c.id, pos))] else log1
      ensures old(log) <= log1 <= log && t1 == |log1| && Replayed(defs, store.width, log1) == Accepted(y1)
      ensures t1 < c.delivery.end ==>
                CheckAdd(y1.storage, pos, c.size) == Flat && store.Model() == Added(y1, c, pos) && time == t1 + 1
      ensures t1 >= c.delivery.end ==> store.Model() == y1 && time == t1
    {
      TreatRemovables(c, true);
      log1, y1, t1 := log, store.Model(), time;
      pos := LeastFullPile(store.Model(), c.size);
      BandedFlat(store.Model(), pos, c.size);
      var fits := store.CanAdd(c, pos);
      if fits == Flat && !Expired(c, time) && c.delivery.end > time {
        AddContainer(c, pos);
      }
    }

    /** `exec(c)`: one step of the expert strategy for the incoming container `c`:
        treat the removables worth more than `c`, take `c` in on its least full pile
        if its delivery window is still open, treat the removables again, then dig
        the best pile or equilibrate the least balanced pair until `c`'s arrival
        window runs out or the store is empty. At most one container is taken in, and
        it is `c`; the clock never passes the later end of `c`'s two windows. */
    method Exec(c: Container)
      returns (ghost log1: seq<Event>, ghost y1: Yard, ghost t1: int,
               ghost log2: seq<Event>, ghost y2: Yard, ghost t2: int, pos: nat)
      requires Inv() && Known(defs, c) && c.id !in store.index && 1 <= c.size <= 4
      modifies this, store
      ensures Inv() && OneIntake(old(log), log, c) && old(time) <= time
      ensures time <= Latest(old(time), Latest(c.delivery.end, c.arrival.end))
      ensures old(time) <= t1 && (t1 > old(time) ==> t1 <= c.delivery.end)
      ensures Valid(y1) && y1.width >= 20 && pos == LeastFullPile(y1, c.size)
      ensures multiset(y1.items) <= multiset(old(store.items))
      ensures forall x :: x in old(store.items) && x !in y1.items ==>
                x in old(Removables(store.Model())) && c.value < x.value
      ensures t1 < c.delivery.end ==>
                var rs := WalkOrder(old(store.Model()), old(time));
                forall j :: 0 <= j < PricierFrom(rs, c, 0) && rs[j].delivery.start <= old(time) ==>
                  rs[j] !in y1.items
      ensures (exists k :: |old(log)| <= k < |log| && log[k].action.Add?) <==> t1 < c.delivery.end
      ensures forall k :: |old(log)| <= k < |log| && log[k].action.Add? ==> log[k] == Event(t1, Add(c.id, pos))
      ensures old(log) <= log1 <= log && t1 == |log1| && Replayed(defs, store.width, log1) == Accepted(y1)
      ensures Indexed(y1) && (t1 < c.delivery.end ==> CheckAdd(y1.storage, pos, c.size) == Flat)
      ensures log1 <= log2 <= log && t2 == |log2| && Replayed(defs, store.width, log2) == Accepted(y2)
      ensures NoIntake(log2, log)
      ensures var ya := TakenIn(y1, t1, c, pos); var ta := if t1 < c.delivery.end then t1 + 1 else t1;
                ta <= t2 && (t2 > ta ==> t2 <= c.delivery.end) &&
                multiset(y2.items) <= multiset(ya.items) &&
                (forall x :: x in ya.items && x !in y2.items ==> x in Removables(ya)) &&
                (t2 < c.delivery.end ==>
                   forall x :: x in Removables(ya) && x.delivery.start <= ta ==> x !in y2.items)
    {
      ghost var log0 := log;
      ghost var t0 := time;
      log1, y1, t1, pos := TakeIn(c);
      ghost var loga := log;
      ghost var ta := time;
      TreatRemovables(c, false);
      log2, y2, t2 := log, store.Model(), time;
      var rem := SpendArrival(c);
      NoIntakeTrans(loga, log2, log);
      ClockBound(t0, t1, ta, t2, time, c.delivery.end, c.arrival.end);
      if t1 < c.delivery.end {
        IntakeBetween(log0, log1, Event(t1, Add(c.id, pos)), log, c, pos);
      } else {
        NoIntakeTrans(log0, log1, log);
        NoIntakeIsOneIntake(log0, log, c);
      }
    }
  }
}
