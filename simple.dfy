/** The baseline strategy of `simple.py`: a new container goes on pile 1 of its size
    when it fits and has not expired, then until the arrival window closes the
    strategy sweeps the piles of each size, pile 1 onto pile 2 and back, losing
    expired containers, selling valid ones and moving the others across. It keeps
    the same state as the expert strategy (band layout, known definitions, a log
    that replays to the store), except that its clock also ticks on an empty store
    without writing to the log. */
module Simple {
  import opened Containers
  import opened Yards
  import opened Stores
  import opened Replay
  import opened Bands
  import opened Actions

  /** `p1` and `p2` are the two piles of one size, in either order. */
  predicate PilePair(p1: nat, p2: nat)
  {
    IsStart(p1) && IsStart(p2) && p1 != p2 && ClassOf(p1) == ClassOf(p2)
  }

  /** The store and the clock at one point of a run. */
  datatype Moment = Moment(yard: Yard, time: int)

  /** The loop of `transfer(p1, p2, limit)` from `y` at clock `t`: the top of `p1` is
      evaluated with target `p2`, one time unit per round, until `p1` is empty or
      the clock reaches the limit. */
  ghost function TransferRounds(y: Yard, t: int, p1: nat, p2: nat, limit: int): (r: Moment)
    requires Banded(y) && PilePair(p1, p2)
    ensures Banded(r.yard) && r.yard.width == y.width
    decreases |y.storage[p1]|
  {
    if |y.storage[p1]| == 0 || limit <= t then Moment(y, t)
    else TransferRounds(Evaluated(y, p1, p2, t), t + 1, p1, p2, limit)
  }

  /** The loop never winds the clock back; when it takes no time it changes nothing,
      and before the limit that happens only when `p1` is empty. */
  lemma {:induction false} TransferRoundsClock(y: Yard, t: int, p1: nat, p2: nat, limit: int)
    requires Banded(y) && PilePair(p1, p2)
    ensures var r := TransferRounds(y, t, p1, p2, limit);
              t <= r.time && (r.time == t ==> r.yard == y) && (r.time == t < limit ==> |y.storage[p1]| == 0)
    decreases |y.storage[p1]|
  {
    if |y.storage[p1]| != 0 && t < limit {
      TransferRoundsClock(Evaluated(y, p1, p2, t), t + 1, p1, p2, limit);
    }
  }

  /** One round of that loop, taken when `p1` is not empty and the clock is before
      the limit. */
  lemma TransferRoundsStep(y0: Yard, t0: int, y: Yard, t: int, p1: nat, p2: nat, limit: int, z: Yard, t2: int)
    requires Banded(y0) && Banded(y) && PilePair(p1, p2) && |y.storage[p1]| != 0 && t < limit
    requires TransferRounds(y, t, p1, p2, limit) == TransferRounds(y0, t0, p1, p2, limit)
    requires z == Evaluated(y, p1, p2, t) && t2 == t + 1
    ensures Banded(z) && TransferRounds(z, t2, p1, p2, limit) == TransferRounds(y0, t0, p1, p2, limit)
  {
  }

  /** `transfer(p1, p2, limit)`: one tick first when the store is empty, then the
      loop. */
  ghost function Transferred(y: Yard, t: int, p1: nat, p2: nat, limit: int): (r: Moment)
    requires Banded(y) && PilePair(p1, p2)
    ensures Banded(r.yard) && r.yard.width == y.width
  {
    TransferRounds(y, if y.items == [] then t + 1 else t, p1, p2, limit)
  }

  /** `transfer` never winds the clock back; when it takes no time it changes
      nothing and found a non-empty store, and before the limit `p1` was empty. */
  lemma TransferredClock(y: Yard, t: int, p1: nat, p2: nat, limit: int)
    requires Banded(y) && PilePair(p1, p2)
    ensures var r := Transferred(y, t, p1, p2, limit);
              t <= r.time && (r.time == t ==> r.yard == y && y.items != []) &&
              (r.time == t < limit ==> |y.storage[p1]| == 0)
  {
    TransferRoundsClock(y, if y.items == [] then t + 1 else t, p1, p2, limit);
  }

  /** The body of `exec`'s `for` loop for size `k`: pile 1 onto pile 2, then back. */
  ghost function SweptSize(y: Yard, t: int, k: int, limit: int): (r: Moment)
    requires Banded(y) && 1 <= k <= 4
    ensures Banded(r.yard) && r.yard.width == y.width
  {
    StackPositionsArePiles(k);
    var m := Transferred(y, t, StackPosition(1, k), StackPosition(2, k), limit);
    Transferred(m.yard, m.time, StackPosition(2, k), StackPosition(1, k), limit)
  }

  /** Both transfers of size `k` together: when they take no time they change
      nothing and found a non-empty store, and before the limit both piles of `k`
      were empty. */
  lemma SweptSizeClock(y: Yard, t: int, k: int, limit: int)
    requires Banded(y) && 1 <= k <= 4
    ensures var r := SweptSize(y, t, k, limit);
              t <= r.time && (r.time == t ==> r.yard == y && y.items != []) &&
              (r.time == t < limit ==> SizeEmpty(y.storage, k))
  {
    StackPositionsArePiles(k);
    var m := Transferred(y, t, StackPosition(1, k), StackPosition(2, k), limit);
    TransferredClock(y, t, StackPosition(1, k), StackPosition(2, k), limit);
    TransferredClock(m.yard, m.time, StackPosition(2, k), StackPosition(1, k), limit);
  }

  /** The sizes `k` .. 4 of one pass of that `for` loop. */
  ghost function PassedFrom(y: Yard, t: int, k: int, limit: int): (r: Moment)
    requires Banded(y) && 1 <= k <= 5
    ensures Banded(r.yard) && r.yard.width == y.width
    decreases 5 - k
  {
    if k == 5 then Moment(y, t)
    else
      var m := SweptSize(y, t, k, limit);
      PassedFrom(m.yard, m.time, k + 1, limit)
  }

  /** Sizes `k` .. 4 of a pass: when they take no time they change nothing, and
      before the limit they found a non-empty store with both piles of every size
      from `k` on empty. */
  lemma {:induction false} PassedFromClock(y: Yard, t: int, k: int, limit: int)
    requires Banded(y) && 1 <= k <= 5
    ensures var r := PassedFrom(y, t, k, limit);
              t <= r.time && (r.time == t ==> r.yard == y && (k <= 4 ==> y.items != [])) &&
              (r.time == t < limit ==> forall j :: k <= j <= 4 ==> SizeEmpty(y.storage, j))
    decreases 5 - k
  {
    if k < 5 {
      var m := SweptSize(y, t, k, limit);
      SweptSizeClock(y, t, k, limit);
      PassedFromClock(m.yard, m.time, k + 1, limit);
      assert PassedFrom(y, t, k, limit) == PassedFrom(m.yard, m.time, k + 1, limit);
      ClockChained(y, t, k, limit, m, PassedFrom(m.yard, m.time, k + 1, limit));
    }
  }

  /** The step of that induction, on the moments alone: size `k` leads from `(y, t)`
      to `m`, and the rest of the pass from `m` to `r`. */
  lemma ClockChained(y: Yard, t: int, k: int, limit: int, m: Moment, r: Moment)
    requires |y.storage| >= 20 && |m.yard.storage| >= 20 && 1 <= k <= 4
    requires t <= m.time && (m.time == t ==> m.yard == y && y.items != [])
    requires m.time == t < limit ==> SizeEmpty(y.storage, k)
    requires m.time <= r.time && (r.time == m.time ==> r.yard == m.yard)
    requires r.time == m.time < limit ==> forall j :: k + 1 <= j <= 4 ==> SizeEmpty(m.yard.storage, j)
    ensures t <= r.time && (r.time == t ==> r.yard == y && y.items != [])
    ensures r.time == t < limit ==> forall j :: k <= j <= 4 ==> SizeEmpty(y.storage, j)
  {
  }

  /** Size `k` of a pass, done: the rest of the pass is sizes `k + 1` .. 4. */
  lemma PassedFromStep(y: Yard, t: int, k: int, limit: int, goal: Moment, m: Moment)
    requires Banded(y) && 1 <= k <= 4
    requires PassedFrom(y, t, k, limit) == goal
    requires m == SweptSize(y, t, k, limit)
    ensures Banded(m.yard) && PassedFrom(m.yard, m.time, k + 1, limit) == goal
  {
  }

  /** One pass of the `for` loop. */
  ghost function Passed(y: Yard, t: int, limit: int): (r: Moment)
    requires Banded(y)
    ensures Banded(r.yard) && r.yard.width == y.width
  {
    PassedFrom(y, t, 1, limit)
  }

  /** Started before the limit a pass always takes time: a pass that took none would
      have found a non-empty store with all eight piles empty. */
  lemma PassedClock(y: Yard, t: int, limit: int)
    requires Banded(y)
    ensures t <= Passed(y, t, limit).time
    ensures t < limit ==> t < Passed(y, t, limit).time
  {
    StoredOnStackPositions(y);
    PassedFromClock(y, t, 1, limit);
  }

  /** The `while` loop of `exec`: passes until the clock reaches `end`. */
  ghost function Passes(y: Yard, t: int, end: int): (r: Moment)
    requires Banded(y)
    ensures Banded(r.yard) && r.yard.width == y.width && end <= r.time
    decreases end - t
  {
    if end <= t then Moment(y, t)
    else
      var m := Passed(y, t, end);
      PassedClock(y, t, end);
      Passes(m.yard, m.time, end)
  }

  /** One pass done before `end`: the loop goes on from where it ended. */
  lemma PassesStep(y: Yard, t: int, end: int, goal: Moment, m: Moment)
    requires Banded(y) && t < end
    requires Passes(y, t, end) == goal
    requires m == Passed(y, t, end)
    ensures Banded(m.yard) && Passes(m.yard, m.time, end) == goal
  {
  }

  /** `exec(c)` from `y` at clock `t`: `c` goes on pile 1 of its size when it has not
      expired, then the passes run until the arrival window of `c` has closed. */
  ghost function Executed(y: Yard, t: int, c: Container): (r: Moment)
    requires Banded(y) && c.id !in y.index && 1 <= c.size <= 4
    ensures Banded(r.yard) && r.yard.width == y.width && c.arrival.end <= r.time
  {
    StackPositionsArePiles(c.size);
    BandedAdd(y, c, StackPosition(1, c.size));
    if Expired(c, t) then Passes(y, t, c.arrival.end)
    else Passes(Added(y, c, StackPosition(1, c.size)), t + 1, c.arrival.end)
  }

  /** After the intake, `exec` is the passes that follow it. */
  lemma ExecutedAfterIntake(y0: Yard, t0: int, c: Container, y: Yard, t: int)
    requires Banded(y0) && c.id !in y0.index && 1 <= c.size <= 4 && Banded(y)
    requires Expired(c, t0) ==> y == y0 && t == t0
    requires !Expired(c, t0) ==>
               CheckAdd(y0.storage, StackPosition(1, c.size), c.size) == Flat &&
               y == Added(y0, c, StackPosition(1, c.size)) && t == t0 + 1
    ensures Executed(y0, t0, c) == Passes(y, t, c.arrival.end)
  {
  }

  class Strategy {
    const store: Store
    var time: int
    ghost var log: seq<Event>
    ghost const defs: map<int, Container>

    /** The store keeps the band layout, its containers are the definitions the replay
        will find, the log replays to exactly the store, and every logged action is
        stamped strictly before the current clock, which never goes negative. */
    ghost predicate Inv()
      reads this, store
    {
      store.Valid() && Consistent(defs, store.width, store.Model(), log) &&
      0 <= time && (log != [] ==> LastTime(0, log) < time)
    }

    /** Each action is logged at the current clock, which then advances by one. */
    ghost predicate Ticked(log0: seq<Event>, time0: int, e: Event)
      reads this
    {
      e.time == time0 && log == log0 + [e] && time == time0 + 1
    }

    /** `__init__`: an empty store of `width` columns, clock 0, empty log. */
    constructor (width: nat, defs: map<int, Container>)
      requires width >= 20
      ensures Inv() && fresh(store) && store.Model() == Initial(width)
      ensures time == 0 && log == [] && this.defs == defs
    {
      store := new Store(width);
      time := 0;
      log := [];
      this.defs := defs;
      InitialConsistent(defs, width);
    }

    /** `add_container`: the assertion of `add` holds; the target is one of the
        container's own piles and the container is new to the store. */
    method AddContainer(c: Container, p: nat)
      requires Inv() && Known(defs, c) && c.id !in store.index && IsPile(p, c.size)
      requires CheckAdd(store.storage, p, c.size) == Flat
      modifies this, store
      ensures Inv()
      ensures store.Model() == Added(old(store.Model()), c, p)
      ensures Ticked(old(log), old(time), Event(old(time), Add(c.id, p)))
    {
      AddLogged(defs, store.width, store.Model(), log, c, p, time);
      store.Add(c, p);
      log := log + [Event(time, Add(c.id, p))];
      time := time + 1;
    }

    /** `lose_container`: remove without cash; the source calls it on expired
        containers only. */
    method LoseContainer(c: Container)
      requires Inv() && c in store.items && c.id in store.index && CanRemove(store.Model(), c)
      requires !Sellable(c, time)
      modifies this, store
      ensures Inv()
      ensures RemoveSafe(old(store.Model()), c) && store.Model() == Removed(old(store.Model()), c)
      ensures Ticked(old(log), old(time), Event(old(time), Remove(c.id)))
    {
      RemoveLogged(defs, store.width, store.Model(), log, c, time);
      store.Remove(c);
      log := log + [Event(time, Remove(c.id))];
      time := time + 1;
    }

    /** `sold_container`: credit the value, then remove; the source calls it on valid
        containers only. The result is the store that removing first and crediting
        after gives. */
    method SoldContainer(c: Container)
      requires Inv() && c in store.items && c.id in store.index && CanRemove(store.Model(), c)
      requires Sellable(c, time)
      modifies this, store
      ensures Inv()
      ensures RemoveSafe(old(store.Model()), c) &&
              store.Model() == Credited(Removed(old(store.Model()), c), c.value)
      ensures Ticked(old(log), old(time), Event(old(time), Remove(c.id)))
    {
      RemoveLogged(defs, store.width, store.Model(), log, c, time);
      CreditCommutesWithRemove(store.Model(), c, c.value);
      store.AddCash(c.value);
      store.Remove(c);
      log := log + [Event(time, Remove(c.id))];
      time := time + 1;
    }

    /** `move_container`: its assertion `can_move` holds, and the target is a pile of
        the container's size. */
    method MoveContainer(c: Container, p: nat)
      requires Inv() && c in store.items && c.id in store.index && IsPile(p, c.size)
      requires CanMove(store.Model(), c, p)
      modifies this, store
      ensures Inv()
      ensures Moved(old(store.Model()), c, p) == Some(store.Model())
      ensures Ticked(old(log), old(time), Event(old(time), Move(c.id, p)))
    {
      ghost var y := store.Model();
      MoveLogged(defs, store.width, y, log, c, p, time);
      var ok := store.Move(c, p);
      assert store.Model() == Added(Removed(y, c), c, p);
      assert Consistent(defs, store.width, store.Model(), log + [Event(time, Move(c.id, p))]);
      log := log + [Event(time, Move(c.id, p))];
      time := time + 1;
    }

    /** `evaluate_container(c, p2)`: when `c` can be added at `p2` and removed, do
        exactly one of lose (expired), sell (valid) or move to `p2`; otherwise do
        nothing. */
    method EvaluateContainer(c: Container, p2: nat)
      requires Inv() && c in store.items && c.id in store.index && IsPile(p2, c.size)
      modifies this, store
      ensures Inv()
      ensures var y := old(store.Model()); var t := old(time);
        if CheckAdd(y.storage, p2, c.size) == Flat && CanRemove(y, c) then
          if Expired(c, t) then
            RemoveSafe(y, c) && store.Model() == Removed(y, c) && Ticked(old(log), t, Event(t, Remove(c.id)))
          else if Sellable(c, t) then
            RemoveSafe(y, c) && store.Model() == Credited(Removed(y, c), c.value) &&
            Ticked(old(log), t, Event(t, Remove(c.id)))
          else
            Moved(y, c, p2) == Some(store.Model()) && Ticked(old(log), t, Event(t, Move(c.id, p2)))
        else
          store.Model() == y && time == t && log == old(log)
    {
      var fits := store.CanAdd(c, p2);
      if fits == Flat && Yards.CanRemove(store.Model(), c) {
        if Expired(c, time) {
          LoseContainer(c);
        } else if Sellable(c, time) {
          SoldContainer(c);
        } else {
          MoveContainer(c, p2);
        }
      }
    }

    /** One round of `transfer`'s loop: the top of `p1` is lost when expired, sold
        when valid and moved onto `p2` otherwise. Under the band layout it can always
        be removed and added, so every round takes one time unit. */
    method TransferTop(p1: nat, p2: nat)
      requires Inv() && PilePair(p1, p2) && |store.storage[p1]| > 0
      modifies this, store
      ensures Inv() && NoIntake(old(log), log) && time == old(time) + 1
      ensures store.Model() == Evaluated(old(store.Model()), p1, p2, old(time))
      ensures var y := old(store.Model()); var c := y.storage[p1][|y.storage[p1]| - 1];
        RemoveSafe(y, c) && CheckAdd(Removed(y, c).storage, p2, c.size) == Flat &&
        store.Model() == if Expired(c, old(time)) then Removed(y, c)
                         else if Sellable(c, old(time)) then Credited(Removed(y, c), c.value)
                         else Added(Removed(y, c), c, p2)
      ensures |store.storage[p1]| == old(|store.storage[p1]|) - 1
      ensures old(|store.storage[p2]|) <= |store.storage[p2]| <= old(|store.storage[p2]|) + 1
      ensures forall q: nat :: IsStart(q) && q != p1 && q != p2 ==> |store.storage[q]| == old(|store.storage[q]|)
    {
      ghost var y := store.Model();
      ghost var log1 := log;
      var c := store.storage[p1][|store.storage[p1]| - 1];
      ShiftHeights(y, p1, p2);
      DropHeights(y, p1);
      EvaluateContainer(c, p2);
      NoIntakeExtend(log1, log1, log[|log| - 1]);
    }

    /** `transfer(p1, p2, time_limit)`: on an empty store one time unit passes and
        nothing else happens; otherwise the top of `p1` is treated, one unit each,
        until `p1` is empty or the clock reaches the limit. `p1` loses exactly one
        container per unit, `p2` gains at most that many, and no other pile
        changes. */
    method Transfer(p1: nat, p2: nat, limit: int)
      requires Inv() && PilePair(p1, p2)
      modifies this, store
      ensures Inv() && NoIntake(old(log), log) && old(time) <= time
      ensures Moment(store.Model(), time) == Transferred(old(store.Model()), old(time), p1, p2, limit)
      ensures time <= Latest(old(time) + 1, limit)
      ensures time == old(time) ==> store.Model() == old(store.Model()) && log == old(log)
      ensures old(store.items) == [] ==>
                time == old(time) + 1 && store.Model() == old(store.Model()) && log == old(log)
      ensures old(store.items) != [] ==>
                time <= Latest(old(time), limit) && (|store.storage[p1]| == 0 || time >= limit)
      ensures old(store.items) != [] ==>
                |store.storage[p1]| == old(|store.storage[p1]|) - (time - old(time)) &&
                old(|store.storage[p2]|) <= |store.storage[p2]| <= old(|store.storage[p2]|) + (time - old(time))
      ensures forall q: nat :: IsStart(q) && q != p1 && q != p2 ==> |store.storage[q]| == old(|store.storage[q]|)
    {
      if |store.items| == 0 {
        StackedAreListed(store.Model());
        time := time + 1;
      }
      ghost var y1 := store.Model();
      ghost var t1 := time;
      ghost var log1 := log;
      while |store.storage[p1]| != 0 && limit > time
        invariant Inv() && NoIntake(log1, log) && t1 <= time
        invariant TransferRounds(store.Model(), time, p1, p2, limit) == TransferRounds(y1, t1, p1, p2, limit)
        invariant time > t1 ==> time <= limit
        invariant time == t1 ==> store.Model() == y1 && log == log1
        invariant |store.storage[p1]| == |y1.storage[p1]| - (time - t1)
        invariant |y1.storage[p2]| <= |store.storage[p2]| <= |y1.storage[p2]| + (time - t1)
        invariant forall q: nat :: IsStart(q) && q != p1 && q != p2 ==> |store.storage[q]| == |y1.storage[q]|
        decreases limit - time
      {
        ghost var log2 := log;
        ghost var y := store.Model();
        ghost var t := time;
        TransferTop(p1, p2);
        NoIntakeTrans(log1, log2, log);
        TransferRoundsStep(y1, t1, y, t, p1, p2, limit, store.Model(), time);
      }
    }

    /** One pass of `exec`'s `for` loop: for each size 1..4, transfer pile 1 onto
        pile 2, then pile 2 onto pile 1. Started before the limit, a pass always takes
        time: either some transfer treats a container, or the store is empty and the
        first transfer ticks. It overshoots the limit by at most 7, the empty-store
        ticks of the transfers after the clock reached it. */
    method Pass(limit: int)
      requires Inv() && time < limit
      modifies this, store
      ensures Inv() && NoIntake(old(log), log)
      ensures Moment(store.Model(), time) == Passed(old(store.Model()), old(time), limit)
      ensures old(time) < time <= limit + 7
    {
      ghost var goal := Passed(store.Model(), time, limit);
      ghost var t0 := time;
      SweepSizes(limit, goal, t0, log);
      PassedClock(old(store.Model()), t0, limit);
    }

    /** The `for` loop of a pass, over the sizes 1..4. */
    method SweepSizes(limit: int, ghost goal: Moment, ghost t0: int, ghost log0: seq<Event>)
      requires Sweeping(1, limit, goal, t0, log0)
      modifies this, store
      ensures Sweeping(5, limit, goal, t0, log0)
    {
      for k := 1 to 5
        invariant Sweeping(k, limit, goal, t0, log0)
      {
        ghost var log1 := log;
        ghost var y := store.Model();
        ghost var t := time;
        SweepSize(k, limit);
        NoIntakeTrans(log0, log1, log);
        PassedFromStep(y, t, k, limit, goal, Moment(store.Model(), time));
      }
    }

    /** The invariant of that loop before size `k`. */
    ghost predicate Sweeping(k: int, limit: int, goal: Moment, t0: int, log0: seq<Event>)
      reads this, store
    {
      Inv() && NoIntake(log0, log) && t0 <= time && 1 <= k <= 5 &&
      PassedFrom(store.Model(), time, k, limit) == goal && time <= limit + 2 * k - 3
    }

    /** The body of that `for` loop for size `k`. Both piles of `k` are empty when it
        takes no time before the limit, and then the store is not empty. */
    method SweepSize(k: int, limit: int)
      requires Inv() && 1 <= k <= 4
      modifies this, store
      ensures Inv() && NoIntake(old(log), log) && old(time) <= time
      ensures Moment(store.Model(), time) == SweptSize(old(store.Model()), old(time), k, limit)
      ensures time <= Latest(old(time) + 2, limit + 1)
    {
      var pos1 := StackPosition(1, k);
      var pos2 := StackPosition(2, k);
      StackPositionsArePiles(k);
      ghost var log1 := log;
      Transfer(pos1, pos2, limit);
      ghost var log2 := log;
      Transfer(pos2, pos1, limit);
      NoIntakeTrans(log1, log2, log);
    }

    /** `exec(c)`: take `c` in on pile 1 of its size when it fits there and has not
        expired, then sweep until the arrival window of `c` has closed. The log gains
        at most that one ADD, and it comes first exactly when `c` had not expired. */
    method Exec(c: Container)
      requires Inv() && Known(defs, c) && c.id !in store.index && 1 <= c.size <= 4
      modifies this, store
      ensures Inv() && OneIntake(old(log), log, c)
      ensures Moment(store.Model(), time) == Executed(old(store.Model()), old(time), c)
      ensures c.arrival.end <= time
      ensures old(time) <= time <= Latest(old(time) + 1, c.arrival.end + 7)
      ensures !Expired(c, old(time)) <==>
                |log| > |old(log)| && log[|old(log)|].time == old(time) && log[|old(log)|].action.Add? &&
                log[|old(log)|].action.id == c.id && log[|old(log)|].action.pos == StackPosition(1, c.size)
    {
      ghost var log0 := log;
      ghost var y0 := store.Model();
      ghost var t0 := time;
      var pos := TakeIn(c);
      ghost var log1 := log;
      ExecutedAfterIntake(y0, t0, c, store.Model(), time);
      SweepUntil(c.arrival.end, Executed(y0, t0, c), t0);
      IntakeOrNone(log0, log1, log, c, pos, t0);
    }

    /** The intake of `exec`: `c` goes on pile 1 of its size unless it has expired.
        Under the band layout that pile is always flat enough. */
    method TakeIn(c: Container) returns (pos: nat)
      requires Inv() && Known(defs, c) && c.id !in store.index && 1 <= c.size <= 4
      modifies this, store
      ensures Inv() && pos == StackPosition(1, c.size) && IsPile(pos, c.size)
      ensures Expired(c, old(time)) ==>
                store.Model() == old(store.Model()) && time == old(time) && log == old(log)
      ensures !Expired(c, old(time)) ==>
                CheckAdd(old(store.storage), pos, c.size) == Flat &&
                store.Model() == Added(old(store.Model()), c, pos) &&
                Ticked(old(log), old(time), Event(old(time), Add(c.id, pos)))
    {
      pos := StackPosition(1, c.size);
      StackPositionsArePiles(c.size);
      BandedFlat(store.Model(), pos, c.size);
      var fits := store.CanAdd(c, pos);
      if fits == Flat && !Expired(c, time) {
        AddContainer(c, pos);
      }
    }

    /** The `while` loop of `exec`: passes until the clock reaches `end`. */
    method SweepUntil(end: int, ghost goal: Moment, ghost t0: int)
      requires Inv() && t0 <= time <= Latest(t0 + 1, end + 7)
      requires Passes(store.Model(), time, end) == goal
      modifies this, store
      ensures Inv() && NoIntake(old(log), log) && t0 <= time <= Latest(t0 + 1, end + 7)
      ensures Moment(store.Model(), time) == goal
    {
      ghost var log1 := log;
      while time < end
        invariant Inv() && NoIntake(log1, log) && t0 <= time <= Latest(t0 + 1, end + 7)
        invariant Passes(store.Model(), time, end) == goal
        decreases end - time
      {
        ghost var log2 := log;
        ghost var y := store.Model();
        ghost var t := time;
        Pass(end);
        NoIntakeTrans(log1, log2, log);
        PassesStep(y, t, end, goal, Moment(store.Model(), time));
      }
    }
  }

  /** The log of `exec`: `log1` is `log0` or `log0` with one ADD of `c` at `pos`, after
      which only other actions follow. */
  lemma IntakeOrNone(log0: seq<Event>, log1: seq<Event>, log: seq<Event>, c: Container, pos: nat, t0: int)
    requires IsPile(pos, c.size) && NoIntake(log1, log)
    requires log1 == log0 || log1 == log0 + [Event(t0, Add(c.id, pos))]
    ensures OneIntake(log0, log, c)
    ensures (log1 != log0) <==> |log| > |log0| && log[|log0|] == Event(t0, Add(c.id, pos))
  {
    if log1 == log0 {
      NoIntakeIsOneIntake(log0, log, c);
    } else {
      IntakeBetween(log0, log0, Event(t0, Add(c.id, pos)), log, c, pos);
      assert log[..|log1|] == log1;
      assert log[|log0|] == log1[|log0|];
    }
  }
}
