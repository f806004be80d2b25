/** The four store actions a strategy logs (ADD, REMOVE for a sale or a loss, MOVE),
    and the state both strategies keep: a banded store whose containers are the
    definitions the log checker will read, and a log that replays to exactly that
    store. Each lemma here shows that one logged action keeps that state. */
module Actions {
  import opened Containers
  import opened Yards
  import opened Replay
  import opened Bands

  /** The definition the log replay will look up for `c` is `c` itself. */
  predicate Known(defs: map<int, Container>, c: Container)
  {
    c.id in defs && defs[c.id] == c
  }

  /** The state a strategy keeps between actions. */
  ghost predicate Consistent(defs: map<int, Container>, width: nat, y: Yard, log: seq<Event>)
  {
    Valid(y) && y.width == width && Banded(y) && Indexed(y) &&
    (forall x :: x in y.items ==> Known(defs, x)) &&
    Replayed(defs, width, log) == Accepted(y)
  }

  /** A fresh store and an empty log. */
  lemma InitialConsistent(defs: map<int, Container>, width: nat)
    requires width >= 20
    ensures Consistent(defs, width, Initial(width), [])
  {
    InitialBanded(width);
  }

  /** Logging `ADD c p` at time `t` after adding a new container to one of its piles. */
  lemma AddLogged(defs: map<int, Container>, width: nat, y: Yard, log: seq<Event>, c: Container, p: nat, t: int)
    requires Consistent(defs, width, y, log) && LastTime(0, log) <= t
    requires Known(defs, c) && c.id !in y.index && IsPile(p, c.size)
    ensures CheckAdd(y.storage, p, c.size) == Flat
    ensures Consistent(defs, width, Added(y, c, p), log + [Event(t, Add(c.id, p))])
  {
    BandedAdd(y, c, p);
    BandedIndexed(Added(y, c, p));
    ReplayAppend(defs, width, log, Event(t, Add(c.id, p)), y);
  }

  /** Removing a container keeps only containers that were stored before. */
  lemma RemovedKeepsKnown(defs: map<int, Container>, y: Yard, c: Container)
    requires Valid(y) && RemoveSafe(y, c) && (forall x :: x in y.items ==> Known(defs, x))
    ensures forall x :: x in Removed(y, c).items ==> Known(defs, x)
  {
    var r := Removed(y, c);
    forall x | x in r.items
      ensures Known(defs, x)
    {
      assert multiset(r.items)[x] > 0;
      assert x in multiset(y.items);
    }
  }

  /** Logging `REMOVE c` at time `t` after taking the top container of a pile away:
      the replay credits its value exactly when it is sellable at `t`. */
  lemma RemoveLogged(defs: map<int, Container>, width: nat, y: Yard, log: seq<Event>, c: Container, t: int)
    requires Consistent(defs, width, y, log) && LastTime(0, log) <= t
    requires c in y.items && c.id in y.index && CanRemove(y, c)
    ensures RemoveSafe(y, c)
    ensures Consistent(defs, width,
                       if Sellable(c, t) then Credited(Removed(y, c), c.value) else Removed(y, c),
                       log + [Event(t, Remove(c.id))])
  {
    BandedRemove(y, c);
    var r := Removed(y, c);
    BandedIgnoresCash(r, c.value);
    BandedIndexed(r);
    BandedIndexed(Credited(r, c.value));
    RemovedKeepsKnown(defs, y, c);
    var e := Event(t, Remove(c.id));
    assert Known(defs, c);
    assert Step(defs, y, e) == Some(if Sellable(c, t) then Credited(r, c.value) else r);
    ReplayAccepts(defs, width, log, e, y, if Sellable(c, t) then Credited(r, c.value) else r);
  }

  /** Moving a stored container keeps only containers that were stored before. */
  lemma MovedKeepsKnown(defs: map<int, Container>, y: Yard, c: Container, p: nat)
    requires Valid(y) && RemoveSafe(y, c) && CheckAdd(Removed(y, c).storage, p, c.size) == Flat
    requires forall x :: x in y.items ==> Known(defs, x)
    ensures forall x :: x in Added(Removed(y, c), c, p).items ==> Known(defs, x)
  {
    RemovedKeepsKnown(defs, y, c);
    assert Known(defs, c);
    assert Added(Removed(y, c), c, p).items == Removed(y, c).items + [c];
  }

  /** Logging `MOVE c p` at time `t` after moving the top container of a pile to a
      pile of its size. */
  lemma MoveLogged(defs: map<int, Container>, width: nat, y: Yard, log: seq<Event>, c: Container, p: nat, t: int)
    requires Consistent(defs, width, y, log) && LastTime(0, log) <= t
    requires c in y.items && c.id in y.index && CanRemove(y, c) && IsPile(p, c.size)
    ensures RemoveSafe(y, c) && CheckAdd(Removed(y, c).storage, p, c.size) == Flat
    ensures Moved(y, c, p) == Some(Added(Removed(y, c), c, p))
    ensures Consistent(defs, width, Added(Removed(y, c), c, p), log + [Event(t, Move(c.id, p))])
  {
    BandedMove(y, c, p);
    var z := Added(Removed(y, c), c, p);
    BandedIndexed(z);
    MovedKeepsKnown(defs, y, c, p);
    MoveStep(defs, y, c, p, t);
    ReplayAccepts(defs, width, log, Event(t, Move(c.id, p)), y, z);
  }

  /** The replay of `MOVE c p` moves the definition it looks up, which is `c`. */
  lemma MoveStep(defs: map<int, Container>, y: Yard, c: Container, p: nat, t: int)
    requires Valid(y) && c in y.items && Known(defs, c)
    requires RemoveSafe(y, c) && CheckAdd(Removed(y, c).storage, p, c.size) == Flat
    requires Moved(y, c, p) == Some(Added(Removed(y, c), c, p))
    ensures Step(defs, y, Event(t, Move(c.id, p))) == Some(Added(Removed(y, c), c, p))
  {
  }

  /** `evaluate_container` on the top `c` of pile `q`, with the other pile `p` of its
      size as target, at clock `t`. Under the band layout `can_add` and `can_remove`
      both hold, so `c` is lost when expired, sold when valid and moved onto `p`
      otherwise; `q` loses one container, `p` gains at most one, and no other pile
      changes. */
  ghost function Evaluated(y: Yard, q: nat, p: nat, t: int): (r: Yard)
    requires Banded(y) && IsStart(q) && IsStart(p) && q != p && ClassOf(q) == ClassOf(p)
    requires |y.storage[q]| > 0
    ensures Banded(r) && r.width == y.width
    ensures |r.storage[q]| == |y.storage[q]| - 1
    ensures |y.storage[p]| <= |r.storage[p]| <= |y.storage[p]| + 1
    ensures forall j: nat :: IsStart(j) && j != q && j != p ==> |r.storage[j]| == |y.storage[j]|
  {
    var c := y.storage[q][|y.storage[q]| - 1];
    ShiftHeights(y, q, p);
    DropHeights(y, q);
    BandedMove(y, c, p);
    BandedRemove(y, c);
    BandedIgnoresCash(Removed(y, c), c.value);
    if Expired(c, t) then Removed(y, c)
    else if Sellable(c, t) then Credited(Removed(y, c), c.value)
    else Added(Removed(y, c), c, p)
  }

  /** `log` extends `log0` with events none of which is an ADD. */
  ghost predicate NoIntake(log0: seq<Event>, log: seq<Event>)
  {
    log0 <= log && forall k :: |log0| <= k < |log| ==> !log[k].action.Add?
  }

  /** `log` extends `log0` with at most one ADD, which puts `c` on one of its piles. */
  ghost predicate OneIntake(log0: seq<Event>, log: seq<Event>, c: Container)
  {
    log0 <= log &&
    (forall k :: |log0| <= k < |log| && log[k].action.Add? ==>
       log[k].action.id == c.id && IsPile(log[k].action.pos, c.size)) &&
    (forall k1, k2 :: |log0| <= k1 < k2 < |log| ==> !(log[k1].action.Add? && log[k2].action.Add?))
  }

  lemma NoIntakeTrans(a: seq<Event>, b: seq<Event>, c: seq<Event>)
    requires NoIntake(a, b) && NoIntake(b, c)
    ensures NoIntake(a, c)
  {
    assert b[..|a|] == a && c[..|b|] == b;
    forall k | |a| <= k < |b|
      ensures c[k] == b[k]
    {
      assert c[..|b|][k] == c[k];
    }
  }

  lemma NoIntakeExtend(a: seq<Event>, b: seq<Event>, e: Event)
    requires NoIntake(a, b) && !e.action.Add?
    ensures NoIntake(a, b + [e])
  {
    assert (b + [e])[..|b|] == b;
    forall k | |a| <= k < |b| + 1
      ensures !(b + [e])[k].action.Add?
    {
      if k < |b| {
        assert (b + [e])[k] == b[k];
      }
    }
  }

  /** Removals, then one ADD of `c` at one of its piles, then more non-ADD events. */
  lemma IntakeBetween(a: seq<Event>, b: seq<Event>, e: Event, d: seq<Event>, c: Container, p: nat)
    requires NoIntake(a, b) && NoIntake(b + [e], d)
    requires e.action == Add(c.id, p) && IsPile(p, c.size)
    ensures OneIntake(a, d, c)
    ensures |b| < |d| && d[|b|] == e
    ensures forall k :: |a| <= k < |d| && d[k].action.Add? ==> d[k] == e
  {
    var b1 := b + [e];
    assert d[..|b1|] == b1 && b1[..|a|] == a;
    forall k | |a| <= k <= |b|
      ensures d[k] == b1[k]
    {
      assert d[..|b1|][k] == d[k];
    }
  }

  /** No ADD at all is at most one ADD. */
  lemma NoIntakeIsOneIntake(a: seq<Event>, d: seq<Event>, c: Container)
    requires NoIntake(a, d)
    ensures OneIntake(a, d, c)
  {
  }

  /** The larger of two clock values. */
  function Latest(a: int, b: int): int
  {
    if a < b then b else a
  }
}
