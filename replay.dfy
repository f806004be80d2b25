/** The log replay of `check_and_show`, without the text parsing: the log is a
    sequence of timestamped events, replayed on a fresh store of the logged width
    against the container definitions. `Run` is the replay as a fold of the yard
    functions; `CheckLog` is the source's loop over a `Store` object, proved to
    compute the same verdict. */
module Replay {
  import opened Containers
  import opened Yards
  import opened Stores

  /** One log line after the START line: ADD id pos, REMOVE id, MOVE id pos, CASH amount. */
  datatype Action = Add(id: int, pos: nat) | Remove(id: int) | Move(id: int, pos: nat) | Cash(amount: int)

  datatype Event = Event(time: int, action: Action)

  /** The replay either reaches a final store, or stops at the index of the first
      event whose check fails (where the source raises). */
  datatype Verdict = Accepted(yard: Yard) | Rejected(at: nat)

  /** `containers_map`: identifier to definition; a later definition of the same
      identifier replaces an earlier one. */
  function ContainerMap(cs: seq<Container>): (m: map<int, Container>)
    ensures forall id :: id in m ==> m[id].id == id
    ensures forall k :: 0 <= k < |cs| ==> cs[k].id in m
  {
    if cs == [] then map[]
    else ContainerMap(cs[..|cs| - 1])[cs[|cs| - 1].id := cs[|cs| - 1]]
  }

  /** The definition kept for an identifier is its last one in the file. */
  lemma {:induction false} ContainerMapLastWins(cs: seq<Container>, k: nat)
    requires k < |cs|
    requires forall j :: k < j < |cs| ==> cs[j].id != cs[k].id
    ensures ContainerMap(cs)[cs[k].id] == cs[k]
  {
    if k < |cs| - 1 {
      ContainerMapLastWins(cs[..|cs| - 1], k);
    }
  }

  /** Every kept definition comes from the file. */
  lemma {:induction false} ContainerMapFromFile(cs: seq<Container>, id: int)
    requires id in ContainerMap(cs)
    ensures ContainerMap(cs)[id] in cs
  {
    if cs[|cs| - 1].id != id {
      ContainerMapFromFile(cs[..|cs| - 1], id);
      assert cs[..|cs| - 1] <= cs;
    }
  }

  /** One event. ADD and MOVE go through the store's own checks; REMOVE credits the
      value exactly when the event's time lies in the delivery window; CASH must
      equal the running cash. */
  function Step(defs: map<int, Container>, y: Yard, e: Event): (r: Option<Yard>)
    requires Valid(y)
    ensures r.Some? ==> Valid(r.value) && r.value.width == y.width
    ensures r.Some? && e.action.Cash? ==> e.action.amount == y.cash && r.value == y
    ensures r.Some? && e.action.Remove? ==>
              e.action.id in defs &&
              r.value.cash == y.cash + (if DeliverableAt(defs[e.action.id], e.time)
                                        then defs[e.action.id].value else 0)
    ensures r.Some? && !e.action.Remove? ==> r.value.cash == y.cash
  {
    match e.action
    case Cash(amount) =>
      if amount == y.cash then Some(y) else None
    case Add(id, p) =>
      if id !in defs || CheckAdd(y.storage, p, defs[id].size) != Flat then None
      else Some(Added(y, defs[id], p))
    case Remove(id) =>
      if id !in defs || !RemoveSafe(y, defs[id]) then None
      else
        var c := defs[id];
        var y1 := Removed(y, c);
        Some(if c.delivery.start <= e.time < c.delivery.end then Credited(y1, c.value) else y1)
    case Move(id, p) =>
      if id !in defs then None else Moved(y, defs[id], p)
  }

  /** Replay `evs` from store `y`, the last seen time being `last` and `evs[0]`
      being event number `k` of the log. */
  function Run(defs: map<int, Container>, y: Yard, last: int, evs: seq<Event>, k: nat): (v: Verdict)
    requires Valid(y)
    ensures v.Accepted? ==> Valid(v.yard) && v.yard.width == y.width
    ensures v.Rejected? ==> k <= v.at < k + |evs|
    decreases |evs|
  {
    if evs == [] then Accepted(y)
    else if evs[0].time < last then Rejected(k)
    else match Step(defs, y, evs[0])
      case None => Rejected(k)
      case Some(y1) => Run(defs, y1, evs[0].time, evs[1..], k + 1)
  }

  /** The whole check: a fresh store of the logged width, last time 0. */
  function Replayed(defs: map<int, Container>, width: nat, evs: seq<Event>): Verdict
  {
    Run(defs, Initial(width), 0, evs, 0)
  }

  /** The time the replay has seen last after `evs`. */
  function LastTime(last: int, evs: seq<Event>): int
  {
    if evs == [] then last else evs[|evs| - 1].time
  }

  /** An event on time whose step succeeds: the replay goes on from the step's store. */
  lemma RunCons(defs: map<int, Container>, y: Yard, last: int, evs: seq<Event>, k: nat, y1: Yard)
    requires Valid(y) && evs != [] && last <= evs[0].time && Step(defs, y, evs[0]) == Some(y1)
    ensures Run(defs, y, last, evs, k) == Run(defs, y1, evs[0].time, evs[1..], k + 1)
  {
  }

  /** The slices of `evs[1..]` in terms of those of `evs`. */
  lemma SliceCons(last: int, evs: seq<Event>, i: nat)
    requires 1 <= i <= |evs|
    ensures evs[..i][0] == evs[0] && evs[..i][1..] == evs[1..][..i - 1]
    ensures evs[1..][i - 1..] == evs[i..]
    ensures LastTime(evs[0].time, evs[1..][..i - 1]) == LastTime(last, evs[..i])
  {
  }

  /** A verdict on a prefix, followed by the replay of the rest from where the
      prefix ended: a rejection stands, an acceptance goes on from its store. */
  function Resume(defs: map<int, Container>, v: Verdict, last: int, evs: seq<Event>, k: nat): Verdict
    requires v.Accepted? ==> Valid(v.yard)
  {
    if v.Rejected? then v else Run(defs, v.yard, last, evs, k)
  }

  /** Running a log is running a prefix, then the rest from where the prefix ended. */
  lemma {:induction false} RunSplit(defs: map<int, Container>, y: Yard, last: int, evs: seq<Event>, k: nat, i: nat)
    requires Valid(y) && i <= |evs|
    ensures Run(defs, y, last, evs, k) ==
              Resume(defs, Run(defs, y, last, evs[..i], k), LastTime(last, evs[..i]), evs[i..], k + i)
    decreases i
  {
    if i == 0 {
      assert evs[..0] == [] && evs[0..] == evs;
    } else if evs[0].time >= last {
      SliceCons(last, evs, i);
      match Step(defs, y, evs[0])
      case None =>
      case Some(y1) =>
        RunCons(defs, y, last, evs, k, y1);
        RunCons(defs, y, last, evs[..i], k, y1);
        RunSplit(defs, y1, evs[0].time, evs[1..], k + 1, i - 1);
    } else {
      assert evs[..i][0] == evs[0];
    }
  }

  /** Appending one event to an accepted log: it is accepted exactly when its time
      is not earlier than the last one and its step succeeds. */
  lemma ReplayAppend(defs: map<int, Container>, width: nat, log: seq<Event>, e: Event, y: Yard)
    requires Replayed(defs, width, log) == Accepted(y)
    ensures Valid(y)
    ensures Replayed(defs, width, log + [e]) ==
              if e.time < LastTime(0, log) then Rejected(|log|)
              else match Step(defs, y, e)
                case None => Rejected(|log|)
                case Some(y1) => Accepted(y1)
  {
    RunSplit(defs, Initial(width), 0, log + [e], 0, |log|);
    assert (log + [e])[..|log|] == log;
    assert (log + [e])[|log|..] == [e];
    assert [e][1..] == [];
    assert Replayed(defs, width, log + [e]) == Run(defs, y, LastTime(0, log), [e], |log|);
  }

  /** In particular an event on time whose step succeeds extends an accepted log to
      an accepted log, ending at the step's store. */
  lemma ReplayAccepts(defs: map<int, Container>, width: nat, log: seq<Event>, e: Event, y: Yard, z: Yard)
    requires Replayed(defs, width, log) == Accepted(y)
    requires LastTime(0, log) <= e.time
    requires Valid(y) && Step(defs, y, e) == Some(z)
    ensures Replayed(defs, width, log + [e]) == Accepted(z)
  {
    ReplayAppend(defs, width, log, e, y);
  }

  /** An accepted log has non-decreasing, non-negative timestamps. */
  lemma {:induction false} AcceptedIsOrdered(defs: map<int, Container>, y: Yard, last: int, evs: seq<Event>, k: nat)
    requires Valid(y) && Run(defs, y, last, evs, k).Accepted?
    ensures forall i :: 0 <= i < |evs| ==> (if i == 0 then last else evs[i - 1].time) <= evs[i].time
    decreases |evs|
  {
    if evs != [] {
      var y1 := Step(defs, y, evs[0]).value;
      AcceptedIsOrdered(defs, y1, evs[0].time, evs[1..], k + 1);
      forall i | 1 <= i < |evs|
        ensures evs[i - 1].time <= evs[i].time
      {
        assert evs[1..][i - 1] == evs[i];
        if i >= 2 {
          assert evs[1..][i - 2] == evs[i - 1];
        }
      }
    }
  }

  /** A rejected log is rejected at its first bad event: the events before it replay
      fine, and adding it makes the replay fail. */
  lemma RejectedAtFirstBadEvent(defs: map<int, Container>, width: nat, evs: seq<Event>)
    requires Replayed(defs, width, evs).Rejected?
    ensures Replayed(defs, width, evs).at < |evs|
    ensures Replayed(defs, width, evs[..Replayed(defs, width, evs).at]).Accepted?
    ensures Replayed(defs, width, evs[..Replayed(defs, width, evs).at + 1]) == Replayed(defs, width, evs)
  {
    var a := Replayed(defs, width, evs).at;
    var y0 := Initial(width);
    RunSplit(defs, y0, 0, evs, 0, a);
    var pre := Run(defs, y0, 0, evs[..a], 0);
    RunSplit(defs, y0, 0, evs[..a + 1], 0, a);
    assert evs[..a + 1][..a] == evs[..a];
    assert evs[..a + 1][a..] == [evs[a]];
    assert evs[a..][0] == evs[a];
    assert [evs[a]][1..] == [];
  }

  /** In an accepted log every CASH event states the cash that the events before it
      produced. */
  lemma CashLinesMatch(defs: map<int, Container>, width: nat, evs: seq<Event>, i: nat)
    requires Replayed(defs, width, evs).Accepted?
    requires i < |evs| && evs[i].action.Cash?
    ensures Replayed(defs, width, evs[..i]).Accepted?
    ensures evs[i].action.amount == Replayed(defs, width, evs[..i]).yard.cash
  {
    var y0 := Initial(width);
    RunSplit(defs, y0, 0, evs, 0, i);
    var pre := Run(defs, y0, 0, evs[..i], 0);
    assert evs[i..][0] == evs[i];
  }

  /** One event of `check_and_show` applied to the store, past the time check: the
      result is false where the source raises, and otherwise the store is the step's
      store. */
  method ApplyEvent(store: Store, defs: map<int, Container>, e: Event) returns (ok: bool)
    requires store.Valid()
    modifies store
    ensures store.Valid()
    ensures ok == Step(defs, old(store.Model()), e).Some?
    ensures ok ==> store.Model() == Step(defs, old(store.Model()), e).value
  {
    match e.action {
      case Cash(amount) =>
        return amount == store.cash;
      case Add(id, p) =>
        if id !in defs {
          return false;
        }
        var fits := store.CanAdd(defs[id], p);
        if fits != Flat {
          return false;
        }
        store.Add(defs[id], p);
        return true;
      case Remove(id) =>
        if id !in defs {
          return false;
        }
        var c := defs[id];
        if !RemoveSafe(store.Model(), c) {
          return false;
        }
        store.Remove(c);
        if c.delivery.start <= e.time < c.delivery.end {
          store.AddCash(c.value);
        }
        return true;
      case Move(id, p) =>
        if id !in defs || defs[id].id !in store.index {
          return false;
        }
        ok := store.Move(defs[id], p);
    }
  }

  /** The event at `i` and the events after it. */
  lemma DropOne(events: seq<Event>, i: nat)
    requires i < |events|
    ensures events[i..] != [] && events[i..][0] == events[i] && events[i..][1..] == events[i + 1..]
  {
  }

  /** `check_and_show` past the START line: the source's loop over a fresh `Store`. */
  method CheckLog(width: nat, defs: map<int, Container>, events: seq<Event>) returns (v: Verdict)
    ensures v == Replayed(defs, width, events)
  {
    var store := new Store(width);
    var last := 0;
    var i := 0;
    while i < |events|
      invariant 0 <= i <= |events|
      invariant store.Valid() && store.width == width
      invariant Replayed(defs, width, events) == Run(defs, store.Model(), last, events[i..], i)
    {
      var e := events[i];
      DropOne(events, i);
      if e.time < last {
        return Rejected(i);
      }
      ghost var y := store.Model();
      var ok := ApplyEvent(store, defs, e);
      if !ok {
        return Rejected(i);
      }
      RunCons(defs, y, last, events[i..], i, store.Model());
      last := e.time;
      i := i + 1;
    }
    return Accepted(store.Model());
  }
}
