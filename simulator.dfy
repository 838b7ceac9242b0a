/** `DroneSimulator` of `mock_simulator.py`: the drone table and the commands
    and per-tick update that change it. */
module MockSimulator {

  import opened RealMath
  import opened Geometry
  import opened Drone
  import opened DroneIds
  import opened Formation

  // ---------------------------------------------------------------------------
  // Functions over the table

  /** The ids of `ids` that are not already in `known`, in order: for
      repetition-free `ids`, the keys a sequence of dictionary assignments adds
      to a table's insertion order. */
  function NewIds(known: set<string>, ids: seq<string>): (added: seq<string>)
    ensures |added| <= |ids|
  {
    if |ids| == 0 then []
    else
      var last := ids[|ids| - 1];
      NewIds(known, ids[..|ids| - 1]) + (if last in known then [] else [last])
  }

  /** `NewIds` keeps exactly the ids that are not known. */
  lemma {:induction false} NewIdsMembers(known: set<string>, ids: seq<string>, k: string)
    ensures k in NewIds(known, ids) <==> k in ids && k !in known
  {
    if |ids| > 0 {
      var init, last := ids[..|ids| - 1], ids[|ids| - 1];
      NewIdsMembers(known, init, k);
      assert k in ids <==> k in init || k == last by {
        assert ids == init + [last];
      }
    }
  }

  /** `[d for d in self.drones.values() if d.status == FLYING]`, as ids in table
      order. */
  function FlyingIds(order: seq<string>, drones: map<string, DroneState>): (flying: seq<string>)
    ensures |flying| <= |order|
  {
    if |order| == 0 then []
    else
      var last := order[|order| - 1];
      FlyingIds(order[..|order| - 1], drones)
        + (if last in drones && drones[last].status == Flying then [last] else [])
  }

  /** `FlyingIds` keeps exactly the ids of the table's flying drones. */
  lemma {:induction false} FlyingIdsMembers(order: seq<string>, drones: map<string, DroneState>, k: string)
    ensures k in FlyingIds(order, drones) <==> k in order && k in drones && drones[k].status == Flying
  {
    if |order| > 0 {
      var init, last := order[..|order| - 1], order[|order| - 1];
      FlyingIdsMembers(init, drones, k);
      assert k in order <==> k in init || k == last by {
        assert order == init + [last];
      }
    }
  }

  /** The flying ids are the table order filtered in place: the `i`-th of them
      sits at position `idx[i]` of the order, the positions increase, and every
      position holding a flying drone is among them. */
  lemma {:induction false} FlyingIdsInOrder(order: seq<string>, drones: map<string, DroneState>)
    returns (idx: seq<nat>)
    ensures var flying := FlyingIds(order, drones);
      && |idx| == |flying|
      && (forall i :: 0 <= i < |idx| ==> idx[i] < |order| && order[idx[i]] == flying[i])
      && (forall i, j :: 0 <= i < j < |idx| ==> idx[i] < idx[j])
      && (forall p :: 0 <= p < |order| && order[p] in drones && drones[order[p]].status == Flying ==> p in idx)
  {
    if |order| == 0 {
      idx := [];
    } else {
      var init, last := order[..|order| - 1], order[|order| - 1];
      var rest := FlyingIdsInOrder(init, drones);
      assert forall p :: 0 <= p < |init| ==> init[p] == order[p];
      if last in drones && drones[last].status == Flying {
        idx := rest + [|order| - 1];
      } else {
        idx := rest;
      }
    }
  }

  /** Every flying id is a key of the table. */
  lemma FlyingIdsKnown(order: seq<string>, drones: map<string, DroneState>)
    ensures forall k :: k in FlyingIds(order, drones) ==> k in drones
  {
    forall k | k in FlyingIds(order, drones)
      ensures k in drones
    {
      FlyingIdsMembers(order, drones, k);
    }
  }

  /** Over a table whose order lists its keys, there are no flying ids exactly
      when no drone is flying. */
  lemma FlyingIdsEmpty(order: seq<string>, drones: map<string, DroneState>)
    requires forall k :: k in order <==> k in drones
    ensures |FlyingIds(order, drones)| == 0 <==> forall k :: k in drones ==> drones[k].status != Flying
  {
    var flying := FlyingIds(order, drones);
    if |flying| > 0 {
      FlyingIdsMembers(order, drones, flying[0]);
    }
    forall k | k in drones && drones[k].status == Flying
      ensures |flying| > 0
    {
      FlyingIdsMembers(order, drones, k);
    }
  }

  predicate Distinct(s: seq<string>)
  {
    forall i, j :: 0 <= i < j < |s| ==> s[i] != s[j]
  }

  /** Filtering keeps a sequence free of repetitions. */
  lemma {:induction false} FlyingIdsDistinct(order: seq<string>, drones: map<string, DroneState>)
    requires Distinct(order)
    ensures Distinct(FlyingIds(order, drones))
  {
    if |order| > 0 {
      var init, last := order[..|order| - 1], order[|order| - 1];
      assert Distinct(init);
      FlyingIdsDistinct(init, drones);
      FlyingIdsMembers(init, drones, last);
      assert last !in init;
    }
  }

  /** The filter of `NewIds` keeps a sequence free of repetitions. */
  lemma {:induction false} NewIdsDistinct(known: set<string>, ids: seq<string>)
    requires Distinct(ids)
    ensures Distinct(NewIds(known, ids))
  {
    if |ids| > 0 {
      var init, last := ids[..|ids| - 1], ids[|ids| - 1];
      assert Distinct(init);
      NewIdsDistinct(known, init);
      NewIdsMembers(known, init, last);
      assert last !in init;
    }
  }

  /** `added` is `ids` filtered in place, keeping the ids not in `known`: the
      `i`-th of `added` sits at position `idx[i]` of `ids`, the positions
      increase, and every position holding an unknown id is among them. */
  ghost predicate FilterIndex(idx: seq<nat>, ids: seq<string>, added: seq<string>, known: set<string>)
  {
    && |idx| == |added|
    && (forall i :: 0 <= i < |idx| ==> idx[i] < |ids| && ids[idx[i]] == added[i])
    && (forall i, j :: 0 <= i < j < |idx| ==> idx[i] < idx[j])
    && (forall p :: 0 <= p < |ids| && ids[p] !in known ==> p in idx)
  }

  /** Appending one id extends the filtering, by its position when it is
      unknown. */
  lemma FilterIndexExtend(idx: seq<nat>, ids: seq<string>, added: seq<string>, known: set<string>, last: string)
    requires FilterIndex(idx, ids, added, known)
    ensures last !in known ==> FilterIndex(idx + [|ids|], ids + [last], added + [last], known)
    ensures last in known ==> FilterIndex(idx, ids + [last], added, known)
  {
    var ids' := ids + [last];
    assert forall p :: 0 <= p < |ids| ==> ids'[p] == ids[p];
  }

  /** `NewIds` is `ids` filtered in place: the added keys are the unknown ids,
      in assignment order. */
  lemma {:induction false} NewIdsInOrder(known: set<string>, ids: seq<string>)
    returns (idx: seq<nat>)
    ensures FilterIndex(idx, ids, NewIds(known, ids), known)
  {
    if |ids| == 0 {
      idx := [];
    } else {
      var init, last := ids[..|ids| - 1], ids[|ids| - 1];
      var rest := NewIdsInOrder(known, init);
      FilterIndexExtend(rest, init, NewIds(known, init), known, last);
      assert init + [last] == ids;
      idx := if last in known then rest else rest + [|init|];
    }
  }

  /** When none of the ids is known, every one of them is added, in order. */
  lemma {:induction false} NewIdsFresh(known: set<string>, ids: seq<string>)
    requires forall k :: 0 <= k < |ids| ==> ids[k] !in known
    ensures NewIds(known, ids) == ids
  {
    if |ids| > 0 {
      var init := ids[..|ids| - 1];
      NewIdsFresh(known, init);
      assert ids == init + [ids[|ids| - 1]];
    }
  }

  /** The ids of a swarm have no repetitions. */
  lemma SwarmIdsAreDistinct(count: int)
    ensures Distinct(SwarmIds(count))
  {
    forall i, j | 0 <= i < j < |SwarmIds(count)|
      ensures SwarmIds(count)[i] != SwarmIds(count)[j]
    {
      SwarmIdsDistinct(count, i, j);
    }
  }

  /** A well-formed table: `order` lists every key once, each drone is stored
      under its own id, and every battery is in [0, 100]. */
  ghost predicate TableValid(drones: map<string, DroneState>, order: seq<string>)
  {
    && Distinct(order)
    && (forall k :: k in order <==> k in drones)
    && (forall k :: k in drones ==> drones[k].id == k && 0.0 <= drones[k].battery <= 100.0)
  }

  /** The table `create_swarm` builds: the new drones of the run under their
      ids, overriding any old entry. */
  function AddDrones(drones: map<string, DroneState>, ids: seq<string>, runId: string): (table: map<string, DroneState>)
    ensures table.Keys == drones.Keys + set k | k in ids
  {
    drones + map k | k in ids :: NewDrone(k, runId)
  }

  /** A well-formed table is empty exactly when its order is. */
  lemma EmptyTableOrder(drones: map<string, DroneState>, order: seq<string>)
    requires TableValid(drones, order)
    ensures order == [] <==> drones == map[]
  {
    if order != [] {
      assert order[0] in order;
    }
    if drones != map[] {
      var k :| k in drones;
      assert k in order;
    }
  }

  /** On an empty table the assignments append every id, in order. */
  lemma EmptyTableNewIds(drones: map<string, DroneState>, order: seq<string>, ids: seq<string>)
    requires TableValid(drones, order) && drones == map[]
    ensures order + NewIds(drones.Keys, ids) == ids
  {
    EmptyTableOrder(drones, order);
    NewIdsFresh(drones.Keys, ids);
  }

  /** The next swarm id extends the ids so far and is not among them. */
  lemma SwarmIdFresh(i: nat)
    ensures SwarmIds(i + 1) == SwarmIds(i) + [DroneId(i + 1)]
    ensures DroneId(i + 1) !in SwarmIds(i)
  {
    forall m | 0 <= m < i
      ensures SwarmIds(i)[m] != DroneId(i + 1)
    {
      assert SwarmIds(i)[m] == SwarmIds(i + 1)[m];
      SwarmIdsDistinct(i + 1, m, i);
    }
  }

  /** Adding new drones under their own ids, and appending the ids not yet in the
      table to the order, keeps a table well formed. */
  lemma AddDronesValid(drones: map<string, DroneState>, order: seq<string>, ids: seq<string>, runId: string)
    requires TableValid(drones, order) && Distinct(ids)
    ensures TableValid(AddDrones(drones, ids, runId), order + NewIds(drones.Keys, ids))
  {
    var added := NewIds(drones.Keys, ids);
    NewIdsDistinct(drones.Keys, ids);
    forall x | x in order
      ensures x !in added
    {
      NewIdsMembers(drones.Keys, ids, x);
    }
    DistinctConcat(order, added);
    AddDronesKeys(drones, order, ids, runId);
    AddDronesRecords(drones, ids, runId);
  }

  lemma AddDronesKeys(drones: map<string, DroneState>, order: seq<string>, ids: seq<string>, runId: string)
    requires forall k :: k in order <==> k in drones
    ensures forall k :: k in order + NewIds(drones.Keys, ids) <==> k in AddDrones(drones, ids, runId)
  {
    var added := NewIds(drones.Keys, ids);
    forall k
      ensures k in order + added <==> k in AddDrones(drones, ids, runId)
    {
      assert k in order + added <==> k in order || k in added;
      NewIdsMembers(drones.Keys, ids, k);
    }
  }

  lemma AddDronesRecords(drones: map<string, DroneState>, ids: seq<string>, runId: string)
    requires forall k :: k in drones ==> drones[k].id == k && 0.0 <= drones[k].battery <= 100.0
    ensures var table := AddDrones(drones, ids, runId);
      forall k :: k in table ==> table[k].id == k && 0.0 <= table[k].battery <= 100.0
  {
    var table := AddDrones(drones, ids, runId);
    forall k | k in table
      ensures table[k].id == k && 0.0 <= table[k].battery <= 100.0
    {
      if k in ids {
        assert table[k] == NewDrone(k, runId);
      } else {
        assert table[k] == drones[k];
      }
    }
  }

  /** One assignment of the loop in `create_swarm`: the table gains the new
      drone, ... */
  lemma AddDronesStep(drones: map<string, DroneState>, ids: seq<string>, id: string, runId: string)
    ensures AddDrones(drones, ids + [id], runId) == AddDrones(drones, ids, runId)[id := NewDrone(id, runId)]
  {
    var before, after := AddDrones(drones, ids, runId), AddDrones(drones, ids + [id], runId);
    forall k
      ensures k in after <==> k in before || k == id
    {
      assert k in ids + [id] <==> k in ids || k == id;
    }
    forall k | k in after
      ensures after[k] == before[id := NewDrone(id, runId)][k]
    {
      assert k in ids + [id] <==> k in ids || k == id;
    }
  }

  /** The keys of the table `create_swarm` builds. */
  lemma AddDronesKeysOf(drones: map<string, DroneState>, ids: seq<string>, id: string, runId: string)
    ensures id in AddDrones(drones, ids, runId) <==> id in drones || id in ids
  {
  }

  /** ... and the order gains its id when it was not there. */
  lemma NewIdsStep(known: set<string>, ids: seq<string>, id: string)
    ensures NewIds(known, ids + [id]) == NewIds(known, ids) + (if id in known then [] else [id])
  {
    assert (ids + [id])[..|ids|] == ids;
  }

  lemma AppendAssociates<T>(a: seq<T>, b: seq<T>, c: seq<T>)
    ensures a + (b + c) == a + b + c
  {
  }

  /** Extending a prefix by one element. */
  lemma PrefixStep<T>(s: seq<T>, i: nat)
    requires i < |s|
    ensures forall x :: x in s[..i + 1] <==> x in s[..i] || x == s[i]
  {
    assert s[..i + 1] == s[..i] + [s[i]];
  }

  /** In a repetition-free sequence no element occurs before its own place. */
  lemma NotInPrefix(s: seq<string>, i: nat)
    requires Distinct(s) && i < |s|
    ensures s[i] !in s[..i]
  {
  }

  /** Two repetition-free sequences with no common element concatenate to one. */
  lemma DistinctConcat(a: seq<string>, b: seq<string>)
    requires Distinct(a) && Distinct(b)
    requires forall x :: x in a ==> x !in b
    ensures Distinct(a + b)
  {
    var all := a + b;
    forall i, j | 0 <= i < j < |all|
      ensures all[i] != all[j]
    {
      if j < |a| {
        assert all[i] == a[i] && all[j] == a[j];
      } else if i >= |a| {
        assert all[i] == b[i - |a|] && all[j] == b[j - |a|];
      } else {
        assert all[i] == a[i] && all[j] == b[j - |a|];
        assert a[i] in a;
      }
    }
  }

  /** The table after the loop of `set_formation` has run `n` times: drone
      `ids[i]` has target `positions[i]` for each `i < n`. */
  function Retargeted(drones: map<string, DroneState>, ids: seq<string>, positions: seq<Point>, n: nat)
    : (table: map<string, DroneState>)
    requires n <= |ids| && n <= |positions| && forall k :: k in ids ==> k in drones
    ensures table.Keys == drones.Keys
  {
    if n == 0 then drones
    else
      var before := Retargeted(drones, ids, positions, n - 1);
      before[ids[n - 1] := before[ids[n - 1]].(target := positions[n - 1])]
  }

  /** Each of the first `n` drones ends up with its own point as target ... */
  lemma {:induction false} RetargetedAssigns(drones: map<string, DroneState>, ids: seq<string>, positions: seq<Point>,
                                             n: nat, m: nat)
    requires n <= |ids| && n <= |positions| && forall k :: k in ids ==> k in drones
    requires Distinct(ids) && m < n
    ensures Retargeted(drones, ids, positions, n)[ids[m]] == drones[ids[m]].(target := positions[m])
  {
    if m < n - 1 {
      RetargetedAssigns(drones, ids, positions, n - 1, m);
    } else {
      RetargetedFrame(drones, ids, positions, n - 1, ids[m]);
    }
  }

  /** ... and every other drone is left as it was. */
  lemma {:induction false} RetargetedFrame(drones: map<string, DroneState>, ids: seq<string>, positions: seq<Point>,
                                           n: nat, k: string)
    requires n <= |ids| && n <= |positions| && forall k :: k in ids ==> k in drones
    requires k in drones && k !in ids[..n]
    ensures Retargeted(drones, ids, positions, n)[k] == drones[k]
  {
    if n > 0 {
      assert ids[..n - 1] == ids[..n][..n - 1];
      assert k != ids[n - 1] by {
        assert ids[n - 1] == ids[..n][n - 1];
      }
      RetargetedFrame(drones, ids, positions, n - 1, k);
    }
  }

  /** Only targets change: ids and batteries stay as they were ... */
  lemma {:induction false} RetargetedKeepsRecords(drones: map<string, DroneState>, ids: seq<string>,
                                                  positions: seq<Point>, n: nat, k: string)
    requires n <= |ids| && n <= |positions| && forall k :: k in ids ==> k in drones
    requires k in drones
    ensures var table := Retargeted(drones, ids, positions, n);
      table[k].id == drones[k].id && table[k].battery == drones[k].battery
  {
    if n > 0 {
      RetargetedKeepsRecords(drones, ids, positions, n - 1, k);
    }
  }

  /** ... so the table stays well formed. */
  lemma RetargetedValid(drones: map<string, DroneState>, order: seq<string>, ids: seq<string>,
                        positions: seq<Point>, n: nat)
    requires n <= |ids| && n <= |positions| && forall k :: k in ids ==> k in drones
    requires TableValid(drones, order)
    ensures TableValid(Retargeted(drones, ids, positions, n), order)
  {
    var table := Retargeted(drones, ids, positions, n);
    forall k | k in table
      ensures table[k].id == k && 0.0 <= table[k].battery <= 100.0
    {
      RetargetedKeepsRecords(drones, ids, positions, n, k);
    }
  }

  // ---------------------------------------------------------------------------
  // The simulator

  class DroneSimulator {

    /** `self.drones`; `order` is the dictionary's insertion order, which the
        loops over `self.drones.values()` follow. */
    var drones: map<string, DroneState>
    var order: seq<string>

    ghost predicate Valid()
      reads this
    {
      TableValid(drones, order)
    }

    /** `__init__`: an empty table. */
    constructor ()
      ensures Valid()
      ensures drones == map[] && order == []
    {
      drones := map[];
      order := [];
    }

    /** `create_swarm`: ids `d1` .. `d<count>`, in order, each mapped to a new
        idle drone of the run; ids already in the table are overwritten and keep
        their place in the table order, new ones are appended. */
    method CreateSwarm(count: int, runId: string) returns (ids: seq<string>)
      requires Valid()
      modifies this
      ensures Valid()
      ensures ids == SwarmIds(count)
      ensures drones == AddDrones(old(drones), ids, runId)
      ensures order == old(order) + NewIds(old(drones).Keys, ids)
      ensures old(drones) == map[] ==> order == ids
    {
      var n := if count > 0 then count else 0;
      var table, keys := drones, order;
      ids := [];
      SwarmIdsAreDistinct(n);
      for i := 0 to n
        invariant unchanged(this)
        invariant ids == SwarmIds(i)
        invariant table == AddDrones(drones, ids, runId)
        invariant keys == order + NewIds(drones.Keys, ids)
      {
        var droneId := DroneId(i + 1);
        SwarmIdFresh(i);
        AddDronesStep(drones, ids, droneId, runId);
        NewIdsStep(drones.Keys, ids, droneId);
        AddDronesKeysOf(drones, ids, droneId, runId);
        if droneId !in table {
          AppendAssociates(order, NewIds(drones.Keys, ids), [droneId]);
          keys := keys + [droneId];
        } else {
          assert NewIds(drones.Keys, ids) + [] == NewIds(drones.Keys, ids);
        }
        table := table[droneId := NewDrone(droneId, runId)];
        ids := ids + [droneId];
      }
      assert SwarmIds(count) == SwarmIds(n);
      AddDronesValid(drones, order, ids, runId);
      if drones == map[] {
        EmptyTableNewIds(drones, order, ids);
      }
      drones, order := table, keys;
    }

    /** `takeoff`: only a known idle drone accepts it; it then starts taking off
        at `now` towards `height` over `duration` seconds. Otherwise nothing
        changes. */
    method Takeoff(droneId: string, height: real, duration: real, now: real) returns (ok: bool)
      requires Valid()
      modifies this
      ensures Valid()
      ensures ok <==> droneId in old(drones) && old(drones)[droneId].status == Idle
      ensures ok ==> drones == old(drones)[droneId := old(drones)[droneId].(
        status := TakingOff, takeoffHeight := height, takeoffDuration := duration, takeoffStart := now)]
      ensures !ok ==> drones == old(drones)
      ensures order == old(order)
    {
      if droneId !in drones {
        return false;
      }
      var drone := drones[droneId];
      if drone.status != Idle {
        return false;
      }
      drones := drones[droneId := drone.(
        status := TakingOff, takeoffHeight := height, takeoffDuration := duration, takeoffStart := now)];
      return true;
    }

    /** `goto`: a known drone that is flying or taking off gets the new target;
        the speed argument is ignored, as in the source. Otherwise nothing
        changes. */
    method Goto(droneId: string, x: real, y: real, z: real, speed: real) returns (ok: bool)
      requires Valid()
      modifies this
      ensures Valid()
      ensures ok <==> droneId in old(drones) && old(drones)[droneId].status in {Flying, TakingOff}
      ensures ok ==> drones == old(drones)[droneId := old(drones)[droneId].(target := Point(x, y, z))]
      ensures !ok ==> drones == old(drones)
      ensures order == old(order)
    {
      if droneId !in drones {
        return false;
      }
      var drone := drones[droneId];
      if drone.status !in {Flying, TakingOff} {
        return false;
      }
      drones := drones[droneId := drone.(target := Point(x, y, z))];
      return true;
    }

    /** `land`: a known drone that is flying or taking off starts landing at
        `now`. Otherwise nothing changes. */
    method Land(droneId: string, now: real) returns (ok: bool)
      requires Valid()
      modifies this
      ensures Valid()
      ensures ok <==> droneId in old(drones) && old(drones)[droneId].status in {Flying, TakingOff}
      ensures ok ==> drones == old(drones)[droneId := old(drones)[droneId].(status := Landing, landStart := now)]
      ensures !ok ==> drones == old(drones)
      ensures order == old(order)
    {
      if droneId !in drones {
        return false;
      }
      var drone := drones[droneId];
      if drone.status !in {Flying, TakingOff} {
        return false;
      }
      drones := drones[droneId := drone.(status := Landing, landStart := now)];
      return true;
    }

    /** `emergency_stop`: every drone stops and becomes idle where it is. */
    method EmergencyStop()
      requires Valid()
      modifies this
      ensures Valid()
      ensures drones == map k | k in old(drones) :: Stopped(old(drones)[k])
      ensures order == old(order)
    {
      var table := drones;
      for i := 0 to |order|
        invariant unchanged(this) && table.Keys == drones.Keys
        invariant forall k :: k in table ==>
          table[k] == if k in order[..i] then Stopped(drones[k]) else drones[k]
      {
        var droneId := order[i];
        NotInPrefix(order, i);
        PrefixStep(order, i);
        table := table[droneId := Stopped(table[droneId])];
      }
      assert forall k :: k in order[..|order|] <==> k in order;
      drones := table;
    }

    /** The dictionary part of `reset`: the table is emptied. */
    method Reset()
      modifies this
      ensures Valid()
      ensures drones == map[] && order == []
    {
      drones := map[];
      order := [];
    }

    /** `_update_drones` at time `now`, with `noise(id)` the sensor noise drawn
        for drone `id`: every drone takes one tick. */
    method UpdateDrones(sqrt: real -> real, now: real, noise: string -> Noise)
      requires Valid()
      requires forall k :: k in drones && drones[k].status == TakingOff ==> TakeoffDefined(drones[k], now)
      modifies this
      ensures Valid()
      ensures drones == map k | k in old(drones) :: Tick(sqrt, old(drones)[k], now, noise(k))
      ensures order == old(order)
    {
      var table := drones;
      for i := 0 to |order|
        invariant unchanged(this) && table.Keys == drones.Keys
        invariant forall k :: k in table ==>
          table[k] == if k in order[..i] then Tick(sqrt, drones[k], now, noise(k)) else drones[k]
      {
        var droneId := order[i];
        NotInPrefix(order, i);
        PrefixStep(order, i);
        table := table[droneId := Tick(sqrt, table[droneId], now, noise(droneId))];
      }
      assert forall k :: k in order[..|order|] <==> k in order;
      forall k | k in table
        ensures table[k].id == k && 0.0 <= table[k].battery <= 100.0
      {
        TickDrainsBattery(sqrt, drones[k], now, noise(k));
        TickFrame(sqrt, drones[k], now, noise(k));
      }
      drones := table;
    }

    /** `set_formation`: false, changing nothing, when no drone is flying
        (`FlyingIdsEmpty`); otherwise the `i`-th flying drone in table order gets
        the `i`-th point of the formation for that many drones as its target,
        while there are points (`RetargetedAssigns`, `RetargetedFrame`). */
    method SetFormation(cos: real -> real, sin: real -> real, formation: string, parameters: map<string, real>)
      returns (ok: bool)
      requires Valid()
      modifies this
      ensures Valid()
      ensures var flying := FlyingIds(old(order), old(drones));
        var positions := FormationPositions(cos, sin, formation, |flying|, parameters);
        && (ok <==> |flying| > 0)
        && (forall k :: k in flying ==> k in old(drones))
        && drones == Retargeted(old(drones), flying, positions,
                                if |positions| < |flying| then |positions| else |flying|)
      ensures order == old(order)
    {
      var flying := FlyingIds(order, drones);
      FlyingIdsKnown(order, drones);
      if |flying| == 0 {
        return false;
      }
      var positions := CalculateFormationPositions(cos, sin, formation, |flying|, parameters);
      AssignTargets(flying, positions);
      return true;
    }

    /** The loop of `set_formation`. */
    method AssignTargets(ids: seq<string>, positions: seq<Point>)
      requires Valid()
      requires forall k :: k in ids ==> k in drones
      modifies this
      ensures Valid()
      ensures drones == Retargeted(old(drones), ids, positions,
                                   if |positions| < |ids| then |positions| else |ids|)
      ensures order == old(order)
    {
      var bound := if |positions| < |ids| then |positions| else |ids|;
      var table := drones;
      for i := 0 to bound
        invariant unchanged(this)
        invariant table == Retargeted(drones, ids, positions, i)
      {
        var drone := table[ids[i]];
        table := table[ids[i] := drone.(target := positions[i])];
      }
      RetargetedValid(drones, order, ids, positions, bound);
      drones := table;
    }
  }
}
