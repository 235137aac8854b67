// Train systems: TrainSystem.java, with the parts of TrainSystemInformation.java its equality uses.
module Systems {
  import opened Common
  import opened Graph
  import opened Stations
  import opened Trains

  /** What identifies a train system: its name, and the colour it is drawn in. */
  datatype TrainSystemInfo = TrainSystemInfo(name: string, color: string)

  /** One planned passenger trip: when and where the passenger enters the system. */
  class Trip {
    /** The entry time, as a second of the day. */
    const entryTime: nat
    const entryStation: Station

    constructor (entryTime: nat, entryStation: Station)
      ensures this.entryTime == entryTime && this.entryStation == entryStation
    {
      this.entryTime := entryTime;
      this.entryStation := entryStation;
    }
  }

  /** The station names of the passenger list that differ from the names of the stations, and the names they stand for. */
  const ALIASES: map<string, string> := map[
    "V. Cruz" := "Vito Cruz",
    "A. Santos" := "Abad Santos",
    "Edsa" := "EDSA",
    "P. Quirino" := "Quirino",
    "P. Gil" := "Pedro Gil",
    "Monumento" := "Yamaha Monumento",
    "Boni" := "Boni Avenue",
    "Shaw Blvd" := "Shaw Boulevard",
    "Araneta-Cubao" := "Cubao",
    "Cubao" := "Araneta Center-Cubao",
    "Betty Go" := "Betty-Go Belmonte"]

  /** The station name a passenger-list name stands for: one rewrite of a known alias. */
  function FixDiscrepancy(name: string): string
  {
    if name == "V. Cruz" then "Vito Cruz"
    else if name == "A. Santos" then "Abad Santos"
    else if name == "Edsa" then "EDSA"
    else if name == "P. Quirino" then "Quirino"
    else if name == "P. Gil" then "Pedro Gil"
    else if name == "Monumento" then "Yamaha Monumento"
    else if name == "Boni" then "Boni Avenue"
    else if name == "Shaw Blvd" then "Shaw Boulevard"
    else if name == "Araneta-Cubao" then "Cubao"
    else if name == "Cubao" then "Araneta Center-Cubao"
    else if name == "Betty Go" then "Betty-Go Belmonte"
    else name
  }

  /** The fix rewrites exactly the eleven aliases, each to its name, and leaves every other name alone. */
  lemma FixDiscrepancyIsAliasLookup(name: string)
    ensures FixDiscrepancy(name) == if name in ALIASES then ALIASES[name] else name
  {
  }

  /** The fix is one step, not a closure: fixing twice can differ from fixing once. */
  lemma FixDiscrepancyNotIdempotent()
    ensures FixDiscrepancy("Araneta-Cubao") == "Cubao"
    ensures FixDiscrepancy(FixDiscrepancy("Araneta-Cubao")) == "Araneta Center-Cubao"
    ensures FixDiscrepancy(FixDiscrepancy("Araneta-Cubao")) != FixDiscrepancy("Araneta-Cubao")
  {
  }

  /** The index of the first station, from `i` on, with the given name. */
  function FindStation(stations: seq<Station>, name: string, i: nat): (r: Option<nat>)
    requires i <= |stations|
    ensures r.Some? ==> i <= r.value < |stations| && stations[r.value].name == name
    ensures r.Some? ==> forall k :: i <= k < r.value ==> stations[k].name != name
    ensures r.None? ==> forall k :: i <= k < |stations| ==> stations[k].name != name
    decreases |stations| - i
  {
    if i == |stations| then None
    else if stations[i].name == name then Some(i)
    else FindStation(stations, name, i + 1)
  }

  /** The trips of `ts` that enter at time `t`, in order. */
  function AtTime(ts: seq<Trip>, t: nat): (r: seq<Trip>)
  {
    if ts == [] then []
    else AtTime(ts[..|ts| - 1], t) + (if ts[|ts| - 1].entryTime == t then [ts[|ts| - 1]] else [])
  }

  /** The trips of `ts` that do not enter at time `t`, in order. */
  function NotAtTime(ts: seq<Trip>, t: nat): (r: seq<Trip>)
  {
    if ts == [] then []
    else NotAtTime(ts[..|ts| - 1], t) + (if ts[|ts| - 1].entryTime != t then [ts[|ts| - 1]] else [])
  }

  /** The trips of `ts` that enter at station `s`, in order. */
  function AtStation(ts: seq<Trip>, s: Station): (r: seq<Trip>)
  {
    if ts == [] then []
    else AtStation(ts[..|ts| - 1], s) + (if ts[|ts| - 1].entryStation == s then [ts[|ts| - 1]] else [])
  }

  /** `List.removeAll`: the list without every element that is in `gone`. */
  function RemoveAll<T(==)>(list: seq<T>, gone: seq<T>): (r: seq<T>)
    ensures |r| <= |list|
  {
    if list == [] then []
    else (if list[0] in gone then [] else [list[0]]) + RemoveAll(list[1..], gone)
  }

  /** The time filters keep exactly the trips that pass them. */
  lemma {:induction false} TimeFiltersKeep(ts: seq<Trip>, t: nat, x: Trip)
    ensures x in AtTime(ts, t) <==> x in ts && x.entryTime == t
    ensures x in NotAtTime(ts, t) <==> x in ts && x.entryTime != t
  {
    if ts != [] {
      var init := ts[..|ts| - 1];
      TimeFiltersKeep(init, t, x);
      assert ts == init + [ts[|ts| - 1]];
    }
  }

  /** The station filter keeps exactly the trips that enter at the station. */
  lemma {:induction false} StationFilterKeeps(ts: seq<Trip>, s: Station, x: Trip)
    ensures x in AtStation(ts, s) <==> x in ts && x.entryStation == s
  {
    if ts != [] {
      var init := ts[..|ts| - 1];
      StationFilterKeeps(init, s, x);
      assert ts == init + [ts[|ts| - 1]];
    }
  }

  /** `RemoveAll` keeps exactly the elements that are not to go. */
  lemma {:induction false} RemoveAllKeeps<T>(list: seq<T>, gone: seq<T>, x: T)
    ensures x in RemoveAll(list, gone) <==> x in list && x !in gone
  {
    if list != [] {
      RemoveAllKeeps(list[1..], gone, x);
      assert list == [list[0]] + list[1..];
    }
  }

  /** `List.remove`: the list without the first occurrence of `x`, if any. */
  function RemoveFirst<T(==)>(list: seq<T>, x: T): (r: seq<T>)
    ensures x !in list ==> r == list
    ensures x in list ==> |r| == |list| - 1 && multiset(r) == multiset(list) - multiset{x}
  {
    if list == [] then []
    else if list[0] == x then
      assert list == [x] + list[1..];
      list[1..]
    else
      assert list == [list[0]] + list[1..];
      [list[0]] + RemoveFirst(list[1..], x)
  }

  /** The length of the leading run of trips that enter before `start`. */
  function LeadingBefore(ts: seq<Trip>, start: nat): (n: nat)
    ensures n <= |ts|
    ensures forall k :: 0 <= k < n ==> ts[k].entryTime < start
    ensures n < |ts| ==> ts[n].entryTime >= start
  {
    if ts == [] || ts[0].entryTime >= start then 0 else LeadingBefore(ts[1..], start) + 1
  }

  /** How far the spawn scan reads: up to the first trip that enters after `now`. */
  function ScanEnd(ts: seq<Trip>, now: nat): (n: nat)
    ensures n <= |ts|
    ensures forall k :: 0 <= k < n ==> ts[k].entryTime <= now
    ensures n < |ts| ==> ts[n].entryTime > now
  {
    if ts == [] || ts[0].entryTime > now then 0 else ScanEnd(ts[1..], now) + 1
  }

  /** The trips grouped by entry station, each group in list order. */
  function Group(ts: seq<Trip>): map<Station, seq<Trip>>
  {
    if ts == [] then map[]
    else
      var g := Group(ts[..|ts| - 1]);
      var t := ts[|ts| - 1];
      g[t.entryStation := (if t.entryStation in g then g[t.entryStation] else []) + [t]]
  }

  /**
   * The groups are keyed by exactly the stations some trip enters at, and the group of a
   * station is the trips entering there, in list order.
   */
  lemma {:induction false} GroupByStation(ts: seq<Trip>)
    ensures forall s :: s in Group(ts) <==> exists k :: 0 <= k < |ts| && ts[k].entryStation == s
    ensures forall s :: s in Group(ts) ==> Group(ts)[s] == AtStation(ts, s)
  {
    if ts != [] {
      var init := ts[..|ts| - 1];
      GroupByStation(init);
      forall s
        ensures s in Group(ts) <==> exists k :: 0 <= k < |ts| && ts[k].entryStation == s
      {
        if s in Group(init) {
          var k :| 0 <= k < |init| && init[k].entryStation == s;
          assert ts[k] == init[k];
        }
        if exists k :: 0 <= k < |ts| && ts[k].entryStation == s {
          var k :| 0 <= k < |ts| && ts[k].entryStation == s;
          if k < |init| {
            assert init[k] == ts[k];
          }
        }
      }
      forall s | s in Group(ts)
        ensures Group(ts)[s] == AtStation(ts, s)
      {
        var t := ts[|ts| - 1];
        if s == t.entryStation {
          if s !in Group(init) {
            AtStationNone(init, s);
          }
          assert AtStation(ts, s) == AtStation(init, s) + [t];
        } else {
          assert AtStation(ts, s) == AtStation(init, s);
        }
      }
    }
  }

  /** No trip enters at a station no trip of the list names. */
  lemma {:induction false} AtStationNone(ts: seq<Trip>, s: Station)
    requires forall k :: 0 <= k < |ts| ==> ts[k].entryStation != s
    ensures AtStation(ts, s) == []
  {
    if ts != [] {
      AtStationNone(ts[..|ts| - 1], s);
    }
  }

  /** Grouping one more trip adds it at the end of its station's group. */
  lemma GroupSnoc(ts: seq<Trip>, t: Trip)
    ensures Group(ts + [t]) ==
              Group(ts)[t.entryStation := (if t.entryStation in Group(ts) then Group(ts)[t.entryStation] else []) + [t]]
  {
    assert (ts + [t])[..|ts|] == ts;
  }

  /** Reading one more trip of the list extends the trips due at `now` by that trip when it is due. */
  lemma AtTimeSnoc(ts: seq<Trip>, i: nat, now: nat)
    requires i < |ts|
    ensures AtTime(ts[..i + 1], now) == AtTime(ts[..i], now) + (if ts[i].entryTime == now then [ts[i]] else [])
  {
    assert ts[..i + 1][..i] == ts[..i];
  }

  /** Removing what a list splits into removes from each part. */
  lemma {:induction false} RemoveAllAppend<T>(a: seq<T>, b: seq<T>, gone: seq<T>)
    ensures RemoveAll(a + b, gone) == RemoveAll(a, gone) + RemoveAll(b, gone)
  {
    if a == [] {
      assert a + b == b;
    } else {
      var ab := a + b;
      assert ab[0] == a[0] && ab[1..] == a[1..] + b;
      calc {
        RemoveAll(ab, gone);
        (if a[0] in gone then [] else [a[0]]) + RemoveAll(a[1..] + b, gone);
        { RemoveAllAppend(a[1..], b, gone); }
        (if a[0] in gone then [] else [a[0]]) + (RemoveAll(a[1..], gone) + RemoveAll(b, gone));
      }
    }
  }

  /** Removing nothing that is in the list leaves it as it is. */
  lemma {:induction false} RemoveAllNone<T>(list: seq<T>, gone: seq<T>)
    requires forall x :: x in list ==> x !in gone
    ensures RemoveAll(list, gone) == list
  {
    if list != [] {
      RemoveAllNone(list[1..], gone);
    }
  }

  /** Removing every element of a list leaves nothing. */
  lemma {:induction false} RemoveAllEvery<T>(list: seq<T>, gone: seq<T>)
    requires forall x :: x in list ==> x in gone
    ensures RemoveAll(list, gone) == []
  {
    if list != [] {
      RemoveAllEvery(list[1..], gone);
    }
  }

  /** Removing the trips of a given time, found in the list itself, keeps the others in order. */
  lemma {:induction false} RemoveAllAtTime(ts: seq<Trip>, gone: seq<Trip>, t: nat)
    requires forall x :: x in ts ==> (x in gone <==> x.entryTime == t)
    ensures RemoveAll(ts, gone) == NotAtTime(ts, t)
  {
    if ts != [] {
      var init := ts[..|ts| - 1];
      RemoveAllAtTime(init, gone, t);
      assert ts == init + [ts[|ts| - 1]];
      RemoveAllAppend(init, [ts[|ts| - 1]], gone);
    }
  }

  /** The parts of a list with no object twice have no object in common. */
  lemma DistinctParts<T>(list: seq<T>, n: nat, x: T)
    requires Distinct(list) && n <= |list|
    requires x in list[n..]
    ensures x !in list[..n]
  {
    var j :| n <= j < |list| && list[j] == x;
    forall i | 0 <= i < n
      ensures list[..n][i] != x
    {
      assert list[..n][i] == list[i] != list[j];
    }
  }

  /**
   * With no trip twice in the list, dropping the leading early trips leaves exactly the list
   * from the first trip that is not early.
   */
  lemma DropLeading(ts: seq<Trip>, start: nat)
    requires Distinct(ts)
    ensures RemoveAll(ts, ts[..LeadingBefore(ts, start)]) == ts[LeadingBefore(ts, start)..]
  {
    var n := LeadingBefore(ts, start);
    assert ts == ts[..n] + ts[n..];
    RemoveAllAppend(ts[..n], ts[n..], ts[..n]);
    RemoveAllEvery(ts[..n], ts[..n]);
    forall x | x in ts[n..]
      ensures x !in ts[..n]
    {
      DistinctParts(ts, n, x);
    }
    RemoveAllNone(ts[n..], ts[..n]);
  }

  /**
   * With no trip twice in the list, spawning at `now` removes exactly the scanned trips that
   * enter at `now`: the scanned part keeps its other trips in order, and everything after the
   * first later trip stays.
   */
  lemma SpawnLeaves(ts: seq<Trip>, now: nat)
    requires Distinct(ts)
    ensures var e := ScanEnd(ts, now);
            RemoveAll(ts, AtTime(ts[..e], now)) == NotAtTime(ts[..e], now) + ts[e..]
  {
    var e := ScanEnd(ts, now);
    var gone := AtTime(ts[..e], now);
    assert ts == ts[..e] + ts[e..];
    RemoveAllAppend(ts[..e], ts[e..], gone);
    forall x | x in ts[..e]
      ensures x in gone <==> x.entryTime == now
    {
      TimeFiltersKeep(ts[..e], now, x);
    }
    RemoveAllAtTime(ts[..e], gone, now);
    forall x | x in ts[e..]
      ensures x !in gone
    {
      TimeFiltersKeep(ts[..e], now, x);
      DistinctParts(ts, e, x);
    }
    RemoveAllNone(ts[e..], gone);
  }

  /** A train system: its stations, its trains, its depot and the trips still to spawn. */
  class TrainSystem {
    const info: TrainSystemInfo
    var stations: seq<Station>
    var inactiveTrains: seq<Train>
    var activeTrains: seq<Train>
    /** The platform hub of the depot, once set. */
    var depot: Option<PlatformHub>
    /** The trips to spawn, in entry order as the passenger list gives them. */
    var passengerList: seq<Trip>

    constructor (info: TrainSystemInfo)
      ensures this.info == info && depot.None?
      ensures stations == [] && inactiveTrains == [] && activeTrains == [] && passengerList == []
    {
      this.info := info;
      stations := [];
      inactiveTrains := [];
      activeTrains := [];
      depot := None;
      passengerList := [];
    }

    method SetDepot(depot: PlatformHub)
      modifies this`depot
      ensures this.depot == Some(depot)
    {
      this.depot := Some(depot);
    }

    /** `getStations().addAll(list)`: the stations of `list` appended, in order. */
    method AddStations(list: seq<Station>)
      modifies this`stations
      ensures stations == old(stations) + list
    {
      stations := stations + list;
    }

    /** The first station named as the fixed name says, or `None`. */
    function RetrieveStation(name: string): (r: Option<Station>)
      reads this
      ensures r.Some? ==> r.value in stations && r.value.name == FixDiscrepancy(name)
      ensures r.Some? ==> exists i :: 0 <= i < |stations| && stations[i] == r.value &&
                            forall k :: 0 <= k < i ==> stations[k].name != FixDiscrepancy(name)
      ensures r.None? <==> forall k :: 0 <= k < |stations| ==> stations[k].name != FixDiscrepancy(name)
    {
      var i := FindStation(stations, FixDiscrepancy(name), 0);
      if i.Some? then Some(stations[i.value]) else None
    }

    /** Replaces the trips to spawn with the given list. */
    method LoadPassengerList(list: seq<Trip>)
      modifies this`passengerList
      ensures passengerList == list
    {
      passengerList := list;
    }

    /** Removes the leading run of trips that enter before the start time. */
    method RemoveTripsBeforeStartTime(start: nat)
      modifies this`passengerList
      ensures passengerList ==
                RemoveAll(old(passengerList), old(passengerList)[..LeadingBefore(old(passengerList), start)])
      ensures Distinct(old(passengerList)) ==>
                passengerList == old(passengerList)[LeadingBefore(old(passengerList), start)..]
    {
      var toRemove: seq<Trip> := [];
      var i := 0;
      while i < |passengerList| && passengerList[i].entryTime < start
        invariant i <= LeadingBefore(passengerList, start)
        invariant toRemove == passengerList[..i]
      {
        toRemove := toRemove + [passengerList[i]];
        i := i + 1;
      }
      if Distinct(passengerList) {
        DropLeading(passengerList, start);
      }
      passengerList := RemoveAll(passengerList, toRemove);
    }

    /**
     * The trips that enter at `now`, grouped by entry station; the scan stops at the first
     * later trip, and the trips returned are removed from the list.
     */
    method GetPassengersToSpawn(now: nat) returns (spawn: map<Station, seq<Trip>>)
      modifies this`passengerList
      ensures var due := AtTime(old(passengerList)[..ScanEnd(old(passengerList), now)], now);
              spawn == Group(due) && passengerList == RemoveAll(old(passengerList), due)
      ensures var e := ScanEnd(old(passengerList), now);
              Distinct(old(passengerList)) ==>
                passengerList == NotAtTime(old(passengerList)[..e], now) + old(passengerList)[e..]
    {
      var list := passengerList;
      spawn := map[];
      var done: seq<Trip> := [];
      var i := 0;
      ghost var e := ScanEnd(list, now);
      while i < |list| && list[i].entryTime <= now
        invariant i <= e
        invariant done == AtTime(list[..i], now) && spawn == Group(done)
      {
        var trip := list[i];
        if trip.entryTime == now {
          if trip.entryStation !in spawn {
            spawn := spawn[trip.entryStation := []];
          }
          spawn := spawn[trip.entryStation := spawn[trip.entryStation] + [trip]];
          GroupSnoc(done, trip);
          done := done + [trip];
        }
        AtTimeSnoc(list, i, now);
        i := i + 1;
      }
      assert i == e;
      if Distinct(list) {
        SpawnLeaves(list, now);
      }
      passengerList := RemoveAll(list, done);
    }

    /** Two train systems are equal when their information has the same name. */
    predicate Equals(other: TrainSystem)
    {
      this == other || info.name == other.info.name
    }

    /** `Objects.hash` of the information, whose own hash is `Objects.hash` of the name. */
    function HashCode(): (h: int)
      ensures -0x8000_0000 <= h < 0x8000_0000
    {
      ObjectsHash(ObjectsHash(StringHash(info.name)))
    }
  }

  /** `Equals` is an equivalence, and equal systems hash alike. */
  lemma EqualsConsistent(a: TrainSystem, b: TrainSystem, c: TrainSystem)
    ensures a.Equals(a)
    ensures a.Equals(b) ==> b.Equals(a) && a.HashCode() == b.HashCode()
    ensures a.Equals(b) && b.Equals(c) ==> a.Equals(c)
  {
  }

  /** A Java `int`: the value wrapped into 32 bits, two's complement. */
  function Wrap32(x: int): (r: int)
    ensures -0x8000_0000 <= r < 0x8000_0000
    ensures (r - x) % 0x1_0000_0000 == 0
  {
    (x + 0x8000_0000) % 0x1_0000_0000 - 0x8000_0000
  }

  /** `String.hashCode`: s[0]·31^(n-1) + … + s[n-1], in 32-bit arithmetic. */
  function StringHash(s: string): (h: int)
    ensures -0x8000_0000 <= h < 0x8000_0000
  {
    if s == [] then 0 else Wrap32(StringHash(s[..|s| - 1]) * 31 + s[|s| - 1] as int)
  }

  /** `Objects.hash` of one value with hash `h`: 31 + h, in 32-bit arithmetic. */
  function ObjectsHash(h: int): (r: int)
    ensures -0x8000_0000 <= r < 0x8000_0000
    ensures -0x8000_0000 <= h < 0x8000_0000 - 31 ==> r == 31 + h
  {
    Wrap32(31 + h)
  }

  /** A one-letter name hashes to its code, and the system to 62 more than that (31 per `Objects.hash`). */
  lemma HashOfOneLetter(a: TrainSystem)
    requires |a.info.name| == 1
    ensures StringHash(a.info.name) == a.info.name[0] as int
    ensures a.HashCode() == 62 + a.info.name[0] as int
  {
    assert a.info.name[..0] == [];
  }
}
