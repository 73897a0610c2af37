/** Stations and platform booking (src/station.rs). A station is a plain value:
    the graph stores it as a node payload, and the operations that the Rust code
    performs on `self` return the updated station. */
module Stations {
  import opened Ids
  import opened Results
  import opened Trains
  import opened Platforms

  datatype Station = Station(platforms: seq<Platform>, id: u32, name: string)

  datatype PlatformError = Booking

  /** `(count, type)`: `count` platforms of vehicle class `type`. */
  datatype PlatformSpec = PlatformSpec(count: u8, platformType: TrainType)

  /** Number of platforms a list of specs asks for. */
  function SpecTotal(specs: seq<PlatformSpec>): nat
  {
    if specs == [] then 0 else specs[0].count + SpecTotal(specs[1..])
  }

  /** Number of platforms of type `t` a list of specs asks for. */
  function SpecCountOf(specs: seq<PlatformSpec>, t: TrainType): nat
  {
    if specs == [] then 0
    else (if specs[0].platformType == t then specs[0].count else 0) + SpecCountOf(specs[1..], t)
  }

  /** Number of platforms of type `t` in a list. */
  function CountOf(ps: seq<Platform>, t: TrainType): nat
  {
    if ps == [] then 0
    else (if ps[0].platformType == t then 1 else 0) + CountOf(ps[1..], t)
  }

  /** `count` free platforms of type `t` numbered from `first`. */
  function Run(first: nat, count: nat, t: TrainType): (ps: seq<Platform>)
    requires first + count <= 0x100
    ensures |ps| == count
    ensures forall k :: 0 <= k < count ==> ps[k] == NewPlatform(first + k, t)
  {
    seq(count, k requires 0 <= k < count => NewPlatform(first + k, t))
  }

  /** The platforms a station gets from its specs, numbered densely from
      `first` in the order the specs are given. */
  function ExpandSpecs(specs: seq<PlatformSpec>, first: nat): (ps: seq<Platform>)
    requires first + SpecTotal(specs) <= 0x100
    ensures |ps| == SpecTotal(specs)
    ensures forall k :: 0 <= k < |ps| ==> ps[k].id == first + k && !ps[k].occupied
  {
    if specs == [] then []
    else Run(first, specs[0].count, specs[0].platformType)
         + ExpandSpecs(specs[1..], first + specs[0].count)
  }

  lemma {:induction false} SpecTotalAppend(specs: seq<PlatformSpec>, s: PlatformSpec)
    ensures SpecTotal(specs + [s]) == SpecTotal(specs) + s.count
  {
    if specs == [] {
      assert (specs + [s])[1..] == [];
    } else {
      assert (specs + [s])[1..] == specs[1..] + [s];
      SpecTotalAppend(specs[1..], s);
    }
  }

  /** Specs expand in the order they are given: a further spec adds its run
      of platforms, of its own type, right after the earlier ones. */
  lemma {:induction false} ExpandSpecsAppend(specs: seq<PlatformSpec>, s: PlatformSpec, first: nat)
    requires first + SpecTotal(specs) + s.count <= 0x100
    ensures SpecTotal(specs + [s]) == SpecTotal(specs) + s.count
    ensures ExpandSpecs(specs + [s], first)
         == ExpandSpecs(specs, first) + Run(first + SpecTotal(specs), s.count, s.platformType)
  {
    SpecTotalAppend(specs, s);
    if specs == [] {
      assert (specs + [s])[1..] == [];
      assert ExpandSpecs(specs + [s], first) == Run(first, s.count, s.platformType) + [];
    } else {
      var rest := specs[1..];
      assert (specs + [s])[1..] == rest + [s];
      assert (specs + [s])[0] == specs[0];
      SpecTotalAppend(rest, s);
      ExpandSpecsAppend(rest, s, first + specs[0].count);
      var r := Run(first, specs[0].count, specs[0].platformType);
      assert ExpandSpecs(specs + [s], first) == r + ExpandSpecs(rest + [s], first + specs[0].count);
      assert ExpandSpecs(specs, first) == r + ExpandSpecs(rest, first + specs[0].count);
    }
  }

  lemma {:induction false} CountOfAppend(a: seq<Platform>, b: seq<Platform>, t: TrainType)
    ensures CountOf(a + b, t) == CountOf(a, t) + CountOf(b, t)
  {
    if a == [] {
      assert a + b == b;
    } else {
      assert (a + b)[1..] == a[1..] + b;
      CountOfAppend(a[1..], b, t);
    }
  }

  lemma {:induction false} CountOfRun(first: nat, count: nat, t: TrainType, u: TrainType)
    requires first + count <= 0x100
    ensures CountOf(Run(first, count, t), u) == if t == u then count else 0
    decreases count
  {
    if count > 0 {
      var r := Run(first, count, t);
      assert r[1..] == Run(first + 1, count - 1, t);
      CountOfRun(first + 1, count - 1, t, u);
    }
  }

  /** Every spec contributes exactly its count of platforms of its type. */
  lemma {:induction false} ExpandSpecsCountOf(specs: seq<PlatformSpec>, first: nat, t: TrainType)
    requires first + SpecTotal(specs) <= 0x100
    ensures CountOf(ExpandSpecs(specs, first), t) == SpecCountOf(specs, t)
  {
    if specs != [] {
      var s := specs[0];
      CountOfAppend(Run(first, s.count, s.platformType), ExpandSpecs(specs[1..], first + s.count), t);
      CountOfRun(first, s.count, s.platformType, t);
      ExpandSpecsCountOf(specs[1..], first + s.count, t);
    }
  }

  /** `Station::new`: bumps the caller's counter and takes the new value as the
      station id; the platforms are expanded from the specs. */
  method NewStation(id: u32, name: string, specs: seq<PlatformSpec>) returns (station: Station, id': u32)
    requires SpecTotal(specs) <= 0x100
    ensures id' == Inc32(id)
    ensures station.id == id' && station.name == name
    ensures station.platforms == ExpandSpecs(specs, 0)
  {
    id' := Inc32(id);
    station := Station(ExpandSpecs(specs, 0), id', name);
  }

  /** `platform_gen`: `number` free platforms of one type with ids 0 to
      `number - 1` in ascending order. The station id is not used. */
  method PlatformGen(number: u8, stationId: u32, platformType: TrainType) returns (plats: seq<Platform>)
    ensures |plats| == number
    ensures forall i :: 0 <= i < |plats| ==>
      plats[i].id == i && !plats[i].occupied && plats[i].platformType == platformType
  {
    plats := [];
    var i: u8 := 0;
    while i < number
      invariant i <= number
      invariant |plats| == i
      invariant forall k :: 0 <= k < i ==> plats[k] == NewPlatform(k, platformType)
    {
      var p := NewPlatform(i, platformType);
      plats := plats + [p];
      i := i + 1;
    }
  }

  /** A single spec expands to what `platform_gen` builds. */
  lemma SingleSpecIsPlatformGen(count: u8, t: TrainType)
    ensures SpecTotal([PlatformSpec(count, t)]) == count
    ensures forall i :: 0 <= i < count ==>
      ExpandSpecs([PlatformSpec(count, t)], 0)[i] == NewPlatform(i, t)
  {
  }

  /** `available_platform` as written: the type arm `plat_type =>` binds
      instead of comparing, so the id of the first free platform is returned
      whatever its type. */
  method AvailablePlatform(station: Station, platType: TrainType) returns (r: Option<u8>)
    ensures r.None? <==> forall k :: 0 <= k < |station.platforms| ==> station.platforms[k].occupied
    ensures r.Some? ==> exists k :: 0 <= k < |station.platforms| && FirstFree(station.platforms, k)
                                    && station.platforms[k].id == r.value
  {
    var ps := station.platforms;
    var i := 0;
    while i < |ps|
      invariant i <= |ps|
      invariant forall k :: 0 <= k < i ==> ps[k].occupied
    {
      if !ps[i].occupied {
        return Some(ps[i].id);
      }
      i := i + 1;
    }
    return None;
  }

  /** Platform `k` is free and every platform before it is occupied. */
  ghost predicate FirstFree(ps: seq<Platform>, k: nat)
    requires k < |ps|
  {
    !ps[k].occupied && forall j :: 0 <= j < k ==> ps[j].occupied
  }

  /** Platform `k` is free, of type `t`, and every platform before it is
      occupied or of another type. */
  ghost predicate FirstFreeOfType(ps: seq<Platform>, t: TrainType, k: nat)
    requires k < |ps|
  {
    && !ps[k].occupied && ps[k].platformType == t
    && forall j :: 0 <= j < k ==> ps[j].occupied || ps[j].platformType != t
  }

  /** `available_platform` as evidently intended: the first free platform of
      the requested type. */
  method AvailablePlatformOfType(station: Station, platType: TrainType) returns (r: Option<u8>)
    ensures r.None? <==> forall k :: 0 <= k < |station.platforms| ==>
      station.platforms[k].occupied || station.platforms[k].platformType != platType
    ensures r.Some? ==> exists k :: 0 <= k < |station.platforms| && FirstFreeOfType(station.platforms, platType, k)
                                    && station.platforms[k].id == r.value
  {
    var ps := station.platforms;
    var i := 0;
    while i < |ps|
      invariant i <= |ps|
      invariant forall k :: 0 <= k < i ==> ps[k].occupied || ps[k].platformType != platType
    {
      if !ps[i].occupied && ps[i].platformType == platType {
        return Some(ps[i].id);
      }
      i := i + 1;
    }
    return None;
  }

  /** The station with platform `k` marked occupied and nothing else changed. */
  function Occupy(station: Station, k: nat): (s: Station)
    requires k < |station.platforms|
    ensures s.id == station.id && s.name == station.name
    ensures |s.platforms| == |station.platforms|
    ensures s.platforms[k].occupied
    ensures s.platforms[k].id == station.platforms[k].id
    ensures s.platforms[k].platformType == station.platforms[k].platformType
    ensures forall j :: 0 <= j < |s.platforms| && j != k ==> s.platforms[j] == station.platforms[j]
  {
    station.(platforms := station.platforms[k := station.platforms[k].(occupied := true)])
  }

  /** `enter_station` as written: the arm `booking_id =>` binds instead of
      comparing, so the first platform is booked whatever id was asked for;
      only a station without platforms reports `Booking`. */
  method EnterStationAsWritten(station: Station, bookingId: u8) returns (r: Result<(), PlatformError>, station': Station)
    ensures r.Err? <==> station.platforms == []
    ensures r.Err? ==> r.error == Booking && station' == station
    ensures r.Ok? ==> station' == Occupy(station, 0)
  {
    if station.platforms == [] {
      return Err(Booking), station;
    }
    return Ok(()), Occupy(station, 0);
  }

  /** `enter_station` as evidently intended: book the first platform whose id
      is `bookingId`, or report `Booking` when there is none. */
  method EnterStation(station: Station, bookingId: u8) returns (r: Result<(), PlatformError>, station': Station)
    ensures r.Err? <==> forall k :: 0 <= k < |station.platforms| ==> station.platforms[k].id != bookingId
    ensures r.Err? ==> r.error == Booking && station' == station
    ensures r.Ok? ==> exists k :: 0 <= k < |station.platforms| && station.platforms[k].id == bookingId
                                  && (forall j :: 0 <= j < k ==> station.platforms[j].id != bookingId)
                                  && station' == Occupy(station, k)
  {
    var ps := station.platforms;
    var i := 0;
    while i < |ps|
      invariant i <= |ps|
      invariant forall k :: 0 <= k < i ==> ps[k].id != bookingId
    {
      if ps[i].id == bookingId {
        return Ok(()), Occupy(station, i);
      }
      i := i + 1;
    }
    return Err(Booking), station;
  }

  /** Two free platforms, ids 0 and 1: asked for platform 1, the written code
      books platform 0, the intended one books platform 1. */
  method EnterStationDiscrepancy() returns (asWritten: Station, intended: Station)
    ensures |asWritten.platforms| == |intended.platforms| == 2
    ensures asWritten.platforms[0].occupied && !asWritten.platforms[1].occupied
    ensures !intended.platforms[0].occupied && intended.platforms[1].occupied
  {
    var s := Station([NewPlatform(0, LowSpeed), NewPlatform(1, LowSpeed)], 1, "AStat");
    var _, a := EnterStationAsWritten(s, 1);
    var _, b := EnterStation(s, 1);
    asWritten, intended := a, b;
  }

  /** One free low-speed platform, freight requested: the written code offers
      it, the intended one finds none. */
  method AvailablePlatformDiscrepancy() returns (asWritten: Option<u8>, intended: Option<u8>)
    ensures asWritten == Some(0)
    ensures intended == None
  {
    var s := Station([NewPlatform(0, LowSpeed)], 1, "AStat");
    assert s.platforms[0] == Platform(0, false, LowSpeed);
    asWritten := AvailablePlatform(s, Freight);
    intended := AvailablePlatformOfType(s, Freight);
  }
}
