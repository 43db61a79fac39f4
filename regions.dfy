/** The region graph the routing layer reads. It is built and finalised by the
    map generator before any route is searched; nothing here changes it.

    Regions live in an arena (a `seq<Region>`) and refer to each other by index,
    which stands for the map generator's `Region*` pointers and the search
    engine's `void*` handles. */
module Regions {

  datatype Option<+T> = None | Some(value: T)

  /** Index of a region in the arena. */
  type RegionId = nat

  /** Identity of a political state; two regions have "the same state" exactly
      when their `state` pointers are equal, so `None == None`. */
  type StateId = nat

  /** A point in world space. */
  datatype Point = Point(x: real, y: real)

  /** The location type of a city. Only `PORT` matters to routing; every other
      location type is folded into `Other`. */
  datatype CityKind = Port | Other(typeName: string)

  datatype City = City(kind: CityKind)

  /** A terrain cell, with exactly the attributes the routing layer reads:
      - `height` is `getHeight(site)`, the elevation at the region's site;
      - `isLand` is the land flag of the region's mega cluster;
      - `biomName` is the name of the region's biome;
      - `neighbors` lists the adjacent regions in the order the graph stores them. */
  datatype Region = Region(
    site: Point,
    height: real,
    isLand: bool,
    biomName: string,
    hasRiver: bool,
    hasRoad: bool,
    state: Option<StateId>,
    city: Option<City>,
    neighbors: seq<RegionId>)

  /** Every id in `ids` names a region of the arena. */
  predicate InArena(regions: seq<Region>, ids: seq<RegionId>)
  {
    forall i :: 0 <= i < |ids| ==> ids[i] < |regions|
  }

  /** A lake is recognised by its biome name alone. */
  predicate IsLake(r: Region)
  {
    r.biomName == "Lake"
  }

  /** The region holds a city whose type is PORT. */
  predicate HasPort(r: Region)
  {
    r.city.Some? && r.city.value.kind == Port
  }
}
