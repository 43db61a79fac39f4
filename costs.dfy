/** The directional edge cost between two regions (`Map::getRegionDistance`)
    and the search heuristic built on it (`Map::LeastCostEstimate`).

    `std::sqrt` is not part of this model: every cost takes the square root as a
    parameter `sqrt`, and the lemmas that need it to behave like one say so with
    `IsSqrt(sqrt)` or with the one value they use. */
module Costs {
  import opened Regions

  /** What the lemmas need of the square root: it is never negative on the
      squared distances it is applied to. */
  ghost predicate IsSqrt(sqrt: real -> real)
  {
    forall x: real :: 0.0 <= x ==> 0.0 <= sqrt(x)
  }

  function Abs(x: real): real
  {
    if x < 0.0 then -x else x
  }

  /** Straight-line distance between two sites. */
  function Euclid(sqrt: real -> real, p: Point, q: Point): (d: real)
    ensures IsSqrt(sqrt) ==> 0.0 <= d
  {
    var dx := q.x - p.x;
    var dy := q.y - p.y;
    sqrt(dx * dx + dy * dy)
  }

  /** The additive part of a land move: an ascent (`hd < 0`) adds 1000 per unit
      of height climbed, after which a destination with a city of any type takes
      500 off, but only if the running cost is already at least 500. */
  function Climb(d: real, hd: real, destHasCity: bool): (c: real)
    ensures 0.0 <= hd ==> c == d
    ensures hd < 0.0 && !destHasCity ==> c == d + 1000.0 * -hd
    ensures hd < 0.0 ==> d + 1000.0 * -hd - 500.0 <= c <= d + 1000.0 * -hd
    ensures 0.0 <= d ==> 0.0 <= c
  {
    if hd < 0.0 then
      var up := d + 1000.0 * Abs(hd);
      if destHasCity && up >= 500.0 then up - 500.0 else up
    else
      d
  }

  /** The cost of moving from `r` to `r2`. From land: the climb term, then the
      river (0.6), border (1.2) and road (0.2) multipliers in that order. From
      water: 0.8 times the distance, whatever `r2` is. */
  function RegionDistance(sqrt: real -> real, r: Region, r2: Region): (c: real)
    ensures !r.isLand ==> c == 0.8 * Euclid(sqrt, r.site, r2.site)
    ensures r.isLand && r2.height <= r.height ==> c == Euclid(sqrt, r.site, r2.site) * LandFactor(r, r2)
    ensures IsSqrt(sqrt) ==> 0.0 <= c
  {
    var d := Euclid(sqrt, r.site, r2.site);
    if r.isLand then
      var hd := r.height - r2.height;
      var climbed := Climb(d, hd, r2.city.Some?);
      var afterRiver := if r2.hasRiver then climbed * 0.6 else climbed;
      var afterBorder := if r2.state != r.state then afterRiver * 1.2 else afterRiver;
      if r2.hasRoad then afterBorder * 0.2 else afterBorder
    else
      d * 0.8
  }

  /** The heuristic the search engine asks for: the edge cost evaluated directly
      between start and goal. It is not a lower bound on path cost
      (see `Adjacency.EstimateOverstatesPath`). */
  function LeastCostEstimate(sqrt: real -> real, regions: seq<Region>, start: RegionId, goal: RegionId): (e: real)
    requires start < |regions| && goal < |regions|
    ensures IsSqrt(sqrt) ==> 0.0 <= e
    ensures !regions[start].isLand ==> e == 0.8 * Euclid(sqrt, regions[start].site, regions[goal].site)
  {
    RegionDistance(sqrt, regions[start], regions[goal])
  }

  /** The three land multipliers folded into one factor, independent of the
      order in which `RegionDistance` applies them. */
  function LandFactor(r: Region, r2: Region): (f: real)
    ensures 0.0 < f <= 1.2
  {
    (if r2.hasRiver then 0.6 else 1.0)
    * (if r2.state != r.state then 1.2 else 1.0)
    * (if r2.hasRoad then 0.2 else 1.0)
  }

  // ---------------------------------------------------------------------------
  // Properties of the edge cost
  // ---------------------------------------------------------------------------

  lemma EuclidSymmetric(sqrt: real -> real, p: Point, q: Point)
    ensures Euclid(sqrt, p, q) == Euclid(sqrt, q, p)
  {
  }

  /** The branch on the origin's domain is itself directional: from a water
      region to a level land region with no river, road or border to cross,
      the cost is 0.8 times the distance, while the way back costs the full
      distance. */
  lemma WaterLandPairAsymmetric(sqrt: real -> real, r: Region, r2: Region)
    requires !r.isLand && r2.isLand && r.height <= r2.height
    requires !r.hasRiver && !r.hasRoad && r.state == r2.state
    ensures RegionDistance(sqrt, r, r2) == 0.8 * RegionDistance(sqrt, r2, r)
  {
    EuclidSymmetric(sqrt, r.site, r2.site);
  }

  /** From water the cost is 0.8 times the distance, and the destination's
      river, road, state, city, height and domain play no part. */
  lemma WaterCostIsFlat(sqrt: real -> real, r: Region, r2: Region, r3: Region)
    requires !r.isLand
    requires r3.site == r2.site
    ensures RegionDistance(sqrt, r, r2) == 0.8 * Euclid(sqrt, r.site, r2.site)
    ensures RegionDistance(sqrt, r, r3) == RegionDistance(sqrt, r, r2)
  {
  }

  /** From land the cost is the climb term scaled by the combined multiplier. */
  lemma LandCostFactored(sqrt: real -> real, r: Region, r2: Region)
    requires r.isLand
    ensures RegionDistance(sqrt, r, r2)
         == Climb(Euclid(sqrt, r.site, r2.site), r.height - r2.height, r2.city.Some?) * LandFactor(r, r2)
  {
  }

  /** A land move to a region that is not higher carries neither the climb
      penalty nor the city discount: the distance times the multipliers. */
  lemma DescentHasNoClimb(sqrt: real -> real, r: Region, r2: Region)
    requires r.isLand && r2.height <= r.height
    ensures RegionDistance(sqrt, r, r2) == Euclid(sqrt, r.site, r2.site) * LandFactor(r, r2)
  {
  }

  /** A land move to a higher region adds 1000 per unit climbed, less 500 when
      the destination has a city and the sum reached 500, before the multipliers. */
  lemma AscentCost(sqrt: real -> real, r: Region, r2: Region)
    requires r.isLand && r.height < r2.height
    ensures var up := Euclid(sqrt, r.site, r2.site) + 1000.0 * (r2.height - r.height);
            RegionDistance(sqrt, r, r2)
            == (if r2.city.Some? && up >= 500.0 then up - 500.0 else up) * LandFactor(r, r2)
  {
  }

  /** The cost is never negative: the distance is not, the climb only adds, the
      discount is taken only from a running cost of at least 500, and every
      multiplier is positive. */
  lemma CostNonNegative(sqrt: real -> real, r: Region, r2: Region)
    requires IsSqrt(sqrt)
    ensures 0.0 <= RegionDistance(sqrt, r, r2)
  {
  }

  /** A road at a land move's destination scales the cost by exactly 0.2. */
  lemma RoadScalesByOneFifth(sqrt: real -> real, r: Region, r2: Region)
    requires r.isLand
    ensures RegionDistance(sqrt, r, r2.(hasRoad := true))
         == 0.2 * RegionDistance(sqrt, r, r2.(hasRoad := false))
  {
  }

  /** A river at a land move's destination scales the cost by exactly 0.6. */
  lemma RiverScalesBySixTenths(sqrt: real -> real, r: Region, r2: Region)
    requires r.isLand
    ensures RegionDistance(sqrt, r, r2.(hasRiver := true))
         == 0.6 * RegionDistance(sqrt, r, r2.(hasRiver := false))
  {
  }

  /** Entering another state's territory (or leaving or entering stateless land)
      from land scales the cost by exactly 1.2. */
  lemma BorderScalesBySixFifths(sqrt: real -> real, r: Region, r2: Region, other: Option<StateId>)
    requires r.isLand && other != r.state
    ensures RegionDistance(sqrt, r, r2.(state := other))
         == 1.2 * RegionDistance(sqrt, r, r2.(state := r.state))
  {
  }

  /** The climb makes the cost directional: between two land regions with the
      same river and road attributes, whatever their states, and no city at the
      higher one, going up costs exactly 1000 per unit of height (times the multipliers)
      more than coming down. */
  lemma AscentDearerThanDescent(sqrt: real -> real, r: Region, r2: Region)
    requires r.isLand && r2.isLand && r.height < r2.height
    requires r2.city.None?
    requires r.hasRiver == r2.hasRiver && r.hasRoad == r2.hasRoad
    ensures RegionDistance(sqrt, r, r2) - RegionDistance(sqrt, r2, r)
         == 1000.0 * (r2.height - r.height) * LandFactor(r, r2)
    ensures RegionDistance(sqrt, r2, r) < RegionDistance(sqrt, r, r2)
  {
  }

  /** The city discount is not limited to the climb it offsets: a land move up
      by less than half a unit into a city, with a running cost of at least 500,
      costs less than the same move would on level ground. */
  lemma SmallClimbIntoCityUndercutsLevel(sqrt: real -> real, r: Region, r2: Region)
    requires r.isLand && r2.city.Some?
    requires r.height < r2.height < r.height + 0.5
    requires 500.0 <= Euclid(sqrt, r.site, r2.site) + 1000.0 * (r2.height - r.height)
    ensures RegionDistance(sqrt, r, r2) < RegionDistance(sqrt, r, r2.(height := r.height))
  {
  }

  /** The heuristic is the edge cost from start to goal, so it is never negative
      either. */
  lemma EstimateNonNegative(sqrt: real -> real, regions: seq<Region>, start: RegionId, goal: RegionId)
    requires IsSqrt(sqrt)
    requires start < |regions| && goal < |regions|
    ensures 0.0 <= LeastCostEstimate(sqrt, regions, start, goal)
  {
  }

  /** A worked example: two land regions 100 apart on level
      sites, heights 0 and 0.5, same state, nothing else. Up costs 100 + 500 = 600
      (no city, so no discount); down costs the bare 100. */
  lemma WorkedAscentExample(sqrt: real -> real, r: Region, r2: Region)
    requires sqrt(10000.0) == 100.0
    requires r.site == Point(0.0, 0.0) && r2.site == Point(100.0, 0.0)
    requires r.isLand && r2.isLand
    requires r.height == 0.0 && r2.height == 0.5
    requires !r.hasRiver && !r.hasRoad && !r2.hasRiver && !r2.hasRoad
    requires r.state == r2.state && r.city.None? && r2.city.None?
    ensures RegionDistance(sqrt, r, r2) == 600.0
    ensures RegionDistance(sqrt, r2, r) == 100.0
  {
  }
}

