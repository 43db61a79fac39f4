/** Neighbour expansion for the search engine (`Map::AdjacentCost`): which
    neighbours of a region may be entered, and at what cost.

    The rules, per neighbour `n` of origin `r`:
    - a lake is never entered;
    - land to water only when the ORIGIN holds a port;
    - water to land only when the DESTINATION holds a port;
    - within one domain (land to land, water to water) always.
    Every admitted neighbour is reported with the edge cost `RegionDistance(r, n)`,
    in the order of `r.neighbors`, appended to the caller's output vector. */
module Adjacency {
  import opened Regions
  import opened Costs

  /** One entry of the search engine's output vector: a neighbour handle and
      the cost of stepping to it. */
  datatype StateCost = StateCost(state: RegionId, cost: real)

  /** Land to water: allowed only through a port held by the land origin. */
  predicate LandToSeaAllowed(origin: Region)
  {
    HasPort(origin)
  }

  /** Water to land: allowed only through a port held by the land destination;
      the water origin's own city does not matter. */
  predicate SeaToLandAllowed(dest: Region)
  {
    HasPort(dest)
  }

  /** Whether the search may step from `r` to its neighbour `n`. */
  predicate Traversable(r: Region, n: Region): (ok: bool)
    ensures ok ==> !IsLake(n)
    ensures !IsLake(n) && n.isLand == r.isLand ==> ok
    ensures r.isLand != n.isLand ==> (ok <==> !IsLake(n) && HasPort(if r.isLand then r else n))
  {
    if IsLake(n) then false
    else if r.isLand then (!n.isLand ==> LandToSeaAllowed(r))
    else (n.isLand ==> SeaToLandAllowed(n))
  }

  /** The entry (if any) that neighbour `id` contributes to `r`'s expansion. */
  function Step(sqrt: real -> real, regions: seq<Region>, r: Region, id: RegionId): (s: seq<StateCost>)
    requires id < |regions|
    ensures |s| <= 1
    ensures s != [] <==> Traversable(r, regions[id])
    ensures forall e :: e in s ==> e.state == id && e.cost == RegionDistance(sqrt, r, regions[id])
  {
    if Traversable(r, regions[id]) then [StateCost(id, RegionDistance(sqrt, r, regions[id]))] else []
  }

  /** The entries appended for the neighbour list `ns` of origin `r`, in order. */
  function Expansion(sqrt: real -> real, regions: seq<Region>, r: Region, ns: seq<RegionId>): (x: seq<StateCost>)
    requires InArena(regions, ns)
    ensures forall e :: e in x ==> e.state in ns && e.state < |regions| && Traversable(r, regions[e.state])
    decreases |ns|
  {
    if ns == [] then []
    else Expansion(sqrt, regions, r, ns[..|ns| - 1]) + Step(sqrt, regions, r, ns[|ns| - 1])
  }

  /** The entries `AdjacentCost` appends for region `id`. */
  function Expand(sqrt: real -> real, regions: seq<Region>, id: RegionId): (x: seq<StateCost>)
    requires id < |regions| && InArena(regions, regions[id].neighbors)
    ensures forall e :: e in x ==> e.state in regions[id].neighbors && e.state < |regions|
                                   && Traversable(regions[id], regions[e.state])
  {
    Expansion(sqrt, regions, regions[id], regions[id].neighbors)
  }

  /** The search engine's output vector, filled in place by `AdjacentCost`. */
  class StateCostVector {
    var items: seq<StateCost>

    constructor ()
      ensures items == []
    {
      items := [];
    }

    method PushBack(c: StateCost)
      modifies this
      ensures items == old(items) + [c]
    {
      items := items + [c];
    }
  }

  /** Appends to `neighbors` one entry for every admissible neighbour of region
      `state`, in neighbour order; what was already in `neighbors` is kept. */
  method AdjacentCost(sqrt: real -> real, regions: seq<Region>, state: RegionId, neighbors: StateCostVector)
    requires state < |regions| && InArena(regions, regions[state].neighbors)
    modifies neighbors
    ensures neighbors.items == old(neighbors.items) + Expand(sqrt, regions, state)
  {
    var r := regions[state];
    for i := 0 to |r.neighbors|
      invariant neighbors.items == old(neighbors.items) + Expansion(sqrt, regions, r, r.neighbors[..i])
    {
      var id := r.neighbors[i];
      var n := regions[id];
      assert r.neighbors[..i + 1][..i] == r.neighbors[..i];
      if IsLake(n) {
        continue;
      }
      if r.isLand {
        if !n.isLand {
          if r.city.None? || r.city.value.kind != Port {
            continue;
          }
        }
      } else {
        if n.isLand {
          if n.city.None? || n.city.value.kind != Port {
            continue;
          }
        }
      }
      neighbors.PushBack(StateCost(id, RegionDistance(sqrt, r, n)));
    }
    assert r.neighbors[..|r.neighbors|] == r.neighbors;
  }

  // ---------------------------------------------------------------------------
  // Properties of the expansion
  // ---------------------------------------------------------------------------

  /** The expansion of a concatenation is the concatenation of the expansions:
      entries appear in neighbour order and each neighbour's entry depends on
      that neighbour alone. */
  lemma {:induction false} ExpansionAppend(sqrt: real -> real, regions: seq<Region>, r: Region,
                                           ns1: seq<RegionId>, ns2: seq<RegionId>)
    requires InArena(regions, ns1) && InArena(regions, ns2)
    ensures InArena(regions, ns1 + ns2)
    ensures Expansion(sqrt, regions, r, ns1 + ns2)
         == Expansion(sqrt, regions, r, ns1) + Expansion(sqrt, regions, r, ns2)
    decreases |ns2|
  {
    var ns := ns1 + ns2;
    assert InArena(regions, ns) by {
      forall i | 0 <= i < |ns| ensures ns[i] < |regions| {
        if i < |ns1| { assert ns[i] == ns1[i]; } else { assert ns[i] == ns2[i - |ns1|]; }
      }
    }
    if ns2 == [] {
      assert ns == ns1;
    } else {
      var front := ns2[..|ns2| - 1];
      assert ns[..|ns| - 1] == ns1 + front;
      assert ns[|ns| - 1] == ns2[|ns2| - 1];
      ExpansionAppend(sqrt, regions, r, ns1, front);
    }
  }

  /** The expansion is no longer than the neighbour list. */
  lemma {:induction false} ExpansionLength(sqrt: real -> real, regions: seq<Region>, r: Region, ns: seq<RegionId>)
    requires InArena(regions, ns)
    ensures |Expansion(sqrt, regions, r, ns)| <= |ns|
    decreases |ns|
  {
    if ns != [] {
      ExpansionLength(sqrt, regions, r, ns[..|ns| - 1]);
    }
  }

  /** An entry is in the expansion exactly when it names a neighbour in `ns`
      that may be entered from `r`, with the edge cost from `r` to it. */
  lemma {:induction false} ExpansionMembership(sqrt: real -> real, regions: seq<Region>, r: Region, ns: seq<RegionId>)
    requires InArena(regions, ns)
    ensures forall e :: e in Expansion(sqrt, regions, r, ns) <==>
              e.state in ns && e.state < |regions| && Traversable(r, regions[e.state])
              && e.cost == RegionDistance(sqrt, r, regions[e.state])
    decreases |ns|
  {
    if ns != [] {
      var front := ns[..|ns| - 1];
      ExpansionMembership(sqrt, regions, r, front);
      assert ns == front + [ns[|ns| - 1]];
    }
  }

  /** The origin's city plays no part in what a water region expands to: it
      gates neither direction from water and the water cost ignores it. */
  lemma {:induction false} WaterOriginCityIrrelevant(sqrt: real -> real, regions: seq<Region>, r: Region,
                                                     ns: seq<RegionId>, c: Option<City>)
    requires !r.isLand && InArena(regions, ns)
    ensures Expansion(sqrt, regions, r.(city := c), ns) == Expansion(sqrt, regions, r, ns)
    decreases |ns|
  {
    if ns != [] {
      WaterOriginCityIrrelevant(sqrt, regions, r, ns[..|ns| - 1], c);
    }
  }

  /** A region named "Lake" never appears in any expansion, whatever the
      direction or the ports. */
  lemma LakeNeverExpanded(sqrt: real -> real, regions: seq<Region>, id: RegionId)
    requires id < |regions| && InArena(regions, regions[id].neighbors)
    ensures forall e :: e in Expand(sqrt, regions, id) ==> e.state < |regions| && !IsLake(regions[e.state])
  {
    ExpansionMembership(sqrt, regions, regions[id], regions[id].neighbors);
  }

  /** From land, a water neighbour is entered only if the origin holds a port;
      a land region without one expands to land only. */
  lemma LandToSeaNeedsOriginPort(sqrt: real -> real, regions: seq<Region>, id: RegionId)
    requires id < |regions| && InArena(regions, regions[id].neighbors)
    requires regions[id].isLand
    ensures forall e :: e in Expand(sqrt, regions, id) && e.state < |regions| && !regions[e.state].isLand
              ==> HasPort(regions[id])
  {
    ExpansionMembership(sqrt, regions, regions[id], regions[id].neighbors);
  }

  /** From water, a land neighbour is entered only if that neighbour holds a port. */
  lemma SeaToLandNeedsDestinationPort(sqrt: real -> real, regions: seq<Region>, id: RegionId)
    requires id < |regions| && InArena(regions, regions[id].neighbors)
    requires !regions[id].isLand
    ensures forall e :: e in Expand(sqrt, regions, id) && e.state < |regions| && regions[e.state].isLand
              ==> HasPort(regions[e.state])
  {
    ExpansionMembership(sqrt, regions, regions[id], regions[id].neighbors);
  }

  /** A non-lake neighbour in the origin's own domain is always entered, and so
      is every non-lake neighbour of a land port and every non-lake port
      neighbour of a water region; each with its edge cost. */
  lemma SameDomainAndPortNeighboursKept(sqrt: real -> real, regions: seq<Region>, id: RegionId)
    requires id < |regions| && InArena(regions, regions[id].neighbors)
    ensures var r := regions[id];
            forall n :: n in r.neighbors && n < |regions| && !IsLake(regions[n])
                        && (regions[n].isLand == r.isLand || (r.isLand && HasPort(r))
                            || (!r.isLand && HasPort(regions[n])))
              ==> StateCost(n, RegionDistance(sqrt, r, regions[n])) in Expand(sqrt, regions, id)
  {
    ExpansionMembership(sqrt, regions, regions[id], regions[id].neighbors);
  }

  /** The heuristic agrees with the expansion: whenever the goal is entered
      directly from the start, the reported edge cost is the estimate. */
  lemma EstimateIsEdgeCost(sqrt: real -> real, regions: seq<Region>, start: RegionId, goal: RegionId)
    requires start < |regions| && goal < |regions| && InArena(regions, regions[start].neighbors)
    ensures forall e :: e in Expand(sqrt, regions, start) && e.state == goal
              ==> e.cost == LeastCostEstimate(sqrt, regions, start, goal)
  {
    ExpansionMembership(sqrt, regions, regions[start], regions[start].neighbors);
  }

  /** The heuristic is not a lower bound. Three land regions one unit apart on
      a line, at heights 0, 0.5 and 1, the upper two with cities: each step of
      the path through the middle climbs 0.5, and its 500 is taken off again,
      so it costs its distance 1; the estimate climbs 1 at once and keeps 500
      of it, giving 502 against a path cost of 2. */
  lemma EstimateOverstatesPath(sqrt: real -> real, regions: seq<Region>)
    requires sqrt(1.0) == 1.0 && sqrt(4.0) == 2.0
    requires var town := Some(City(Other("town")));
             regions == [Region(Point(0.0, 0.0), 0.0, true, "Grassland", false, false, None, None, [1]),
                         Region(Point(1.0, 0.0), 0.5, true, "Grassland", false, false, None, town, [0, 2]),
                         Region(Point(2.0, 0.0), 1.0, true, "Grassland", false, false, None, town, [1])]
    ensures InArena(regions, regions[0].neighbors) && InArena(regions, regions[1].neighbors)
    ensures StateCost(1, 1.0) in Expand(sqrt, regions, 0)
    ensures StateCost(2, 1.0) in Expand(sqrt, regions, 1)
    ensures LeastCostEstimate(sqrt, regions, 0, 2) == 502.0
  {
  }
}
