# Routing costs and adjacency of a procedural world-map generator

This project models the routing layer of mapgen's `Map` in Dafny. A generic least-cost path search uses this layer to lay roads and trade routes over the generated graph of terrain regions. The layer has three parts:

- **Edge cost** (`Map::getRegionDistance`, here `Costs.RegionDistance`) is directional. It starts from the Euclidean distance between the two region sites.
  - From land, an ascent adds 1000 per unit of height climbed. A destination with a city then takes 500 off, but only when the running cost is at least 500.
  - Next come three multipliers in this order: river at the destination ×0.6, a different state ×1.2, road at the destination ×0.2.
  - From water, the cost is 0.8 × the distance.
- **Heuristic** (`Map::LeastCostEstimate`, here `Costs.LeastCostEstimate`) is the edge cost evaluated directly between the start and the goal.
- **Neighbour expansion** (`Map::AdjacentCost`, here `Adjacency.AdjacentCost`) walks a region's neighbours in order. For each neighbour it may enter, it appends `(neighbour, edge cost)` to the caller's output vector.
  - A lake is never entered.
  - Land to water is allowed only when the origin holds a PORT city.
  - Water to land is allowed only when the destination holds a PORT city.
  - Moves within one domain are always allowed.

The region graph is an arena, `seq<Region>`, and regions refer to each other by index. An index stands for a `Region*` pointer and for the search engine's `void*` handle. A region carries exactly the attributes this layer reads:

- the site;
- the height at the site;
- the land flag of its mega cluster;
- the biome name;
- the river and road flags;
- an optional state id (pointer equality of states is id equality, and two absent states are equal);
- an optional city with its type;
- the neighbour list.

`std::sqrt` is a parameter `sqrt: real -> real` of every cost function. Lemmas that need it to be non-negative say so with `Costs.IsSqrt`. Lemmas that need particular values require them, for example `sqrt(10000) == 100`. `Region::getHeight(site)` becomes the `height` field.

`AdjacentCost` is a method with a `for` loop and the same `continue` guards as the source. It appends to a `StateCostVector` object that stands for micropather's `MP_VECTOR`. The method is proved against the specification function `Adjacency.Expand`, and the lemmas about `Expansion` state the filtering rules.

Files:

- `regions.dfy`: the data model.
- `costs.dfy`: the edge cost, the heuristic and their properties.
- `adjacency.dfy`: the filter, the expansion method and their properties.

## Model

| member | source | states |
|---|---|---|
| Costs.Euclid | src/Map.cpp:6-10 | the straight-line distance between two sites, never negative when the square root is not |
| Costs.Climb | src/Map.cpp:13-19 | the additive land term: unchanged when the destination is not higher; on an ascent adds 1000 per unit climbed, less at most 500, and exactly nothing off without a city; never negative from a non-negative distance |
| Costs.RegionDistance | src/Map.cpp:5-33 | the directional edge cost: the distance; from land the climb and city discount, then ×0.6 river, ×1.2 border, ×0.2 road; from water ×0.8 whatever the destination; never negative for a non-negative square root |
| Costs.LeastCostEstimate | src/Map.cpp:35-37 | the heuristic is the edge cost from start to goal: never negative, and 0.8 × the distance from a water start |
| Adjacency.Traversable | src/Map.cpp:44-59 | the neighbour filter, built from `LandToSeaAllowed` (origin holds a port) and `SeaToLandAllowed` (destination holds a port): a lake is never entered, a non-lake neighbour in the same domain always is, and across domains exactly when the land side's region holds a PORT city |
| Adjacency.Step | src/Map.cpp:44-63 | one neighbour contributes at most one entry, exactly when it may be entered, naming it with the edge cost from the origin |
| Adjacency.Expansion | src/Map.cpp:42-64 | the entries for a neighbour list, in list order; every entry names a listed neighbour that may be entered |
| Adjacency.Expand | src/Map.cpp:39-64 | the entries `AdjacentCost` appends for one region; every entry names one of its neighbours that may be entered |
| Costs.LandFactor | src/Map.cpp:20-28 | the river, border and road multipliers together form one factor, always in (0, 1.2] |
| Costs.EuclidSymmetric | src/Map.cpp:6-10 | the base distance is the same in both directions, so any asymmetry comes from the branch on the origin's domain (water ×0.8 against the land formula) and from the land-side climb and multipliers |
| Costs.WaterLandPairAsymmetric | src/Map.cpp:12-31 | from water to a level land region with nothing to cross the cost is 0.8 × the cost of the way back |
| Costs.WaterCostIsFlat | src/Map.cpp:29-31 | from water the cost is exactly 0.8 × the distance, and nothing about the destination except its site changes it |
| Costs.LandCostFactored | src/Map.cpp:12-28 | from land the cost is the climb term (additive, applied first) times the combined river/border/road factor |
| Costs.DescentHasNoClimb | src/Map.cpp:13-28 | from land to a region that is not higher, there is no climb penalty and no city discount: the cost is distance × factor |
| Costs.AscentCost | src/Map.cpp:13-19 | from land to a higher region, the cost adds 1000 per unit climbed, minus 500 exactly when the destination has a city (of any type) and the sum is at least 500, then applies the factor |
| Costs.CostNonNegative | src/Map.cpp:10-31 | for a non-negative square root the edge cost is never negative |
| Costs.RoadScalesByOneFifth | src/Map.cpp:26-28 | from land, a road at the destination multiplies the cost by exactly 0.2 |
| Costs.RiverScalesBySixTenths | src/Map.cpp:20-22 | from land, a river at the destination multiplies the cost by exactly 0.6 |
| Costs.BorderScalesBySixFifths | src/Map.cpp:23-25 | from land, a destination whose state differs from the origin's (absent counts as a value) multiplies the cost by exactly 1.2 |
| Costs.AscentDearerThanDescent | src/Map.cpp:13-19 | between land regions with matching river and road flags, whatever their states, and no city above, going up costs exactly 1000 × height gap × factor more than coming down |
| Costs.SmallClimbIntoCityUndercutsLevel | src/Map.cpp:14-19 | a climb of less than 0.5 into a city, with running cost ≥ 500, costs less than the same move on level ground |
| Costs.EstimateNonNegative | src/Map.cpp:35-37 | the heuristic is never negative for a non-negative square root |
| Costs.WorkedAscentExample | src/Map.cpp:5-33 | sites (0,0) and (100,0), heights 0 and 0.5: up costs 600, down costs 100 |
| Adjacency.AdjacentCost | src/Map.cpp:39-65 | the output vector afterwards is its old contents followed by exactly the expansion of the region: only appends, in neighbour order |
| Adjacency.StateCostVector.PushBack | src/Map.cpp:63 | push_back appends one entry and keeps the rest |
| Adjacency.ExpansionAppend | src/Map.cpp:42-64 | the expansion of a concatenated neighbour list is the concatenation of the expansions, so entries keep neighbour order |
| Adjacency.ExpansionLength | src/Map.cpp:42-64 | the expansion is no longer than the neighbour list |
| Adjacency.ExpansionMembership | src/Map.cpp:42-64 | an entry is in the expansion if and only if it names a listed neighbour that may be entered, with the edge cost from the origin to it |
| Adjacency.WaterOriginCityIrrelevant | src/Map.cpp:53-58 | a water origin's own city never changes its expansion |
| Adjacency.LakeNeverExpanded | src/Map.cpp:44-46 | no entry of any expansion names a lake |
| Adjacency.LandToSeaNeedsOriginPort | src/Map.cpp:47-52 | from land, a water neighbour is reported only if the origin holds a PORT city |
| Adjacency.SeaToLandNeedsDestinationPort | src/Map.cpp:53-58 | from water, a land neighbour is reported only if that neighbour holds a PORT city |
| Adjacency.SameDomainAndPortNeighboursKept | src/Map.cpp:47-63 | every non-lake neighbour in the origin's domain, every non-lake neighbour of a land port, and every non-lake PORT neighbour of a water region is reported with its edge cost |
| Adjacency.EstimateIsEdgeCost | src/Map.cpp:35-37 | when the goal is a reported neighbour of the start, its reported cost equals the heuristic |
| Adjacency.EstimateOverstatesPath | src/Map.cpp:35-37 | the heuristic is not a lower bound: three land regions on distinct sites one unit apart have a two-step path of cost 1 + 1, while the estimate is 502 |

## Left out

- `Map::PrintStateInfo` (src/Map.cpp:66) has an empty body and no behaviour to model. The destructor `Map::~Map` (src/Map.cpp:3) is left out for the same reason.
- Floating point is not modelled. The source mixes `double` and `float` and truncates intermediate results to `float`. The model computes in exact `real`, so rounding and overflow are not captured.
- `std::sqrt` and `Region::getHeight` are not part of this model. The square root is a parameter, and the height at a region's site is a field of the region.
- The micropather search engine and the `void*` handle casts (src/Map.cpp:36, 41, 62) are not part of this model. Handles are arena indices.
- Region graph generation (heights, clusters, rivers, states, cities) happens before routing and is only read here. The model takes the arena as given.
- Dangling neighbour pointers are not modelled. The source dereferences every neighbour, so `Expand` and `AdjacentCost` require that every neighbour index names a region of the arena.
- Null attribute pointers are not modelled. The source also dereferences `r->megaCluster`, `n->megaCluster` and the site pointers without a null check (src/Map.cpp:8-9, 12, 47-48, 54). In the model the land flag and the site are plain values and cannot be absent.
- City types other than PORT keep their name in `CityKind.Other`, but routing does not tell them apart, because it tests only for PORT.
