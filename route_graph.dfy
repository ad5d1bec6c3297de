/** The timed route graph of core_logic/core_logic.cpp: `clear_graph`,
    `build_graph_with_time` and `find_fastest_path` (Dijkstra over
    travel plus layover minutes), with the minutes-since-midnight
    convention of core_logic/core_logic.h. */
module RouteGraph {
  import Decimal

  const MinutesPerDay: int := 1440
  /** `std::numeric_limits<int>::max()`, the "not reached" distance. */
  const IntMax: int := 2147483647
  /** The most one leg can add: a day's travel and a day's wait, a minute short each. */
  const MaxLegMinutes: int := 2 * (MinutesPerDay - 1)

  predicate IsClockTime(t: int) { 0 <= t < MinutesPerDay }

  /** Clock time as minutes since midnight (10:30 is 630). */
  function ClockTime(hours: nat, minutes: nat): (t: int)
    requires hours < 24 && minutes < 60
    ensures IsClockTime(t)
    ensures t / 60 == hours && t % 60 == minutes
  {
    hours * 60 + minutes
  }

  /** Minutes from clock time `from` forward to clock time `to`, past midnight if need be:
      an overnight leg's duration, and a layover that waits for the next day's departure. */
  function ClockGap(from: int, to: int): (g: int)
    ensures IsClockTime(from) && IsClockTime(to) ==>
      0 <= g < MinutesPerDay && (from + g) % MinutesPerDay == to
  {
    if to - from < 0 then to - from + MinutesPerDay else to - from
  }

  /** `Edge`: a timed train leg to `to`. */
  datatype Edge = Edge(to: string, departure: int, arrival: int, travel: int)

  type Adjacency = map<string, seq<Edge>>

  /** What `build_graph_with_time` stores for in-range times. */
  predicate EdgeOk(e: Edge)
  {
    IsClockTime(e.departure) && IsClockTime(e.arrival) && e.travel == ClockGap(e.departure, e.arrival)
  }

  ghost predicate WellTimed(adj: Adjacency)
  {
    forall s, e :: s in adj && e in adj[s] ==> EdgeOk(e)
  }

  /** Every station named in the graph, as a source or as a destination. */
  function Stations(adj: Adjacency): set<string>
  {
    adj.Keys + (set s, e | s in adj && e in adj[s] :: e.to)
  }

  lemma EdgeEndsAreStations(adj: Adjacency, s: string, e: Edge)
    requires s in adj && e in adj[s]
    ensures s in Stations(adj) && e.to in Stations(adj)
  {
  }

  /** Minutes added by taking `e` out of `u` having reached `u` at clock time `arrivedAt`:
      the leg's travel plus the layover, and no layover at the start station. */
  function LegMinutes(start: string, u: string, e: Edge, arrivedAt: int): (m: int)
    ensures EdgeOk(e) && IsClockTime(arrivedAt) ==> 0 <= m <= MaxLegMinutes
    ensures u == start ==> m == e.travel
  {
    e.travel + (if u == start then 0 else ClockGap(arrivedAt, e.departure))
  }

  /** `stations` is a walk through the graph and `legs` are the edges it takes. */
  predicate IsRoute(adj: Adjacency, stations: seq<string>, legs: seq<Edge>)
  {
    && |stations| == |legs| + 1
    && forall i :: 0 <= i < |legs| ==>
         stations[i] in adj && legs[i] in adj[stations[i]] && legs[i].to == stations[i + 1]
  }

  /** Elapsed minutes of a route whose first station was reached at clock time `arrivedAt`. */
  function RouteMinutes(start: string, stations: seq<string>, legs: seq<Edge>, arrivedAt: int): int
    requires |stations| == |legs| + 1
    decreases |legs|
  {
    if legs == [] then 0
    else LegMinutes(start, stations[0], legs[0], arrivedAt)
         + RouteMinutes(start, stations[1..], legs[1..], legs[0].arrival)
  }

  /** The three kinds of answer `find_fastest_path` gives. */
  datatype Outcome = StartNotFound | NoPath | Found(route: seq<string>, minutes: nat)

  /** The stations joined by " -> ". */
  function Join(route: seq<string>): string
  {
    if route == [] then ""
    else if |route| == 1 then route[0]
    else route[0] + " -> " + Join(route[1..])
  }

  /** " -> s" for each station in turn: the text the reconstruction loop prepends to. */
  function Arrows(stations: seq<string>): string
  {
    if stations == [] then "" else " -> " + stations[0] + Arrows(stations[1..])
  }

  /** The first station followed by the arrows to the rest is the joined route. */
  lemma {:induction false} JoinArrows(first: string, rest: seq<string>)
    ensures Join([first] + rest) == first + Arrows(rest)
    decreases |rest|
  {
    if rest != [] {
      JoinArrows(rest[0], rest[1..]);
      assert ([first] + rest)[1..] == rest;
      assert [rest[0]] + rest[1..] == rest;
    }
  }

  /** The text `find_fastest_path` returns for an outcome. */
  function Report(start: string, end: string, o: Outcome): string
  {
    match o
    case StartNotFound => "Error: Starting station '" + start + "' not found in routes."
    case NoPath => "No path found from " + start + " to " + end + "."
    case Found(route, m) =>
      "Fastest Path: " + Join(route) + " (Total time: "
      + Decimal.NatText(m / 60) + "h " + Decimal.NatText(m % 60) + "m)"
  }

  /** The hours and minutes printed give back the total. */
  lemma ReportedTime(m: nat)
    ensures (m / 60) * 60 + m % 60 == m && m % 60 < 60
    ensures Decimal.ParseNat(Decimal.NatText(m / 60)) * 60 + Decimal.ParseNat(Decimal.NatText(m % 60)) == m
  {
    Decimal.ParseNatText(m / 60);
    Decimal.ParseNatText(m % 60);
  }

  // ---------------------------------------------------------------------
  // Dijkstra's state and its invariants

  /** A priority-queue entry `{total time, station}`. */
  datatype Entry = Entry(time: int, station: string)

  /** `i` holds an entry the queue may pop first: none has a smaller time. */
  predicate IsMinAt(pq: seq<Entry>, i: int)
  {
    0 <= i < |pq| && forall j :: 0 <= j < |pq| ==> pq[i].time <= pq[j].time
  }

  lemma {:induction false} MinExists(pq: seq<Entry>)
    requires pq != []
    ensures exists i :: IsMinAt(pq, i)
    decreases |pq|
  {
    if |pq| == 1 {
      assert IsMinAt(pq, 0);
    } else {
      MinExists(pq[1..]);
      var k :| IsMinAt(pq[1..], k);
      if pq[0].time <= pq[1 + k].time {
        assert IsMinAt(pq, 0);
      } else {
        assert IsMinAt(pq, 1 + k);
      }
    }
  }

  /** Domains and ranges of `dist`, `prev`, `arrival_at_node` and the ghost `via`
      (the edge each `prev` link was recorded for). */
  ghost predicate Shape(adj: Adjacency, start: string, dist: map<string, int>, prev: map<string, string>,
                        arrival: map<string, int>, via: map<string, Edge>)
  {
    && dist.Keys == Stations(adj)
    && start in dist && dist[start] == 0
    && (forall s :: s in dist ==> 0 <= dist[s] <= IntMax)
    && prev.Keys <= dist.Keys && start !in prev && via.Keys == prev.Keys
    && arrival.Keys == prev.Keys + {start}
    && (forall s :: s in arrival ==> IsClockTime(arrival[s]))
    && (forall s :: s in dist && dist[s] < IntMax ==> s in arrival)
  }

  /** Every `prev` link names a settled station and an edge out of it whose leg accounts
      exactly for the distance; settling order strictly increases along the links. */
  ghost predicate Linked(adj: Adjacency, start: string, dist: map<string, int>, prev: map<string, string>,
                         arrival: map<string, int>, via: map<string, Edge>, rank: map<string, nat>)
    requires Shape(adj, start, dist, prev, arrival, via)
    requires rank.Keys <= arrival.Keys
  {
    forall v :: v in prev ==>
      && prev[v] in rank && prev[v] in adj && via[v] in adj[prev[v]] && via[v].to == v
      && arrival[v] == via[v].arrival
      && dist[v] == dist[prev[v]] + LegMinutes(start, prev[v], via[v], arrival[prev[v]])
      && (v in rank ==> rank[prev[v]] < rank[v])
  }

  /** `rank` numbers the stations settled so far in the order they were settled. */
  ghost predicate Ranked(dist: map<string, int>, arrival: map<string, int>, rank: map<string, nat>, count: nat)
  {
    && rank.Keys <= arrival.Keys && rank.Keys <= dist.Keys
    && forall s :: s in rank ==> rank[s] < count && dist[s] < IntMax
  }

  /** Every edge out of `x` has been relaxed. */
  ghost predicate RelaxedFrom(adj: Adjacency, start: string, dist: map<string, int>, arrival: map<string, int>, x: string)
  {
    x in adj ==> forall e :: e in adj[x] ==>
      x in dist && x in arrival && e.to in dist
      && dist[e.to] <= dist[x] + LegMinutes(start, x, e, arrival[x])
  }

  /** Queue entries never undercut a distance; no entry undercuts a settled station;
      every reached station is settled or still has its own entry queued. */
  ghost predicate Queued(dist: map<string, int>, arrival: map<string, int>, pq: seq<Entry>, rank: map<string, nat>)
    requires rank.Keys <= dist.Keys
  {
    && (forall j :: 0 <= j < |pq| ==>
          pq[j].station in arrival && pq[j].station in dist && dist[pq[j].station] <= pq[j].time < IntMax)
    && (forall x, j :: x in rank && 0 <= j < |pq| ==> dist[x] <= pq[j].time)
    && (forall s :: s in dist && dist[s] < IntMax ==> s in rank || Entry(dist[s], s) in pq)
  }

  /** The invariants that hold between any two steps of the search. */
  ghost predicate Core(adj: Adjacency, start: string, dist: map<string, int>, prev: map<string, string>,
                       arrival: map<string, int>, pq: seq<Entry>, via: map<string, Edge>,
                       rank: map<string, nat>, count: nat)
  {
    && Shape(adj, start, dist, prev, arrival, via)
    && Ranked(dist, arrival, rank, count)
    && Linked(adj, start, dist, prev, arrival, via, rank)
    && Queued(dist, arrival, pq, rank)
  }

  /** The invariant of the outer loop: in addition, every settled station has been relaxed. */
  ghost predicate SearchInv(adj: Adjacency, start: string, dist: map<string, int>, prev: map<string, string>,
                            arrival: map<string, int>, pq: seq<Entry>, via: map<string, Edge>,
                            rank: map<string, nat>, count: nat)
  {
    && WellTimed(adj)
    && Core(adj, start, dist, prev, arrival, pq, via, rank, count)
    && (forall x :: x in rank ==> RelaxedFrom(adj, start, dist, arrival, x))
  }

  /** The labelling the search ends with: every station settled so far had its legs relaxed
      from the one clock time its label was set with, and the start is settled unless it is the
      destination itself. Only one label per station is kept, whatever its clock time. */
  ghost predicate Labelled(adj: Adjacency, start: string, end: string, dist: map<string, int>,
                           prev: map<string, string>, arrival: map<string, int>, via: map<string, Edge>,
                           rank: map<string, nat>)
  {
    && Shape(adj, start, dist, prev, arrival, via)
    && rank.Keys <= arrival.Keys
    && (forall s :: s in rank ==> s in dist && dist[s] < IntMax)
    && Linked(adj, start, dist, prev, arrival, via, rank)
    && (forall x :: x in rank ==> RelaxedFrom(adj, start, dist, arrival, x))
    && (start != end ==> start in rank)
  }

  // One relaxation `dist[v] := total; prev[v] := u; arrival_at_node[v] := e.arrival; push`
  // keeps each invariant; one lemma per invariant keeps the proofs small.

  lemma ShapeAfterRelax(adj: Adjacency, start: string, dist: map<string, int>, prev: map<string, string>,
                        arrival: map<string, int>, via: map<string, Edge>, u: string, e: Edge, total: int)
    requires Shape(adj, start, dist, prev, arrival, via)
    requires e.to in dist && 0 <= total < dist[e.to] && IsClockTime(e.arrival)
    ensures Shape(adj, start, dist[e.to := total], prev[e.to := u], arrival[e.to := e.arrival], via[e.to := e])
  {
    var v := e.to;
    assert v != start;
    assert (prev[v := u]).Keys == prev.Keys + {v};
    assert (arrival[v := e.arrival]).Keys == arrival.Keys + {v};
  }

  lemma RankedAfterRelax(dist: map<string, int>, arrival: map<string, int>, rank: map<string, nat>, count: nat,
                         e: Edge, total: int)
    requires Ranked(dist, arrival, rank, count)
    requires e.to in dist && e.to !in rank
    ensures Ranked(dist[e.to := total], arrival[e.to := e.arrival], rank, count)
  {
  }

  lemma LinkedAfterRelax(adj: Adjacency, start: string, dist: map<string, int>, prev: map<string, string>,
                         arrival: map<string, int>, via: map<string, Edge>, rank: map<string, nat>,
                         u: string, e: Edge, total: int)
    requires Shape(adj, start, dist, prev, arrival, via)
    requires rank.Keys <= arrival.Keys
    requires Linked(adj, start, dist, prev, arrival, via, rank)
    requires u in rank && u in adj && e in adj[u] && e.to in dist && e.to !in rank
    requires 0 <= total < dist[e.to] && IsClockTime(e.arrival)
    requires total == dist[u] + LegMinutes(start, u, e, arrival[u])
    ensures Shape(adj, start, dist[e.to := total], prev[e.to := u], arrival[e.to := e.arrival], via[e.to := e])
    ensures Linked(adj, start, dist[e.to := total], prev[e.to := u], arrival[e.to := e.arrival], via[e.to := e], rank)
  {
    ShapeAfterRelax(adj, start, dist, prev, arrival, via, u, e, total);
    var v := e.to;
    var dist', prev', arrival', via' := dist[v := total], prev[v := u], arrival[v := e.arrival], via[v := e];
    forall w | w in prev'
      ensures && prev'[w] in rank && prev'[w] in adj && via'[w] in adj[prev'[w]] && via'[w].to == w
              && arrival'[w] == via'[w].arrival
              && dist'[w] == dist'[prev'[w]] + LegMinutes(start, prev'[w], via'[w], arrival'[prev'[w]])
              && (w in rank ==> rank[prev'[w]] < rank[w])
    {
      if w != v {
        assert prev'[w] == prev[w] && prev[w] != v;
      }
    }
  }

  lemma QueuedAfterRelax(dist: map<string, int>, arrival: map<string, int>, pq: seq<Entry>, rank: map<string, nat>,
                         e: Edge, total: int)
    requires rank.Keys <= dist.Keys
    requires Queued(dist, arrival, pq, rank)
    requires e.to in dist && e.to !in rank && total < dist[e.to] <= IntMax
    requires forall x :: x in rank ==> dist[x] <= total
    ensures Queued(dist[e.to := total], arrival[e.to := e.arrival], pq + [Entry(total, e.to)], rank)
  {
    var v := e.to;
    var dist', pq' := dist[v := total], pq + [Entry(total, v)];
    forall s | s in dist' && dist'[s] < IntMax
      ensures s in rank || Entry(dist'[s], s) in pq'
    {
      if s == v {
        assert pq'[|pq|] == Entry(dist'[s], s);
      } else if s !in rank {
        assert Entry(dist[s], s) in pq;
      }
    }
  }

  lemma RelaxedAfterRelax(adj: Adjacency, start: string, dist: map<string, int>, arrival: map<string, int>,
                          x: string, e: Edge, total: int)
    requires RelaxedFrom(adj, start, dist, arrival, x)
    requires x != e.to && e.to in dist && total < dist[e.to]
    ensures RelaxedFrom(adj, start, dist[e.to := total], arrival[e.to := e.arrival], x)
  {
  }

  /** The first `k` edges out of `u` (reached at clock time `uArrival`) have been relaxed. */
  ghost predicate RelaxedUpTo(start: string, u: string, uArrival: int, edges: seq<Edge>, k: int, dist: map<string, int>)
    requires 0 <= k <= |edges|
  {
    u in dist && forall j :: 0 <= j < k ==>
      edges[j].to in dist && dist[edges[j].to] <= dist[u] + LegMinutes(start, u, edges[j], uArrival)
  }

  /** What the scan over the edges of the settled station `u` (reached at clock time `uArrival`,
      `uDist` minutes from the start) keeps besides `Core`. */
  ghost predicate ScanLocal(adj: Adjacency, start: string, u: string, uArrival: int, uDist: int, k: int,
                            dist: map<string, int>, arrival: map<string, int>, rank: map<string, nat>)
  {
    && u in adj && u in rank && 0 <= k <= |adj[u]|
    && u in dist && u in arrival && dist[u] == uDist && arrival[u] == uArrival
    && (forall x :: x in rank && x in dist ==> dist[x] <= uDist)
    && (forall x :: x in rank && x != u ==> RelaxedFrom(adj, start, dist, arrival, x))
    && RelaxedUpTo(start, u, uArrival, adj[u], k, dist)
  }

  ghost predicate Scanning(adj: Adjacency, start: string, u: string, uArrival: int, uDist: int, k: int,
                           dist: map<string, int>, prev: map<string, string>, arrival: map<string, int>,
                           pq: seq<Entry>, via: map<string, Edge>, rank: map<string, nat>, count: nat)
  {
    && WellTimed(adj)
    && Core(adj, start, dist, prev, arrival, pq, via, rank, count)
    && ScanLocal(adj, start, u, uArrival, uDist, k, dist, arrival, rank)
  }

  /** Taking the `k`-th edge out of `u` when it improves on the destination's distance. */
  lemma ScanImproves(adj: Adjacency, start: string, u: string, uArrival: int, uDist: int, k: int,
                     dist: map<string, int>, prev: map<string, string>, arrival: map<string, int>,
                     pq: seq<Entry>, via: map<string, Edge>, rank: map<string, nat>, count: nat, total: int)
    requires Scanning(adj, start, u, uArrival, uDist, k, dist, prev, arrival, pq, via, rank, count)
    requires k < |adj[u]| && adj[u][k].to in dist
    requires total == uDist + LegMinutes(start, u, adj[u][k], uArrival) && total < dist[adj[u][k].to]
    ensures var e := adj[u][k];
      Scanning(adj, start, u, uArrival, uDist, k + 1, dist[e.to := total], prev[e.to := u],
               arrival[e.to := e.arrival], pq + [Entry(total, e.to)], via[e.to := e], rank, count)
  {
    var e := adj[u][k];
    assert EdgeOk(e);
    assert e.to !in rank && e.to != u && 0 <= total;
    CoreAfterRelax(adj, start, dist, prev, arrival, pq, via, rank, count, u, e, total);
    LocalAfterRelax(adj, start, u, uArrival, uDist, k, dist, arrival, rank, total);
  }

  lemma CoreAfterRelax(adj: Adjacency, start: string, dist: map<string, int>, prev: map<string, string>,
                       arrival: map<string, int>, pq: seq<Entry>, via: map<string, Edge>,
                       rank: map<string, nat>, count: nat, u: string, e: Edge, total: int)
    requires Core(adj, start, dist, prev, arrival, pq, via, rank, count)
    requires u in rank && u in adj && e in adj[u] && e.to in dist && e.to !in rank
    requires 0 <= total < dist[e.to] && IsClockTime(e.arrival)
    requires total == dist[u] + LegMinutes(start, u, e, arrival[u])
    requires forall x :: x in rank ==> dist[x] <= total
    ensures Core(adj, start, dist[e.to := total], prev[e.to := u], arrival[e.to := e.arrival],
                 pq + [Entry(total, e.to)], via[e.to := e], rank, count)
  {
    LinkedAfterRelax(adj, start, dist, prev, arrival, via, rank, u, e, total);
    RankedAfterRelax(dist, arrival, rank, count, e, total);
    QueuedAfterRelax(dist, arrival, pq, rank, e, total);
  }

  lemma LocalAfterRelax(adj: Adjacency, start: string, u: string, uArrival: int, uDist: int, k: int,
                        dist: map<string, int>, arrival: map<string, int>, rank: map<string, nat>, total: int)
    requires ScanLocal(adj, start, u, uArrival, uDist, k, dist, arrival, rank)
    requires k < |adj[u]|
    requires var v := adj[u][k].to; v in dist && v !in rank && v != u && total < dist[v]
    requires total == uDist + LegMinutes(start, u, adj[u][k], uArrival)
    ensures var e := adj[u][k];
      ScanLocal(adj, start, u, uArrival, uDist, k + 1, dist[e.to := total], arrival[e.to := e.arrival], rank)
  {
    var e := adj[u][k];
    OthersRelaxedAfterRelax(adj, start, dist, arrival, rank, u, e, total);
    UpToAfterRelax(start, u, uArrival, adj[u], k, dist, total);
  }

  lemma OthersRelaxedAfterRelax(adj: Adjacency, start: string, dist: map<string, int>, arrival: map<string, int>,
                                rank: map<string, nat>, u: string, e: Edge, total: int)
    requires forall x :: x in rank && x != u ==> RelaxedFrom(adj, start, dist, arrival, x)
    requires e.to !in rank && e.to in dist && total < dist[e.to]
    ensures forall x :: x in rank && x != u ==> RelaxedFrom(adj, start, dist[e.to := total], arrival[e.to := e.arrival], x)
  {
    forall x | x in rank && x != u
      ensures RelaxedFrom(adj, start, dist[e.to := total], arrival[e.to := e.arrival], x)
    {
      RelaxedAfterRelax(adj, start, dist, arrival, x, e, total);
    }
  }

  lemma UpToAfterRelax(start: string, u: string, uArrival: int, edges: seq<Edge>, k: int,
                       dist: map<string, int>, total: int)
    requires 0 <= k < |edges| && RelaxedUpTo(start, u, uArrival, edges, k, dist)
    requires edges[k].to in dist && edges[k].to != u && total < dist[edges[k].to]
    requires total == dist[u] + LegMinutes(start, u, edges[k], uArrival)
    ensures RelaxedUpTo(start, u, uArrival, edges, k + 1, dist[edges[k].to := total])
  {
  }

  /** Skipping the `k`-th edge out of `u` when it does not improve. */
  lemma ScanKeeps(adj: Adjacency, start: string, u: string, uArrival: int, uDist: int, k: int,
                  dist: map<string, int>, prev: map<string, string>, arrival: map<string, int>,
                  pq: seq<Entry>, via: map<string, Edge>, rank: map<string, nat>, count: nat, total: int)
    requires Scanning(adj, start, u, uArrival, uDist, k, dist, prev, arrival, pq, via, rank, count)
    requires k < |adj[u]| && adj[u][k].to in dist
    requires total == uDist + LegMinutes(start, u, adj[u][k], uArrival) && dist[adj[u][k].to] <= total
    ensures Scanning(adj, start, u, uArrival, uDist, k + 1, dist, prev, arrival, pq, via, rank, count)
  {
    UpToAfterKeep(start, u, uArrival, adj[u], k, dist);
  }

  lemma UpToAfterKeep(start: string, u: string, uArrival: int, edges: seq<Edge>, k: int, dist: map<string, int>)
    requires 0 <= k < |edges| && RelaxedUpTo(start, u, uArrival, edges, k, dist)
    requires edges[k].to in dist && dist[edges[k].to] <= dist[u] + LegMinutes(start, u, edges[k], uArrival)
    ensures RelaxedUpTo(start, u, uArrival, edges, k + 1, dist)
  {
  }

  lemma ScanStarts(adj: Adjacency, start: string, u: string,
                   dist: map<string, int>, prev: map<string, string>, arrival: map<string, int>,
                   pq: seq<Entry>, via: map<string, Edge>, rank: map<string, nat>, count: nat)
    requires WellTimed(adj) && u in adj && u in rank
    requires Core(adj, start, dist, prev, arrival, pq, via, rank, count)
    requires forall x :: x in rank && x != u ==> RelaxedFrom(adj, start, dist, arrival, x)
    requires forall x :: x in rank ==> dist[x] <= dist[u]
    ensures u in dist && u in arrival
    ensures Scanning(adj, start, u, arrival[u], dist[u], 0, dist, prev, arrival, pq, via, rank, count)
  {
  }

  lemma ScanEnds(adj: Adjacency, start: string, u: string, uArrival: int, uDist: int,
                 dist: map<string, int>, prev: map<string, string>, arrival: map<string, int>,
                 pq: seq<Entry>, via: map<string, Edge>, rank: map<string, nat>, count: nat)
    requires u in adj
    requires Scanning(adj, start, u, uArrival, uDist, |adj[u]|, dist, prev, arrival, pq, via, rank, count)
    ensures SearchInv(adj, start, dist, prev, arrival, pq, via, rank, count)
  {
    forall e | e in adj[u]
      ensures e.to in dist && dist[e.to] <= dist[u] + LegMinutes(start, u, e, arrival[u])
    {
      var j :| 0 <= j < |adj[u]| && adj[u][j] == e;
    }
  }

  /** The inner loop of `find_fastest_path` over the edges of a settled station `u`:
      each edge's total (distance, travel, layover unless `u` is the start) replaces
      the destination's distance, `prev` and arrival time when it is smaller, and is
      queued. Settled stations are never improved, and a station settled before is
      re-scanned to no effect. */
  method RelaxEdges(adj: Adjacency, start: string, u: string,
                    dist0: map<string, int>, prev0: map<string, string>, arrival0: map<string, int>,
                    pq0: seq<Entry>, ghost via0: map<string, Edge>, ghost rank: map<string, nat>,
                    ghost count: nat, ghost settledBefore: bool)
    returns (dist: map<string, int>, prev: map<string, string>, arrival: map<string, int>,
             pq: seq<Entry>, ghost via: map<string, Edge>)
    requires WellTimed(adj) && u in adj && u in rank
    requires Core(adj, start, dist0, prev0, arrival0, pq0, via0, rank, count)
    requires forall x :: x in rank && (x != u || settledBefore) ==> RelaxedFrom(adj, start, dist0, arrival0, x)
    requires forall x :: x in rank ==> dist0[x] <= dist0[u]
    ensures SearchInv(adj, start, dist, prev, arrival, pq, via, rank, count)
    ensures settledBefore ==> pq == pq0
  {
    dist, prev, arrival, pq, via := dist0, prev0, arrival0, pq0, via0;
    var edges := adj[u];
    var uArrival := arrival[u];
    ghost var uDist := dist[u];
    ScanStarts(adj, start, u, dist, prev, arrival, pq, via, rank, count);
    assert settledBefore ==> RelaxedFrom(adj, start, dist0, arrival0, u);
    for k := 0 to |edges|
      invariant Scanning(adj, start, u, uArrival, uDist, k, dist, prev, arrival, pq, via, rank, count)
      invariant settledBefore ==> dist == dist0 && prev == prev0 && arrival == arrival0 && pq == pq0 && via == via0
    {
      var e := edges[k];
      assert e in adj[u];
      EdgeEndsAreStations(adj, u, e);
      var v := e.to;
      var waitTime := 0;
      if u != start {
        waitTime := e.departure - uArrival;
        if waitTime < 0 {
          waitTime := waitTime + 1440;
        }
      }
      var total := dist[u] + e.travel + waitTime;
      assert total == uDist + LegMinutes(start, u, e, uArrival) by {
        assert EdgeOk(e);
      }
      if total < dist[v] {
        assert !settledBefore;
        ScanImproves(adj, start, u, uArrival, uDist, k, dist, prev, arrival, pq, via, rank, count, total);
        dist := dist[v := total];
        prev := prev[v := u];
        arrival := arrival[v := e.arrival];
        pq := pq + [Entry(total, v)];
        via := via[v := e];
      } else {
        ScanKeeps(adj, start, u, uArrival, uDist, k, dist, prev, arrival, pq, via, rank, count, total);
      }
    }
    ScanEnds(adj, start, u, uArrival, uDist, dist, prev, arrival, pq, via, rank, count);
  }

  // ---------------------------------------------------------------------
  // Popping the queue

  /** The queue after removing its `i`-th entry. */
  function Without(pq: seq<Entry>, i: int): (r: seq<Entry>)
    requires 0 <= i < |pq|
    ensures |r| == |pq| - 1
    ensures forall j :: 0 <= j < |r| ==> r[j] == pq[if j < i then j else j + 1]
    ensures multiset(r) + multiset{pq[i]} == multiset(pq)
  {
    assert pq == pq[..i] + [pq[i]] + pq[i + 1..];
    pq[..i] + pq[i + 1..]
  }

  /** Removing an entry keeps every other entry. */
  lemma WithoutKeeps(pq: seq<Entry>, i: int, x: Entry)
    requires 0 <= i < |pq| && x in pq && x != pq[i]
    ensures x in Without(pq, i)
  {
    assert x in multiset(pq);
  }

  /** Popping an entry that is not the reached station's own current entry, or whose station
      is settled, keeps the queue invariant. */
  lemma QueuedAfterPop(dist: map<string, int>, arrival: map<string, int>, pq: seq<Entry>, rank: map<string, nat>, i: int)
    requires rank.Keys <= dist.Keys && Queued(dist, arrival, pq, rank) && 0 <= i < |pq|
    requires pq[i].station in rank || pq[i].time != dist[pq[i].station]
    ensures Queued(dist, arrival, Without(pq, i), rank)
  {
    var pq' := Without(pq, i);
    forall s | s in dist && dist[s] < IntMax && s !in rank
      ensures Entry(dist[s], s) in pq'
    {
      WithoutKeeps(pq, i, Entry(dist[s], s));
    }
  }

  /** A popped entry that lost to a later improvement is skipped (`continue`). */
  lemma PopStale(adj: Adjacency, start: string, dist: map<string, int>, prev: map<string, string>,
                 arrival: map<string, int>, pq: seq<Entry>, via: map<string, Edge>,
                 rank: map<string, nat>, count: nat, i: int)
    requires SearchInv(adj, start, dist, prev, arrival, pq, via, rank, count)
    requires 0 <= i < |pq| && pq[i].station in dist && pq[i].time > dist[pq[i].station]
    ensures SearchInv(adj, start, dist, prev, arrival, Without(pq, i), via, rank, count)
  {
    QueuedAfterPop(dist, arrival, pq, rank, i);
  }

  /** A popped entry that is its station's current distance settles the station (it gets
      the next rank unless it already has one): no queued entry is smaller, so no later
      relaxation can improve it, and no station settled before it is farther. */
  lemma SettleOrder(adj: Adjacency, start: string, dist: map<string, int>, arrival: map<string, int>,
                    pq: seq<Entry>, rank: map<string, nat>, count: nat, i: int, rank': map<string, nat>)
    requires rank.Keys <= dist.Keys && Queued(dist, arrival, pq, rank)
    requires forall x :: x in rank ==> RelaxedFrom(adj, start, dist, arrival, x)
    requires IsMinAt(pq, i) && pq[i].station in dist && pq[i].time == dist[pq[i].station]
    requires var u := pq[i].station; if u in rank then rank' == rank else rank' == rank[u := count]
    ensures var u := pq[i].station;
      && u in rank'
      && (forall x :: x in rank' && (x != u || u in rank) ==> RelaxedFrom(adj, start, dist, arrival, x))
      && (forall x :: x in rank' ==> dist[x] <= dist[u])
  {
  }

  /** A settled station with no edges out of it needs no relaxing. */
  lemma SettleLeaf(adj: Adjacency, start: string, dist: map<string, int>, prev: map<string, string>,
                   arrival: map<string, int>, pq: seq<Entry>, via: map<string, Edge>,
                   rank: map<string, nat>, count: nat, u: string)
    requires WellTimed(adj) && Core(adj, start, dist, prev, arrival, pq, via, rank, count)
    requires forall x :: x in rank && x != u ==> RelaxedFrom(adj, start, dist, arrival, x)
    requires u !in adj
    ensures SearchInv(adj, start, dist, prev, arrival, pq, via, rank, count)
  {
  }

  lemma SettleCore(adj: Adjacency, start: string, dist: map<string, int>, prev: map<string, string>,
                   arrival: map<string, int>, pq: seq<Entry>, via: map<string, Edge>,
                   rank: map<string, nat>, count: nat, i: int, rank': map<string, nat>, count': nat)
    requires Core(adj, start, dist, prev, arrival, pq, via, rank, count)
    requires IsMinAt(pq, i) && pq[i].station in dist && pq[i].time == dist[pq[i].station]
    requires var u := pq[i].station;
      if u in rank then rank' == rank && count' == count else rank' == rank[u := count] && count' == count + 1
    ensures Core(adj, start, dist, prev, arrival, Without(pq, i), via, rank', count')
  {
    var u := pq[i].station;
    assert u in arrival;
    assert Ranked(dist, arrival, rank', count');
    SettleLinked(adj, start, dist, prev, arrival, via, rank, count, u, rank');
    forall x, j | x in rank' && 0 <= j < |pq|
      ensures dist[x] <= pq[j].time
    {
    }
    assert Queued(dist, arrival, pq, rank');
    QueuedAfterPop(dist, arrival, pq, rank', i);
  }

  lemma SettleLinked(adj: Adjacency, start: string, dist: map<string, int>, prev: map<string, string>,
                     arrival: map<string, int>, via: map<string, Edge>,
                     rank: map<string, nat>, count: nat, u: string, rank': map<string, nat>)
    requires Shape(adj, start, dist, prev, arrival, via) && Ranked(dist, arrival, rank, count)
    requires Linked(adj, start, dist, prev, arrival, via, rank)
    requires u in arrival
    requires if u in rank then rank' == rank else rank' == rank[u := count]
    ensures rank'.Keys <= arrival.Keys
    ensures Linked(adj, start, dist, prev, arrival, via, rank')
  {
    forall v | v in prev && v in rank'
      ensures rank'[prev[v]] < rank'[v]
    {
      assert prev[v] in rank;
    }
  }

  /** Settling a new station leaves fewer stations to settle. */
  lemma FewerUnsettled(stations: set<string>, rank: map<string, nat>, u: string, n: nat)
    requires u in stations && u !in rank
    ensures |stations - rank[u := n].Keys| < |stations - rank.Keys|
  {
    assert stations - rank.Keys == (stations - rank[u := n].Keys) + {u};
  }

  // ---------------------------------------------------------------------
  // What the search establishes

  /** `route` and `legs` lead from `start` to `end` through the graph. */
  predicate RouteFrom(adj: Adjacency, start: string, end: string, route: seq<string>, legs: seq<Edge>)
  {
    IsRoute(adj, route, legs) && route[0] == start && route[|route| - 1] == end
  }

  /** The state once the queue is empty: every reached station is settled and relaxed. */
  ghost predicate Closed(adj: Adjacency, start: string, dist: map<string, int>, arrival: map<string, int>,
                         rank: map<string, nat>)
  {
    && WellTimed(adj) && start in dist && dist[start] == 0
    && (forall s :: s in dist && dist[s] < IntMax ==> s in rank && s in arrival && IsClockTime(arrival[s]))
    && (forall x :: x in rank ==> RelaxedFrom(adj, start, dist, arrival, x))
  }

  lemma ClosedWhenExhausted(adj: Adjacency, start: string, dist: map<string, int>, prev: map<string, string>,
                            arrival: map<string, int>, via: map<string, Edge>, rank: map<string, nat>, count: nat)
    requires SearchInv(adj, start, dist, prev, arrival, [], via, rank, count)
    ensures Closed(adj, start, dist, arrival, rank)
  {
  }

  /** Once the queue is empty, every station `n` legs along a route from the start has a
      distance of at most `n` longest legs (the search reached it). */
  lemma {:induction false} Exhausted(adj: Adjacency, start: string, dist: map<string, int>, arrival: map<string, int>,
                                     rank: map<string, nat>, route: seq<string>, legs: seq<Edge>, n: nat)
    requires Closed(adj, start, dist, arrival, rank)
    requires IsRoute(adj, route, legs) && route[0] == start
    requires n <= |legs| && n * MaxLegMinutes < IntMax
    ensures route[n] in dist && dist[route[n]] <= n * MaxLegMinutes
  {
    if n > 0 {
      Exhausted(adj, start, dist, arrival, rank, route, legs, n - 1);
      var x, e := route[n - 1], legs[n - 1];
      assert x in adj && e in adj[x];
      assert EdgeOk(e);
      assert RelaxedFrom(adj, start, dist, arrival, x);
    }
  }

  /** A route's elapsed time does not depend on the clock time it starts from when it
      starts at the start station: no layover is charged there. */
  lemma FromStartAnyTime(start: string, route: seq<string>, legs: seq<Edge>, a: int, b: int)
    requires |route| == |legs| + 1 && route[0] == start
    ensures RouteMinutes(start, route, legs, a) == RouteMinutes(start, route, legs, b)
  {
  }

  /** One more leg in front of a route adds that leg's minutes. */
  lemma RouteMinutesCons(start: string, p: string, e: Edge, route: seq<string>, legs: seq<Edge>, a: int)
    requires |route| == |legs| + 1
    ensures RouteMinutes(start, [p] + route, [e] + legs, a)
         == LegMinutes(start, p, e, a) + RouteMinutes(start, route, legs, e.arrival)
  {
    assert ([p] + route)[1..] == route;
    assert ([e] + legs)[1..] == legs;
  }

  /** Every station of the walk but the last is settled, and settling order increases
      along the walk. */
  ghost predicate RankedWalk(rank: map<string, nat>, w: seq<string>)
  {
    && (forall i :: 0 <= i < |w| - 1 ==> w[i] in rank)
    && (forall i, j :: 0 <= i < j < |w| && w[j] in rank ==> w[i] in rank && rank[w[i]] < rank[w[j]])
  }

  lemma WalkCons(rank: map<string, nat>, p: string, w: seq<string>)
    requires RankedWalk(rank, w) && w != [] && p in rank
    requires w[0] in rank ==> rank[p] < rank[w[0]]
    ensures RankedWalk(rank, [p] + w)
  {
    var w' := [p] + w;
    forall i, j | 0 <= i < j < |w'| && w'[j] in rank
      ensures w'[i] in rank && rank[w'[i]] < rank[w'[j]]
    {
      if i == 0 && j > 1 {
        assert w'[1] == w[0] && w'[j] == w[j - 1];
      }
    }
  }

  /** A walk ordered by settling order visits no station twice. */
  lemma WalkDistinct(rank: map<string, nat>, w: seq<string>)
    requires RankedWalk(rank, w)
    ensures forall i, j :: 0 <= i < j < |w| ==> w[i] != w[j]
  {
    forall i, j | 0 <= i < j < |w|
      ensures w[i] != w[j]
    {
      if w[j] in rank {
        assert rank[w[i]] < rank[w[j]];
      }
    }
  }

  lemma RouteCons(adj: Adjacency, p: string, e: Edge, w: seq<string>, legs: seq<Edge>)
    requires IsRoute(adj, w, legs) && p in adj && e in adj[p] && e.to == w[0]
    ensures IsRoute(adj, [p] + w, [e] + legs)
  {
  }

  /** The reconstruction loop's invariant: `[curr] + tail` is a walk to `end` over `legs`
      that accounts for `end`'s distance from `curr`'s. */
  ghost predicate Traced(adj: Adjacency, start: string, end: string, dist: map<string, int>, arrival: map<string, int>,
                         rank: map<string, nat>, curr: string, tail: seq<string>, legs: seq<Edge>)
  {
    && curr in dist && dist[curr] < IntMax && curr in arrival && end in dist
    && IsRoute(adj, [curr] + tail, legs)
    && ([curr] + tail)[|tail|] == end
    && dist[end] == dist[curr] + RouteMinutes(start, [curr] + tail, legs, arrival[curr])
    && RankedWalk(rank, [curr] + tail)
  }

  /** One step back along `prev` keeps the invariant and moves to an earlier settled station. */
  lemma TraceStep(adj: Adjacency, start: string, end: string, dist: map<string, int>, prev: map<string, string>,
                  arrival: map<string, int>, via: map<string, Edge>, rank: map<string, nat>, count: nat,
                  curr: string, tail: seq<string>, legs: seq<Edge>)
    requires Shape(adj, start, dist, prev, arrival, via)
    requires Ranked(dist, arrival, rank, count)
    requires Linked(adj, start, dist, prev, arrival, via, rank)
    requires Traced(adj, start, end, dist, arrival, rank, curr, tail, legs) && curr != start
    ensures curr in prev && curr in via
    ensures Traced(adj, start, end, dist, arrival, rank, prev[curr], [curr] + tail, [via[curr]] + legs)
    ensures prev[curr] in rank && rank[prev[curr]] < (if curr in rank then rank[curr] else count)
  {
    var p := prev[curr];
    RouteMinutesCons(start, p, via[curr], [curr] + tail, legs, arrival[p]);
    RouteCons(adj, p, via[curr], [curr] + tail, legs);
    WalkCons(rank, p, [curr] + tail);
    assert [p] + ([curr] + tail) == [p] + [curr] + tail;
  }

  /** The reconstruction of `find_fastest_path`: follow `prev` back from `end` to `start`,
      prepending " -> station" at each step, then put the start in front. The
      "Path reconstruction failed" branch cannot be taken. */
  method TracePath(ghost adj: Adjacency, start: string, end: string, dist: map<string, int>, prev: map<string, string>,
                   ghost arrival: map<string, int>, ghost via: map<string, Edge>,
                   ghost rank: map<string, nat>, ghost count: nat)
    returns (path: string, route: seq<string>, ghost legs: seq<Edge>)
    requires Shape(adj, start, dist, prev, arrival, via)
    requires Ranked(dist, arrival, rank, count)
    requires Linked(adj, start, dist, prev, arrival, via, rank)
    requires end in dist && dist[end] < IntMax
    ensures RouteFrom(adj, start, end, route, legs)
    ensures path == Join(route)
    ensures dist[end] == RouteMinutes(start, route, legs, 0)
    ensures forall i, j :: 0 <= i < j < |route| ==> route[i] != route[j]
  {
    path := "";
    var curr := end;
    var tail: seq<string> := [];
    legs := [];
    assert RouteMinutes(start, [curr], [], arrival[curr]) == 0;
    while curr != start
      invariant Traced(adj, start, end, dist, arrival, rank, curr, tail, legs)
      invariant path == Arrows(tail)
      decreases if curr in rank then rank[curr] else count
    {
      path := " -> " + curr + path;
      TraceStep(adj, start, end, dist, prev, arrival, via, rank, count, curr, tail, legs);
      assert curr in prev;
      tail := [curr] + tail;
      legs := [via[curr]] + legs;
      curr := prev[curr];
    }
    path := start + path;
    route := [start] + tail;
    JoinArrows(start, tail);
    FromStartAnyTime(start, route, legs, arrival[start], 0);
    WalkDistinct(rank, route);
  }

  // ---------------------------------------------------------------------
  // The graph object

  /** Every source in `done` and every destination of its edges is in `stations`. */
  ghost predicate Covers(adj: Adjacency, done: set<string>, stations: set<string>)
  {
    forall s :: s in done && s in adj ==> s in stations && forall e :: e in adj[s] ==> e.to in stations
  }

  lemma CoversAdd(adj: Adjacency, before: set<string>, stations: set<string>, done: set<string>,
                  station: string, edges: seq<Edge>)
    requires station in adj && edges == adj[station] && done == (done - {station}) + {station}
    requires Covers(adj, done - {station}, before) && before + {station} <= stations
    requires forall k :: 0 <= k < |edges| ==> edges[k].to in stations
    ensures Covers(adj, done, stations)
  {
    forall e | e in adj[station]
      ensures e.to in stations
    {
      var k :| 0 <= k < |edges| && edges[k] == e;
    }
  }

  /** The first loop of `find_fastest_path`: every source station and every destination. */
  method CollectStations(adj: Adjacency) returns (stations: set<string>)
    ensures stations == Stations(adj)
  {
    stations := {};
    var todo := adj.Keys;
    while todo != {}
      invariant todo <= adj.Keys
      invariant stations <= Stations(adj)
      invariant Covers(adj, adj.Keys - todo, stations)
      decreases |todo|
    {
      var station :| station in todo;
      ghost var before := stations;
      stations := stations + {station};
      var edges := adj[station];
      for j := 0 to |edges|
        invariant before + {station} <= stations <= Stations(adj)
        invariant forall k :: 0 <= k < j ==> edges[k].to in stations
      {
        EdgeEndsAreStations(adj, station, edges[j]);
        stations := stations + {edges[j].to};
      }
      todo := todo - {station};
      CoversAdd(adj, before, stations, adj.Keys - todo, station, edges);
    }
    CoveredAll(adj, stations);
  }

  lemma CoveredAll(adj: Adjacency, stations: set<string>)
    requires stations <= Stations(adj) && Covers(adj, adj.Keys - {}, stations)
    ensures stations == Stations(adj)
  {
    assert adj.Keys - {} == adj.Keys;
  }

  /** The graph `find_fastest_path` searches, built by `build_graph_with_time`. */
  class Routes {
    var adj: Adjacency

    /** Every stored edge has in-range clock times and the duration computed from them. */
    ghost predicate Valid()
      reads this
    {
      WellTimed(adj)
    }

    constructor()
      ensures Valid() && adj == map[]
    {
      adj := map[];
    }

    /** `clear_graph`. */
    method Clear()
      modifies this
      ensures Valid() && adj == map[]
    {
      adj := map[];
    }

    /** `build_graph_with_time`: appends an edge to the list of `from`, with the travel
        time wrapped past midnight for an overnight leg. */
    method AddEdge(from: string, to: string, departure: int, arrival: int)
      requires Valid() && IsClockTime(departure) && IsClockTime(arrival)
      modifies this
      ensures Valid()
      ensures adj == old(adj)[from := (if from in old(adj) then old(adj)[from] else [])
                                       + [Edge(to, departure, arrival, ClockGap(departure, arrival))]]
    {
      var duration := arrival - departure;
      if duration < 0 {
        duration := duration + 1440;
      }
      var edges := if from in adj then adj[from] else [];
      adj := adj[from := edges + [Edge(to, departure, arrival, duration)]];
    }

    /** `find_fastest_path(from_station, to_station)`. The answer is a real route through the
        graph whose elapsed time is the one reported, it visits no station twice, and the search
        misses no destination that some route reaches. */
    method FindFastestPath(start: string, end: string) returns (outcome: Outcome, text: string)
      requires Valid()
      ensures text == Report(start, end, outcome)
      ensures outcome == StartNotFound <==> start !in Stations(adj)
      ensures outcome.Found? ==>
        && (exists legs :: RouteFrom(adj, start, end, outcome.route, legs)
                           && outcome.minutes == RouteMinutes(start, outcome.route, legs, 0))
        && forall i, j :: 0 <= i < j < |outcome.route| ==> outcome.route[i] != outcome.route[j]
      ensures start in Stations(adj) ==>
        forall route, legs :: RouteFrom(adj, start, end, route, legs) && |legs| * MaxLegMinutes < IntMax
          ==> outcome.Found?
      ensures outcome.Found? ==>
        exists dist, prev, arrival, via, rank ::
          Labelled(adj, start, end, dist, prev, arrival, via, rank)
          && end in dist && dist[end] < IntMax && outcome.minutes == dist[end]
    {
      var stations := CollectStations(adj);
      var dist: map<string, int> := map s | s in stations :: IntMax;
      if start !in dist {
        outcome := StartNotFound;
        text := "Error: Starting station '" + start + "' not found in routes.";
        return;
      }
      var prev, arrival;
      ghost var via, rank, count, reachedEnd;
      dist, prev, arrival, via, rank, count, reachedEnd := Search(adj, start, end, dist);

      if end !in dist || dist[end] == IntMax {
        outcome := NoPath;
        text := "No path found from " + start + " to " + end + ".";
        NoRouteWhenExhausted(adj, start, end, dist, prev, arrival, via, rank, count);
      } else {
        var path, route;
        ghost var legs;
        path, route, legs := TracePath(adj, start, end, dist, prev, arrival, via, rank, count);
        assert Labelled(adj, start, end, dist, prev, arrival, via, rank);
        var totalMins := dist[end];
        var hours := totalMins / 60;
        var mins := totalMins % 60;
        text := "Fastest Path: " + path + " (Total time: " + Decimal.NatText(hours) + "h "
                + Decimal.NatText(mins) + "m)";
        outcome := Found(route, totalMins);
      }
    }
  }

  /** The main loop of `find_fastest_path`, from the start at distance 0 and clock time 0 until
      the queue is empty or the destination is popped. */
  method Search(adj: Adjacency, start: string, end: string, dist0: map<string, int>)
    returns (dist: map<string, int>, prev: map<string, string>, arrival: map<string, int>,
             ghost via: map<string, Edge>, ghost rank: map<string, nat>, ghost count: nat, ghost reachedEnd: bool)
    requires WellTimed(adj) && dist0 == (map s | s in Stations(adj) :: IntMax) && start in dist0
    ensures Shape(adj, start, dist, prev, arrival, via) && Ranked(dist, arrival, rank, count)
    ensures Linked(adj, start, dist, prev, arrival, via, rank)
    ensures reachedEnd ==> end in dist && dist[end] < IntMax
    ensures !reachedEnd ==> SearchInv(adj, start, dist, prev, arrival, [], via, rank, count)
    ensures Labelled(adj, start, end, dist, prev, arrival, via, rank)
  {
    dist := dist0[start := 0];
    arrival := map[start := 0];
    prev := map[];
    var pq := [Entry(0, start)];
    via := map[];
    rank := map[];
    count := 0;
    reachedEnd := false;
    SearchStarts(adj, start, dist0);

    while pq != []
      invariant SearchInv(adj, start, dist, prev, arrival, pq, via, rank, count)
      invariant !reachedEnd
      invariant start in rank || (rank == map[] && pq == [Entry(0, start)])
      decreases |Stations(adj) - rank.Keys|, |pq|
    {
      MinExists(pq);
      var i :| IsMinAt(pq, i);
      var d, u := pq[i].time, pq[i].station;
      ghost var pq0 := pq;
      pq := Without(pq, i);
      if d > dist[u] {
        PopStale(adj, start, dist, prev, arrival, pq0, via, rank, count, i);
        continue;
      }
      if u == end {
        reachedEnd := true;
        break;
      }
      dist, prev, arrival, pq, via, rank, count := SettleAndRelax(adj, start, u, dist, prev, arrival, pq, pq0, i, via, rank, count);
    }
  }

  /** Every station at "infinity" but the start at 0, reached at clock time 0 and queued. */
  lemma SearchStarts(adj: Adjacency, start: string, dist0: map<string, int>)
    requires WellTimed(adj) && dist0 == (map s | s in Stations(adj) :: IntMax) && start in dist0
    ensures SearchInv(adj, start, dist0[start := 0], map[], map[start := 0], [Entry(0, start)], map[], map[], 0)
  {
    var dist := dist0[start := 0];
    assert dist.Keys == Stations(adj);
    forall s | s in dist && dist[s] < IntMax
      ensures s == start
    {
    }
  }

  /** The rest of one round of the main loop once the popped entry `pq[i]` is its station's
      current distance and not the destination: settle the station and relax its edges. */
  method SettleAndRelax(adj: Adjacency, start: string, u: string, dist0: map<string, int>, prev0: map<string, string>,
                        arrival0: map<string, int>, popped: seq<Entry>, ghost pq0: seq<Entry>, ghost i: int,
                        ghost via0: map<string, Edge>, ghost rank0: map<string, nat>, ghost count0: nat)
    returns (dist: map<string, int>, prev: map<string, string>, arrival: map<string, int>, pq: seq<Entry>,
             ghost via: map<string, Edge>, ghost rank: map<string, nat>, ghost count: nat)
    requires SearchInv(adj, start, dist0, prev0, arrival0, pq0, via0, rank0, count0)
    requires IsMinAt(pq0, i) && u == pq0[i].station && u in dist0 && pq0[i].time == dist0[u]
    requires popped == Without(pq0, i)
    ensures SearchInv(adj, start, dist, prev, arrival, pq, via, rank, count)
    ensures u in rank && rank0.Keys <= rank.Keys
    ensures |Stations(adj) - rank.Keys| < |Stations(adj) - rank0.Keys|
         || (|Stations(adj) - rank.Keys| == |Stations(adj) - rank0.Keys| && |pq| < |pq0|)
  {
    pq := popped;
    ghost var settledBefore := u in rank0;
    rank, count := rank0, count0;
    if !settledBefore {
      rank, count := rank0[u := count0], count0 + 1;
      FewerUnsettled(Stations(adj), rank0, u, count0);
    }
    assert u in rank && rank0.Keys <= rank.Keys;
    SettleCore(adj, start, dist0, prev0, arrival0, pq0, via0, rank0, count0, i, rank, count);
    SettleOrder(adj, start, dist0, arrival0, pq0, rank0, count0, i, rank);
    if u in adj {
      dist, prev, arrival, pq, via := RelaxEdges(adj, start, u, dist0, prev0, arrival0, pq, via0, rank, count, settledBefore);
    } else {
      dist, prev, arrival, via := dist0, prev0, arrival0, via0;
      SettleLeaf(adj, start, dist, prev, arrival, pq, via, rank, count, u);
    }
  }

  /** When the search ends with an empty queue and `end` unreached, no route of boundedly many
      legs leads there. */
  lemma NoRouteWhenExhausted(adj: Adjacency, start: string, end: string, dist: map<string, int>,
                             prev: map<string, string>, arrival: map<string, int>, via: map<string, Edge>,
                             rank: map<string, nat>, count: nat)
    requires SearchInv(adj, start, dist, prev, arrival, [], via, rank, count)
    requires end !in dist || dist[end] == IntMax
    ensures forall route, legs :: RouteFrom(adj, start, end, route, legs) && |legs| * MaxLegMinutes < IntMax ==> false
  {
    ClosedWhenExhausted(adj, start, dist, prev, arrival, via, rank, count);
    forall route, legs | RouteFrom(adj, start, end, route, legs) && |legs| * MaxLegMinutes < IntMax
      ensures false
    {
      Exhausted(adj, start, dist, arrival, rank, route, legs, |legs|);
    }
  }
}
