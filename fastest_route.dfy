/** The least elapsed time of a timed route, and the graph on which `find_fastest_path`
    (core_logic/core_logic.cpp) misses it. The search keeps one distance per station and
    relaxes a station's legs from the clock time its distance was set with; a slower arrival
    that is in time for a connection is then lost. The corrected definition keeps one label
    per station and arrival clock time, as a search over (station, clock time) pairs does. */
module FastestRoute {
  import opened RouteGraph
  import Decimal

  datatype Label = Unreached | Reached(minutes: int)

  /** The least element of a non-empty finite set. */
  ghost function Least(s: set<int>): (m: int)
    requires s != {}
    ensures m in s && forall y :: y in s ==> m <= y
    decreases s
  {
    assert (forall y :: y !in s) ==> s == {};
    var x :| x in s;
    var rest := s - {x};
    if rest == {} then
      assert s == {x};
      x
    else
      var r := Least(rest);
      assert forall y :: y in s ==> y == x || y in rest;
      if x < r then x else r
  }

  /** Clock time of arrival at the end of `legs`, having set out at clock time `a`. */
  function ArrivedAt(legs: seq<Edge>, a: int): int
  {
    if legs == [] then a else legs[|legs| - 1].arrival
  }

  /** `route` with `legs` leads from `start` to `v` and arrives there at clock time `c`,
      the start being reached at clock time 0 as in the search. */
  predicate Reaches(adj: Adjacency, start: string, route: seq<string>, legs: seq<Edge>, v: string, c: int)
  {
    IsRoute(adj, route, legs) && route[0] == start && route[|route| - 1] == v && ArrivedAt(legs, 0) == c
  }

  /** The elapsed times of the routes of at most `k + 1` legs that end with a leg into `v`
      arriving at clock time `c`, each built from a best label of at most `k` legs. */
  ghost function Extended(adj: Adjacency, start: string, k: nat, v: string, c: int): set<int>
    decreases k + 1, 0
  {
    set u, e, b | u in adj && e in adj[u] && e.to == v && e.arrival == c
                  && 0 <= b < MinutesPerDay && Best(adj, start, k, u, b).Reached?
                :: Best(adj, start, k, u, b).minutes + LegMinutes(start, u, e, b)
  }

  /** Bellman-Ford over (station, clock time) pairs: the least elapsed time of a route of at
      most `k` legs from `start` to `v` that arrives at clock time `c`. */
  ghost function Best(adj: Adjacency, start: string, k: nat, v: string, c: int): Label
    decreases k, 1
  {
    if k == 0 then
      if v == start && c == 0 then Reached(0) else Unreached
    else
      var stay := Best(adj, start, k - 1, v, c);
      var all := Extended(adj, start, k - 1, v, c) + (if stay.Reached? then {stay.minutes} else {});
      if all == {} then Unreached else Reached(Least(all))
  }

  /** The corrected result: the least elapsed time from `start` to `end` over routes of at
      most `k` legs, whatever the clock time of arrival. */
  ghost function Fastest(adj: Adjacency, start: string, end: string, k: nat): Label
  {
    var times := ArrivalLabels(adj, start, end, k);
    if times == {} then Unreached else Reached(Least(times))
  }

  /** The labels of `end` over all clock times of arrival. */
  ghost function ArrivalLabels(adj: Adjacency, start: string, end: string, k: nat): set<int>
  {
    set c | 0 <= c < MinutesPerDay && Best(adj, start, k, end, c).Reached? :: Best(adj, start, k, end, c).minutes
  }

  /** A leg added at the end of a route adds that leg's minutes, with the layover counted
      from the clock time the route arrived at. */
  lemma {:induction false} RouteMinutesSnoc(start: string, route: seq<string>, legs: seq<Edge>,
                                            w: string, e: Edge, a: int)
    requires |route| == |legs| + 1
    ensures RouteMinutes(start, route + [w], legs + [e], a)
         == RouteMinutes(start, route, legs, a) + LegMinutes(start, route[|route| - 1], e, ArrivedAt(legs, a))
    decreases |legs|
  {
    if legs != [] {
      RouteMinutesSnoc(start, route[1..], legs[1..], w, e, legs[0].arrival);
      assert (route + [w])[1..] == route[1..] + [w];
      assert (legs + [e])[1..] == legs[1..] + [e];
    }
  }

  /** A well-timed route arrives at an in-range clock time. */
  lemma ArrivalInRange(adj: Adjacency, route: seq<string>, legs: seq<Edge>)
    requires WellTimed(adj) && IsRoute(adj, route, legs)
    ensures IsClockTime(ArrivedAt(legs, 0))
  {
    if legs != [] {
      var n := |legs| - 1;
      assert route[n] in adj && legs[n] in adj[route[n]];
      assert EdgeOk(legs[n]);
    }
  }

  /** Every route of at most `k` legs is at least as slow as the label of its last station
      and arrival clock time. */
  lemma {:induction false} BestBelowRoute(adj: Adjacency, start: string, k: nat, route: seq<string>, legs: seq<Edge>)
    requires WellTimed(adj) && IsRoute(adj, route, legs) && route[0] == start && |legs| <= k
    ensures Best(adj, start, k, route[|route| - 1], ArrivedAt(legs, 0)).Reached?
    ensures Best(adj, start, k, route[|route| - 1], ArrivedAt(legs, 0)).minutes <= RouteMinutes(start, route, legs, 0)
    decreases k
  {
    var v, c := route[|route| - 1], ArrivedAt(legs, 0);
    if k == 0 {
      assert route == [start] && legs == [];
    } else if |legs| < k {
      BestBelowRoute(adj, start, k - 1, route, legs);
    } else {
      var n := |legs|;
      var pr, pl := route[..n], legs[..n - 1];
      assert IsRoute(adj, pr, pl) by {
        forall i | 0 <= i < |pl|
          ensures pr[i] in adj && pl[i] in adj[pr[i]] && pl[i].to == pr[i + 1]
        {
          assert route[i] in adj && legs[i] in adj[route[i]] && legs[i].to == route[i + 1];
        }
      }
      BestBelowRoute(adj, start, k - 1, pr, pl);
      ArrivalInRange(adj, pr, pl);
      var u, e, b := route[n - 1], legs[n - 1], ArrivedAt(pl, 0);
      assert route == pr + [v] && legs == pl + [e];
      RouteMinutesSnoc(start, pr, pl, v, e, 0);
      assert u in adj && e in adj[u] && e.to == v && e.arrival == c;
      assert Best(adj, start, k - 1, u, b).minutes + LegMinutes(start, u, e, b) in Extended(adj, start, k - 1, v, c);
    }
  }

  /** Every label is the elapsed time of a route of at most `k` legs that it describes. */
  lemma {:induction false} BestAttained(adj: Adjacency, start: string, k: nat, v: string, c: int)
    requires Best(adj, start, k, v, c).Reached?
    ensures exists route, legs :: Reaches(adj, start, route, legs, v, c) && |legs| <= k
                                  && RouteMinutes(start, route, legs, 0) == Best(adj, start, k, v, c).minutes
    decreases k, 1
  {
    var m := Best(adj, start, k, v, c).minutes;
    if k == 0 {
      assert Reaches(adj, start, [start], [], v, c);
    } else {
      var stay := Best(adj, start, k - 1, v, c);
      if stay.Reached? && m == stay.minutes {
        BestAttained(adj, start, k - 1, v, c);
      } else {
        ExtendedAttained(adj, start, k - 1, v, c, m);
      }
    }
  }

  /** Every time in `Extended` is the elapsed time of a route of at most `k + 1` legs. */
  lemma {:induction false} ExtendedAttained(adj: Adjacency, start: string, k: nat, v: string, c: int, m: int)
    requires m in Extended(adj, start, k, v, c)
    ensures exists route, legs :: Reaches(adj, start, route, legs, v, c) && |legs| <= k + 1
                                  && RouteMinutes(start, route, legs, 0) == m
    decreases k + 1, 0
  {
    var u, e, b :| u in adj && e in adj[u] && e.to == v && e.arrival == c
                   && 0 <= b < MinutesPerDay && Best(adj, start, k, u, b).Reached?
                   && m == Best(adj, start, k, u, b).minutes + LegMinutes(start, u, e, b);
    BestAttained(adj, start, k, u, b);
    var pr, pl :| Reaches(adj, start, pr, pl, u, b) && |pl| <= k
                  && RouteMinutes(start, pr, pl, 0) == Best(adj, start, k, u, b).minutes;
    RouteMinutesSnoc(start, pr, pl, v, e, 0);
    var route, legs := pr + [v], pl + [e];
    assert IsRoute(adj, route, legs) by {
      forall i | 0 <= i < |legs|
        ensures route[i] in adj && legs[i] in adj[route[i]] && legs[i].to == route[i + 1]
      {
        if i < |pl| {
          assert route[i] == pr[i] && legs[i] == pl[i] && route[i + 1] == pr[i + 1];
        }
      }
    }
    assert Reaches(adj, start, route, legs, v, c);
  }

  /** The corrected result is no slower than any route of at most `k` legs. */
  lemma FastestIsLeast(adj: Adjacency, start: string, end: string, k: nat, route: seq<string>, legs: seq<Edge>)
    requires WellTimed(adj) && RouteFrom(adj, start, end, route, legs) && |legs| <= k
    ensures Fastest(adj, start, end, k).Reached?
    ensures Fastest(adj, start, end, k).minutes <= RouteMinutes(start, route, legs, 0)
  {
    BestBelowRoute(adj, start, k, route, legs);
    ArrivalInRange(adj, route, legs);
    var c := ArrivedAt(legs, 0);
    assert Best(adj, start, k, end, c).minutes in ArrivalLabels(adj, start, end, k);
  }

  /** The corrected result is the elapsed time of a real route of at most `k` legs. */
  lemma FastestAttained(adj: Adjacency, start: string, end: string, k: nat)
    requires Fastest(adj, start, end, k).Reached?
    ensures exists route, legs :: RouteFrom(adj, start, end, route, legs) && |legs| <= k
                                  && RouteMinutes(start, route, legs, 0) == Fastest(adj, start, end, k).minutes
  {
    var c :| 0 <= c < MinutesPerDay && Best(adj, start, k, end, c).Reached?
             && Best(adj, start, k, end, c).minutes == Fastest(adj, start, end, k).minutes;
    BestAttained(adj, start, k, end, c);
    var route, legs :| Reaches(adj, start, route, legs, end, c) && |legs| <= k
                       && RouteMinutes(start, route, legs, 0) == Best(adj, start, k, end, c).minutes;
    assert RouteFrom(adj, start, end, route, legs);
  }

  // ---------------------------------------------------------------------
  // The graph on which the search reports a slower route

  const Early := Edge("A", 0, 10, 10)
  const Late := Edge("A", 500, 505, 5)
  const Onward := Edge("E", 20, 30, 10)

  /** S to A departing 00:00 and arriving 00:10, S to A departing 08:20 and arriving 08:25,
      and A to E departing 00:20 and arriving 00:30. */
  function LateConnection(): (adj: Adjacency)
    ensures WellTimed(adj)
  {
    map["S" := [Early, Late], "A" := [Onward]]
  }

  /** The only leg into E is A's. */
  lemma IntoE(p: string, e: Edge)
    requires p in LateConnection() && e in LateConnection()[p] && e.to == "E"
    ensures p == "A" && e == Onward
  {
    assert "A"[0] != "E"[0];
  }

  /** The legs into A are S's two. */
  lemma IntoA(p: string, e: Edge)
    requires p in LateConnection() && e in LateConnection()[p] && e.to == "A"
    ensures p == "S" && (e == Early || e == Late)
  {
    assert "A"[0] != "E"[0];
  }

  /** The `prev` link of a reached station other than the start, read off the labelling. */
  lemma LinkOf(adj: Adjacency, start: string, end: string, dist: map<string, int>, prev: map<string, string>,
               arrival: map<string, int>, via: map<string, Edge>, rank: map<string, nat>, v: string)
    requires Labelled(adj, start, end, dist, prev, arrival, via, rank)
    requires v in dist && dist[v] < IntMax && v != start
    ensures v in prev && prev[v] in rank && prev[v] in adj && via[v] in adj[prev[v]] && via[v].to == v
    ensures prev[v] in dist && prev[v] in arrival && arrival[v] == via[v].arrival
    ensures dist[v] == dist[prev[v]] + LegMinutes(start, prev[v], via[v], arrival[prev[v]])
    ensures dist[prev[v]] < IntMax
  {
    assert v in arrival;
  }

  /** A leg out of the settled start bounds the distance of where it leads. */
  lemma RelaxedAtStart(adj: Adjacency, start: string, end: string, dist: map<string, int>, prev: map<string, string>,
                       arrival: map<string, int>, via: map<string, Edge>, rank: map<string, nat>, e: Edge)
    requires Labelled(adj, start, end, dist, prev, arrival, via, rank)
    requires start != end && start in adj && e in adj[start]
    ensures e.to in dist && dist[e.to] <= e.travel
  {
    assert RelaxedFrom(adj, start, dist, arrival, start);
  }

  /** Whatever order the search settles stations in, relaxing S leaves A with the
      5-minute leg and its 08:25 arrival, so E gets 5 + 955 + 10 = 970 minutes. */
  lemma LateConnectionLabel(dist: map<string, int>, prev: map<string, string>, arrival: map<string, int>,
                            via: map<string, Edge>, rank: map<string, nat>)
    requires Labelled(LateConnection(), "S", "E", dist, prev, arrival, via, rank)
    requires "E" in dist && dist["E"] < IntMax
    ensures dist["E"] == 970
  {
    var adj := LateConnection();
    assert "S"[0] != "E"[0] && "S"[0] != "A"[0];
    LinkOf(adj, "S", "E", dist, prev, arrival, via, rank, "E");
    IntoE(prev["E"], via["E"]);
    LinkOf(adj, "S", "E", dist, prev, arrival, via, rank, "A");
    IntoA(prev["A"], via["A"]);
    RelaxedAtStart(adj, "S", "E", dist, prev, arrival, via, rank, Late);
    assert via["A"] == Late;
  }

  /** The route through the early leg takes 30 minutes: 10 on the train, 10 waiting at A,
      10 on the train. */
  lemma EarlyRoute()
    ensures RouteFrom(LateConnection(), "S", "E", ["S", "A", "E"], [Early, Onward])
    ensures RouteMinutes("S", ["S", "A", "E"], [Early, Onward], 0) == 30
  {
    assert "A"[0] != "S"[0];
    assert ["S", "A", "E"][1..] == ["A", "E"] && [Early, Onward][1..] == [Onward];
    assert RouteMinutes("S", ["A", "E"], [Onward], 10) == 20;
  }

  /** `find_fastest_path` as written, on this graph: it answers 970 minutes, 16h 10m. */
  method LateConnectionRun() returns (outcome: Outcome, text: string)
    ensures outcome == Found(["S", "A", "E"], 970)
    ensures text == "Fastest Path: " + "S -> A -> E" + " (Total time: " + "16" + "h " + "10" + "m)"
  {
    var routes := BuildLateConnection();
    EarlyRoute();
    outcome, text := routes.FindFastestPath("S", "E");
    assert outcome.Found?;
    ghost var dist, prev, arrival, via, rank :| Labelled(routes.adj, "S", "E", dist, prev, arrival, via, rank)
                                          && "E" in dist && dist["E"] < IntMax && outcome.minutes == dist["E"];
    LateConnectionLabel(dist, prev, arrival, via, rank);
    OnlyRoute(outcome.route);
    LateConnectionReport();
  }

  /** 970 minutes print as 16h 10m. */
  lemma LateConnectionReport()
    ensures Report("S", "E", Found(["S", "A", "E"], 970))
         == "Fastest Path: " + "S -> A -> E" + " (Total time: " + "16" + "h " + "10" + "m)"
  {
    assert Join(["S", "A", "E"]) == "S" + " -> " + ("A" + " -> " + "E") by {
      assert ["S", "A", "E"][1..] == ["A", "E"] && ["A", "E"][1..] == ["E"];
    }
    assert "S" + " -> " + ("A" + " -> " + "E") == "S -> A -> E";
    assert Decimal.NatText(16) == "16" by {
      assert Decimal.NatText(1) == "1";
    }
    assert Decimal.NatText(10) == "10" by {
      assert Decimal.NatText(1) == "1";
    }
  }

  /** The three `build_graph_with_time` calls that make the graph. */
  method BuildLateConnection() returns (routes: Routes)
    ensures routes.Valid() && routes.adj == LateConnection()
  {
    routes := new Routes();
    routes.AddEdge("S", "A", 0, 10);
    assert [] + [Edge("A", 0, 10, ClockGap(0, 10))] == [Early];
    assert routes.adj == map["S" := [Early]];
    routes.AddEdge("S", "A", 500, 505);
    assert [Early] + [Edge("A", 500, 505, ClockGap(500, 505))] == [Early, Late];
    assert routes.adj == map["S" := [Early, Late]];
    assert "A" !in routes.adj by {
      assert "A"[0] != "S"[0];
    }
    routes.AddEdge("A", "E", 20, 30);
    assert [] + [Edge("E", 20, 30, ClockGap(20, 30))] == [Onward];
  }

  /** The only route from S to E that never stops short is S, A, E. */
  lemma OnlyRoute(route: seq<string>)
    requires exists legs :: RouteFrom(LateConnection(), "S", "E", route, legs)
    ensures route == ["S", "A", "E"]
  {
    var adj := LateConnection();
    var legs :| RouteFrom(adj, "S", "E", route, legs);
    assert "S"[0] != "E"[0] && "A"[0] != "E"[0];
    assert |route| != 1;
    IntoA(route[0], legs[0]);
    assert route[1] == "A";
    assert |route| != 2;
    IntoE(route[1], legs[1]);
    assert route[2] == "E";
    assert "E" !in adj;
    assert !(2 < |legs|);
  }

  /** Through the early leg the route takes 30 minutes, through the late one 970. */
  lemma RouteTimes(legs: seq<Edge>)
    requires RouteFrom(LateConnection(), "S", "E", ["S", "A", "E"], legs)
    ensures RouteMinutes("S", ["S", "A", "E"], legs, 0) >= 30
  {
    var adj := LateConnection();
    IntoA("S", legs[0]);
    IntoE("A", legs[1]);
    assert "A"[0] != "S"[0];
    assert ["S", "A", "E"][1..] == ["A", "E"] && legs[1..] == [Onward];
    assert RouteMinutes("S", ["A", "E"], [Onward], legs[0].arrival) >= 20;
  }

  /** The corrected result on this graph is the 30-minute route through the early leg,
      however many legs are allowed beyond the two the route needs. */
  lemma LateConnectionFastest(k: nat)
    requires k >= 2
    ensures Fastest(LateConnection(), "S", "E", k) == Reached(30)
  {
    var adj := LateConnection();
    EarlyRoute();
    FastestIsLeast(adj, "S", "E", k, ["S", "A", "E"], [Early, Onward]);
    FastestAttained(adj, "S", "E", k);
    var route, legs :| RouteFrom(adj, "S", "E", route, legs) && |legs| <= k
                       && RouteMinutes("S", route, legs, 0) == Fastest(adj, "S", "E", k).minutes;
    OnlyRoute(route);
    RouteTimes(legs);
  }
}
