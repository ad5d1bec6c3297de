/** The seat inventory written by seed_database.py: the class-dependent berth labels of
    `get_berth_type(seat_num, coach_class)` and the list of seat records that
    `generate_inventory_data` builds before its single bulk insert. */
module Inventory {
  import Decimal
  import Berth

  /** `get_berth_type(seat_num, coach_class)` of the seeding script. Sleeper and AC3 coaches
      share the 8-berth bay, AC2 coaches have 6-berth bays without middle berths, AC1 coaches
      are cabins and any other class is labelled a window seat. */
  function SeedBerth(seat: int, coachClass: string): (name: string)
    ensures coachClass == "AC1" ==> name == "Cabin"
    ensures coachClass !in {"Sleeper", "AC3", "AC2", "AC1"} ==> name == "Window"
    ensures coachClass in {"Sleeper", "AC3"} ==>
      name in {"Lower", "Middle", "Upper", "Side Lower", "Side Upper"}
    ensures coachClass == "AC2" ==> name in {"Lower", "Upper", "Side Lower", "Side Upper"}
  {
    if (coachClass == "Sleeper" || coachClass == "AC3") && seat % 8 in {1, 4} then "Lower"
    else if (coachClass == "Sleeper" || coachClass == "AC3") && seat % 8 in {2, 5} then "Middle"
    else if (coachClass == "Sleeper" || coachClass == "AC3") && seat % 8 in {3, 6} then "Upper"
    else if (coachClass == "Sleeper" || coachClass == "AC3") && seat % 8 == 7 then "Side Lower"
    else if (coachClass == "Sleeper" || coachClass == "AC3") && seat % 8 == 0 then "Side Upper"
    else if coachClass == "AC2" && seat % 6 in {1, 3} then "Lower"
    else if coachClass == "AC2" && seat % 6 in {2, 4} then "Upper"
    else if coachClass == "AC2" && seat % 6 == 5 then "Side Lower"
    else if coachClass == "AC2" && seat % 6 == 0 then "Side Upper"
    else if coachClass == "AC1" then "Cabin"
    else "Window"
  }

  /** How the seeding script spells each berth of the allocator's bay. */
  function Spelling(b: Berth.Berth): string
  {
    match b
    case Lower => "Lower"
    case Middle => "Middle"
    case Upper => "Upper"
    case SideLower => "Side Lower"
    case SideUpper => "Side Upper"
    case Unknown => "Unknown"
  }

  /** For Sleeper and AC3 coaches the seeded label is the allocator's `get_berth_type`
      of core_logic/core_logic.cpp, spelled differently. */
  lemma {:induction false} SleeperAgreesWithAllocator(seat: int, coachClass: string)
    requires seat >= 0 && coachClass in {"Sleeper", "AC3"}
    ensures SeedBerth(seat, coachClass) == Spelling(Berth.BerthOf(seat))
  {
    Berth.NeverUnknown(seat);
  }

  /** The allocator ignores the class: in an AC2 coach seat 2 is seeded as an upper berth
      while the allocator calls it a middle one. */
  lemma AC2DisagreesWithAllocator()
    ensures SeedBerth(2, "AC2") == "Upper"
    ensures Spelling(Berth.BerthOf(2)) == "Middle"
  {
  }

  /** The labels repeat with the bay: every 8 seats for Sleeper and AC3, every 6 for AC2. */
  lemma {:induction false} SeedBerthPeriodic(seat: int, coachClass: string)
    ensures coachClass in {"Sleeper", "AC3"} ==> SeedBerth(seat + 8, coachClass) == SeedBerth(seat, coachClass)
    ensures coachClass == "AC2" ==> SeedBerth(seat + 6, coachClass) == SeedBerth(seat, coachClass)
  {
    assert (seat + 8) % 8 == seat % 8;
    assert (seat + 6) % 6 == seat % 6;
  }

  /** A coach of `COACH_LAYOUT`: name, class and number of berths. */
  datatype Coach = Coach(name: string, coachClass: string, berths: nat)

  /** A train of `TRAINS_TO_CREATE` (the base fare, a float, is not modelled). */
  datatype Train = Train(number: string, name: string)

  /** One tuple of `seat_data_to_insert`. */
  datatype SeatRow = SeatRow(coachId: int, seatNumber: string, berthType: string)

  const Trains: seq<Train> := [
    Train("12951", "Mumbai Rajdhani"),
    Train("12001", "Shatabdi Express"),
    Train("12859", "Gitanjali Express")
  ]

  const CoachLayout: seq<Coach> := [
    Coach("S1", "Sleeper", 72), Coach("S2", "Sleeper", 72), Coach("S3", "Sleeper", 72),
    Coach("S4", "Sleeper", 72), Coach("S5", "Sleeper", 72), Coach("S6", "Sleeper", 72),
    Coach("S7", "Sleeper", 72), Coach("S8", "Sleeper", 72),
    Coach("B1", "AC3", 64), Coach("B2", "AC3", 64), Coach("B3", "AC3", 64),
    Coach("A1", "AC2", 48),
    Coach("H1", "AC1", 24)
  ]

  /** The rows of one coach: seats "1" to its berth count, in order. */
  function CoachRows(coachId: int, coach: Coach): (rows: seq<SeatRow>)
    ensures |rows| == coach.berths
  {
    seq(coach.berths, i requires 0 <= i < coach.berths =>
      SeatRow(coachId, Decimal.NatText(i + 1), SeedBerth(i + 1, coach.coachClass)))
  }

  /** The coaches created, in order: the layout once per train. */
  function Repeat(layout: seq<Coach>, times: nat): seq<Coach>
  {
    if times == 0 then [] else Repeat(layout, times - 1) + layout
  }

  /** The rows of the coaches in order, each coach with the id the database gave it. */
  function RowsFor(coaches: seq<Coach>, ids: seq<int>): seq<SeatRow>
    requires |coaches| == |ids|
  {
    if coaches == [] then []
    else RowsFor(coaches[..|coaches| - 1], ids[..|ids| - 1]) + CoachRows(ids[|ids| - 1], coaches[|coaches| - 1])
  }

  function TotalBerths(coaches: seq<Coach>): nat
  {
    if coaches == [] then 0 else TotalBerths(coaches[..|coaches| - 1]) + coaches[|coaches| - 1].berths
  }

  /** The seat-list construction of `generate_inventory_data`: for each train, for each coach of
      the layout, one row per berth. `coachIds` are the ids `cursor.lastrowid` returned for the
      coach inserts, in order. */
  method GenerateSeatRows(trains: seq<Train>, layout: seq<Coach>, coachIds: seq<int>) returns (rows: seq<SeatRow>)
    requires |coachIds| == |Repeat(layout, |trains|)|
    ensures rows == RowsFor(Repeat(layout, |trains|), coachIds)
  {
    rows := [];
    var c := 0;
    for t := 0 to |trains|
      invariant c == |Repeat(layout, t)| <= |coachIds|
      invariant rows == RowsFor(Repeat(layout, t), coachIds[..c])
    {
      RepeatGrows(layout, t + 1, |trains|);
      ghost var ids := coachIds[c..c + |layout|];
      rows := AppendTrain(rows, layout, coachIds, c);
      RowsForAppend(Repeat(layout, t), coachIds[..c], layout, ids);
      assert coachIds[..c + |layout|] == coachIds[..c] + ids;
      c := c + |layout|;
    }
    assert coachIds[..c] == coachIds;
  }

  /** The coach loop for one train: the layout's coaches in order, with the ids
      `coachIds[c..]`. */
  method AppendTrain(rows0: seq<SeatRow>, layout: seq<Coach>, coachIds: seq<int>, c: nat) returns (rows: seq<SeatRow>)
    requires c + |layout| <= |coachIds|
    ensures rows == rows0 + RowsFor(layout, coachIds[c..c + |layout|])
  {
    rows := rows0;
    for j := 0 to |layout|
      invariant rows == rows0 + RowsFor(layout[..j], coachIds[c..c + j])
    {
      var coach := layout[j];
      var coachId := coachIds[c + j];
      ghost var before := RowsFor(layout[..j], coachIds[c..c + j]);
      rows := AppendSeats(rows, coachId, coach);
      NextCoach(layout, coachIds, c, j);
      assert rows == rows0 + (before + CoachRows(coachId, coach));
    }
    assert layout[..|layout|] == layout;
  }

  /** Taking coach `j` of the layout with the id after `c + j`. */
  lemma NextCoach(layout: seq<Coach>, coachIds: seq<int>, c: nat, j: nat)
    requires j < |layout| && c + |layout| <= |coachIds|
    ensures RowsFor(layout[..j + 1], coachIds[c..c + j + 1])
         == RowsFor(layout[..j], coachIds[c..c + j]) + CoachRows(coachIds[c + j], layout[j])
  {
    assert layout[..j + 1][..j] == layout[..j];
    assert coachIds[c..c + j + 1][..j] == coachIds[c..c + j];
  }

  /** The innermost loop: seats 1 to `total_berths` of one coach, appended in order. */
  method AppendSeats(rows0: seq<SeatRow>, coachId: int, coach: Coach) returns (rows: seq<SeatRow>)
    ensures rows == rows0 + CoachRows(coachId, coach)
  {
    rows := rows0;
    for i := 1 to coach.berths + 1
      invariant rows == rows0 + CoachRows(coachId, coach)[..i - 1]
    {
      rows := rows + [SeatRow(coachId, Decimal.NatText(i), SeedBerth(i, coach.coachClass))];
      assert CoachRows(coachId, coach)[..i] == CoachRows(coachId, coach)[..i - 1] + [CoachRows(coachId, coach)[i - 1]];
    }
    assert CoachRows(coachId, coach)[..coach.berths] == CoachRows(coachId, coach);
  }

  /** Later trains only add coaches. */
  lemma {:induction false} RepeatGrows(layout: seq<Coach>, t: nat, times: nat)
    requires t <= times
    ensures |Repeat(layout, t)| <= |Repeat(layout, times)|
    decreases times
  {
    if t < times {
      RepeatGrows(layout, t, times - 1);
    }
  }

  lemma {:induction false} RepeatLength(layout: seq<Coach>, times: nat)
    ensures |Repeat(layout, times)| == times * |layout|
  {
    if times > 0 {
      RepeatLength(layout, times - 1);
      assert (times - 1) * |layout| + |layout| == times * |layout|;
    }
  }

  /** Rows of two runs of coaches are the rows of the first, then of the second. */
  lemma {:induction false} RowsForAppend(a: seq<Coach>, ia: seq<int>, b: seq<Coach>, ib: seq<int>)
    requires |a| == |ia| && |b| == |ib|
    ensures RowsFor(a + b, ia + ib) == RowsFor(a, ia) + RowsFor(b, ib)
    decreases |b|
  {
    if b == [] {
      assert a + b == a && ia + ib == ia;
    } else {
      RowsForAppend(a, ia, b[..|b| - 1], ib[..|ib| - 1]);
      DropLast(a, b);
      DropLast(ia, ib);
    }
  }

  lemma DropLast<T>(a: seq<T>, b: seq<T>)
    requires b != []
    ensures (a + b)[..|a + b| - 1] == a + b[..|b| - 1]
  {
  }

  /** The list has one row per berth of every coach created. */
  lemma {:induction false} RowsForLength(coaches: seq<Coach>, ids: seq<int>)
    requires |coaches| == |ids|
    ensures |RowsFor(coaches, ids)| == TotalBerths(coaches)
    decreases |coaches|
  {
    if coaches != [] {
      RowsForLength(coaches[..|coaches| - 1], ids[..|ids| - 1]);
    }
  }

  lemma {:induction false} TotalBerthsAppend(a: seq<Coach>, b: seq<Coach>)
    ensures TotalBerths(a + b) == TotalBerths(a) + TotalBerths(b)
    decreases |b|
  {
    if b != [] {
      assert (a + b)[..|a + b| - 1] == a + b[..|b| - 1];
      TotalBerthsAppend(a, b[..|b| - 1]);
    } else {
      assert a + b == a;
    }
  }

  lemma {:induction false} TotalBerthsRepeat(layout: seq<Coach>, times: nat)
    ensures TotalBerths(Repeat(layout, times)) == times * TotalBerths(layout)
  {
    if times > 0 {
      TotalBerthsRepeat(layout, times - 1);
      TotalBerthsAppend(Repeat(layout, times - 1), layout);
      var n := TotalBerths(layout);
      assert (times - 1) * n + n == times * n;
    }
  }

  lemma {:induction false} UniformBerths(coaches: seq<Coach>, berths: nat)
    requires forall i :: 0 <= i < |coaches| ==> coaches[i].berths == berths
    ensures TotalBerths(coaches) == berths * |coaches|
    decreases |coaches|
  {
    if coaches != [] {
      UniformBerths(coaches[..|coaches| - 1], berths);
    }
  }

  lemma PairBerths(a: Coach, b: Coach)
    ensures TotalBerths([a, b]) == a.berths + b.berths
  {
    assert [a, b][..1] == [a];
    assert [a][..0] == [];
    assert TotalBerths([a]) == a.berths;
  }

  /** Eight sleeper coaches of 72, three AC3 of 64, one AC2 of 48 and one AC1 of 24 make 840
      berths per train and 2520 for the three trains. */
  lemma SeededSeats(coachIds: seq<int>)
    requires |coachIds| == |Repeat(CoachLayout, |Trains|)|
    ensures TotalBerths(CoachLayout) == 840
    ensures |Repeat(CoachLayout, |Trains|)| == 39
    ensures |RowsFor(Repeat(CoachLayout, |Trains|), coachIds)| == 2520
  {
    var l := CoachLayout;
    var sleepers, ac3, rest := l[..8], l[8..11], l[11..];
    assert l == sleepers + ac3 + rest;
    UniformBerths(sleepers, 72);
    UniformBerths(ac3, 64);
    assert rest == [l[11], l[12]];
    PairBerths(l[11], l[12]);
    TotalBerthsAppend(sleepers, ac3);
    TotalBerthsAppend(sleepers + ac3, rest);
    TotalBerthsRepeat(CoachLayout, |Trains|);
    RepeatLength(CoachLayout, |Trains|);
    RowsForLength(Repeat(CoachLayout, |Trains|), coachIds);
  }

  /** Within a coach the seat numbers are all different: the seat table can key
      seats by coach and number. */
  lemma SeatNumbersDistinct(coachId: int, coach: Coach, i: int, j: int)
    requires 0 <= i < j < coach.berths
    ensures CoachRows(coachId, coach)[i].seatNumber != CoachRows(coachId, coach)[j].seatNumber
  {
    if Decimal.NatText(i + 1) == Decimal.NatText(j + 1) {
      Decimal.NatTextInjective(i + 1, j + 1);
    }
  }

  /** Row `i` of the `k`-th coach sits after all rows of the coaches before it. */
  lemma {:induction false} RowAt(coaches: seq<Coach>, ids: seq<int>, k: int, i: int)
    requires |coaches| == |ids| && 0 <= k < |coaches| && 0 <= i < coaches[k].berths
    ensures TotalBerths(coaches[..k]) + i < |RowsFor(coaches, ids)|
    ensures RowsFor(coaches, ids)[TotalBerths(coaches[..k]) + i]
         == SeatRow(ids[k], Decimal.NatText(i + 1), SeedBerth(i + 1, coaches[k].coachClass))
    decreases |coaches|
  {
    var n := |coaches|;
    var front, frontIds := coaches[..n - 1], ids[..n - 1];
    var head, last := RowsFor(front, frontIds), CoachRows(ids[n - 1], coaches[n - 1]);
    assert RowsFor(coaches, ids) == head + last;
    RowsForLength(front, frontIds);
    if k == n - 1 {
      assert coaches[..k] == front;
      assert (head + last)[|head| + i] == last[i];
    } else {
      RowAt(front, frontIds, k, i);
      assert front[..k] == coaches[..k];
      var at := TotalBerths(coaches[..k]) + i;
      assert (head + last)[at] == head[at];
    }
  }
}
