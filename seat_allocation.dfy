/** Seat allocation of core_logic/core_logic.cpp (`find_best_seat`) and the
    `BookingResult` record of core_logic/core_logic.h. */
module SeatAllocation {
  import opened Berth
  import Decimal

  /** Sizes of the record's character buffers, terminator included. */
  const StatusSize: nat := 5
  const SeatNumberSize: nat := 10
  const BerthTypeSize: nat := 15

  /** `BookingResult`: the buffers hold their text up to the terminator. */
  datatype BookingResult = BookingResult(seatId: int, status: string, seatNumber: string, berthType: string)

  /** Each text fits its buffer together with the terminating NUL. */
  predicate FitsBuffers(r: BookingResult)
  {
    |r.status| < StatusSize && |r.seatNumber| < SeatNumberSize && |r.berthType| < BerthTypeSize
  }

  /** `snprintf(buf, size, "%s", s)`: at most size - 1 characters are kept. */
  function Snprintf(s: string, size: nat): (r: string)
    requires size >= 1
    ensures |r| < size && r <= s
    ensures |s| < size ==> r == s
  {
    if |s| < size then s else s[..size - 1]
  }

  /** Whether a berth satisfies a preference string; "ANY" and every
      unrecognised string match nothing. */
  predicate Matches(pref: string, b: Berth)
  {
    || (pref == "LOWER" && (b == Lower || b == SideLower))
    || (pref == "MIDDLE" && b == Middle)
    || (pref == "UPPER" && (b == Upper || b == SideUpper))
    || (pref == "SIDE" && (b == SideLower || b == SideUpper))
  }

  /** Seat `s` exists in the coach and is not among the occupied numbers. */
  predicate Free(occupied: seq<int>, total: int, s: int)
  {
    1 <= s <= total && s !in occupied
  }

  predicate WantedFree(occupied: seq<int>, total: int, pref: string, s: int)
  {
    Free(occupied, total, s) && Matches(pref, BerthOf(s))
  }

  /** The seat the allocator must choose: the lowest free seat matching the
      preference if there is one, otherwise the lowest free seat. */
  ghost predicate IsBestSeat(occupied: seq<int>, total: int, pref: string, s: int)
  {
    && Free(occupied, total, s)
    && if exists t :: WantedFree(occupied, total, pref, t) then
         Matches(pref, BerthOf(s)) && forall t :: 1 <= t < s && t !in occupied ==> !Matches(pref, BerthOf(t))
       else
         forall t :: 1 <= t < s ==> t in occupied
  }

  /** The result written when no seat is free. */
  const Waitlisted := BookingResult(-1, "WL", "WL", "WL")

  /** `find_best_seat(occupied_seats, occupied_count, total_seats, seat_id_start, preference)`,
      with the occupied array as a sequence. */
  method FindBestSeat(occupied: seq<int>, totalSeats: int, seatIdStart: int, preference: string)
    returns (r: BookingResult)
    ensures FitsBuffers(r)
    ensures r.status == "CNF" <==> exists s :: Free(occupied, totalSeats, s)
    ensures r.status == "CNF" ==>
      var s := r.seatId - seatIdStart + 1;
      && IsBestSeat(occupied, totalSeats, preference, s)
      && r.seatNumber == Snprintf(Decimal.NatText(s), SeatNumberSize)
      && r.berthType == Label(BerthOf(s))
    ensures r.status != "CNF" ==> r == Waitlisted
  {
    var booked: set<int> := {};
    var i := 0;
    while i < |occupied|
      invariant 0 <= i <= |occupied|
      invariant forall x :: x in booked <==> x in occupied[..i]
    {
      booked := booked + {occupied[i]};
      i := i + 1;
    }
    assert occupied[..i] == occupied;

    var found := -1;
    if preference != "ANY" {
      var k := 1;
      while k <= totalSeats
        invariant 1 <= k && (k <= totalSeats + 1 || k == 1)
        invariant found == -1
        invariant forall t :: 1 <= t < k && t !in occupied ==> !Matches(preference, BerthOf(t))
      {
        if k !in booked && Matches(preference, BerthOf(k)) {
          found := k;
          break;
        }
        k := k + 1;
      }
      assert found != -1 ==> WantedFree(occupied, totalSeats, preference, found);
    }
    ghost var wanted := exists t :: WantedFree(occupied, totalSeats, preference, t);
    assert found == -1 ==> !wanted;

    if found == -1 {
      var k := 1;
      while k <= totalSeats
        invariant 1 <= k && (k <= totalSeats + 1 || k == 1)
        invariant found == -1
        invariant forall t :: 1 <= t < k ==> t in occupied
      {
        if k !in booked {
          found := k;
          break;
        }
        k := k + 1;
      }
    }

    if found != -1 {
      assert IsBestSeat(occupied, totalSeats, preference, found);
      r := BookingResult(seatIdStart + (found - 1), "CNF",
                         Snprintf(Decimal.NatText(found), SeatNumberSize), Label(BerthOf(found)));
    } else {
      r := Waitlisted;
    }
  }

  /** At most one seat satisfies `IsBestSeat`, so the allocator's choice is determined. */
  lemma BestSeatUnique(occupied: seq<int>, total: int, pref: string, s1: int, s2: int)
    requires IsBestSeat(occupied, total, pref, s1) && IsBestSeat(occupied, total, pref, s2)
    ensures s1 == s2
  {
  }

  /** "ANY" and every string other than the four preferences ("SIDE_LOWER", say)
      choose plainly the lowest free seat. */
  lemma UnrecognisedPreference(occupied: seq<int>, total: int, pref: string, s: int)
    requires pref !in {"LOWER", "MIDDLE", "UPPER", "SIDE"}
    ensures IsBestSeat(occupied, total, pref, s) <==>
      Free(occupied, total, s) && forall t :: 1 <= t < s ==> t in occupied
  {
    assert forall t :: !WantedFree(occupied, total, pref, t);
  }

  /** Seat numbers below 10^9 are printed in full; from 10^9 on the 10-byte
      buffer cuts the numeral to its first nine digits. */
  lemma SeatNumberText(s: nat)
    ensures s < Decimal.Pow10(9) ==> Snprintf(Decimal.NatText(s), SeatNumberSize) == Decimal.NatText(s)
    ensures s >= Decimal.Pow10(9) ==> Snprintf(Decimal.NatText(s), SeatNumberSize) != Decimal.NatText(s)
  {
    if s < Decimal.Pow10(9) {
      Decimal.NatTextLength(s, 9);
    } else {
      Decimal.NatTextLengthAtLeast(s, 9);
    }
  }
}
