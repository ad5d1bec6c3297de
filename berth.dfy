/** Berth labels of the allocator's 8-seat bay: `get_berth_type` in
    core_logic/core_logic.cpp. */
module Berth {

  datatype Berth = Lower | Middle | Upper | SideLower | SideUpper | Unknown

  /** The label text the allocator compares and copies into `berth_type`. */
  function Label(b: Berth): (s: string)
    ensures 5 <= |s| <= 10
  {
    match b
    case Lower => "LOWER"
    case Middle => "MIDDLE"
    case Upper => "UPPER"
    case SideLower => "SIDE_LOWER"
    case SideUpper => "SIDE_UPPER"
    case Unknown => "UNKNOWN"
  }

  lemma LabelInjective(a: Berth, b: Berth)
    requires Label(a) == Label(b)
    ensures a == b
  {
  }

  /** C++ `a % 8`: the remainder takes the sign of `a`. */
  function CRem8(a: int): (r: int)
    ensures -8 < r < 8
    ensures a >= 0 ==> r == a % 8
    ensures a < 0 ==> r <= 0 && (r == 0 <==> a % 8 == 0)
  {
    if a >= 0 then a % 8 else -((-a) % 8)
  }

  /** `get_berth_type(seat_num)`: the position of the seat in its bay of eight. */
  function BerthOf(seat: int): (b: Berth)
    ensures b == Unknown <==> seat < 0 && seat % 8 != 0
    ensures seat >= 0 ==> (b == Lower <==> seat % 8 in {1, 4})
    ensures seat >= 0 ==> (b == Middle <==> seat % 8 in {2, 5})
    ensures seat >= 0 ==> (b == Upper <==> seat % 8 in {3, 6})
    ensures seat >= 0 ==> (b == SideLower <==> seat % 8 == 7)
    ensures seat >= 0 ==> (b == SideUpper <==> seat % 8 == 0)
  {
    var mod := CRem8(seat);
    if mod == 1 || mod == 4 then Lower
    else if mod == 2 || mod == 5 then Middle
    else if mod == 3 || mod == 6 then Upper
    else if mod == 7 then SideLower
    else if mod == 0 then SideUpper
    else Unknown
  }

  /** Every seat number >= 0 gets one of the five real labels. */
  lemma {:induction false} NeverUnknown(seat: int)
    requires seat >= 0
    ensures BerthOf(seat) in {Lower, Middle, Upper, SideLower, SideUpper}
    ensures Label(BerthOf(seat)) != "UNKNOWN"
  {
    assert BerthOf(seat) != Unknown;
  }

  /** The layout repeats every eight seats. */
  lemma {:induction false} BerthPeriodic(seat: int)
    requires seat >= 0
    ensures BerthOf(seat + 8) == BerthOf(seat)
  {
    assert (seat + 8) % 8 == seat % 8;
  }
}
