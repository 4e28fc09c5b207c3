/** The header's derived display state: the open/closed status computed from
    the hour of day, its label, and whether the cart badge is drawn. */
module Navbar {

  /** An hour of the local day, as the clock reports it. */
  type Hour = h: int | 0 <= h < 24

  /** The first hour the shop is open, and the first hour it is closed again. */
  const OpeningHour: int := 10
  const ClosingHour: int := 22

  /** The opening hours printed in the header. */
  const HoursSign: string := "10h-22h"

  /** The two labels of the status badge. */
  const OpenLabel: string := "Aberto"
  const ClosedLabel: string := "Fechado"

  /** The hours of the day in which the shop is open, listed one by one. */
  const OpenHours: set<int> := {10, 11, 12, 13, 14, 15, 16, 17, 18, 19, 20, 21}

  /** The open-hours predicate: open from the opening hour up to, but not including,
      the closing hour, which is exactly the twelve hours listed above. */
  function IsOpen(hour: Hour): (open: bool)
    ensures open <==> hour in OpenHours
  {
    hour >= OpeningHour && hour < ClosingHour
  }

  /** The boundaries: the opening hour is inclusive, the closing hour exclusive. */
  lemma Boundaries()
    ensures IsOpen(10) && !IsOpen(9)
    ensures IsOpen(21) && !IsOpen(22) && !IsOpen(23)
    ensures !IsOpen(0)
  {
  }

  /** The label shown for a status. */
  function StatusLabel(isOpen: bool): string
  {
    if isOpen then OpenLabel else ClosedLabel
  }

  /** The label reads "Aberto" exactly within the opening hours and "Fechado"
      otherwise. */
  lemma LabelAtHour(hour: Hour)
    ensures StatusLabel(IsOpen(hour)) == OpenLabel <==> OpeningHour <= hour < ClosingHour
    ensures StatusLabel(IsOpen(hour)) == ClosedLabel <==> hour < OpeningHour || hour >= ClosingHour
  {
  }

  /** The badge on the cart button is drawn only for a positive count. */
  function ShowBadge(cartCount: int): bool
  {
    cartCount > 0
  }

  /** The decimal digit for a value below ten. */
  function Digit(d: int): (c: char)
    requires 0 <= d < 10
    ensures '0' <= c <= '9' && (c - '0') as int == d
  {
    (d + '0' as int) as char
  }

  /** An hour written with two digits, as the header prints it. */
  function HourText(h: int): (text: string)
    requires 10 <= h < 100
    ensures |text| == 2 && '1' <= text[0] <= '9' && '0' <= text[1] <= '9'
    ensures (text[0] - '0') as int * 10 + (text[1] - '0') as int == h
  {
    [Digit(h / 10), Digit(h % 10)]
  }

  /** A range of hours printed as `<from>h-<to>h`. */
  function RangeText(from: int, to: int): string
    requires 10 <= from < 100 && 10 <= to < 100
  {
    HourText(from) + "h-" + HourText(to) + "h"
  }

  /** Two printed ranges are the same text only when they name the same hours. */
  lemma RangeTextInjective(from: int, to: int, from': int, to': int)
    requires 10 <= from < 100 && 10 <= to < 100 && 10 <= from' < 100 && 10 <= to' < 100
    requires RangeText(from, to) == RangeText(from', to')
    ensures from == from' && to == to'
  {
    var t, t' := RangeText(from, to), RangeText(from', to');
    assert t[0] == t'[0] && t[1] == t'[1] && t[4] == t'[4] && t[5] == t'[5];
  }

  /** The hours printed in the header are the hours the open-hours predicate uses:
      the sign is the rendering of the opening and closing hours, and whatever
      range reads as the sign, the shop is open exactly inside it. */
  lemma SignAgreesWithStatus(hour: Hour)
    ensures HoursSign == RangeText(OpeningHour, ClosingHour)
    ensures forall from, to | 10 <= from < 100 && 10 <= to < 100 && RangeText(from, to) == HoursSign ::
              IsOpen(hour) <==> from <= hour < to
  {
    forall from, to | 10 <= from < 100 && 10 <= to < 100 && RangeText(from, to) == HoursSign
      ensures from == OpeningHour && to == ClosingHour
    {
      RangeTextInjective(from, to, OpeningHour, ClosingHour);
    }
  }
}
