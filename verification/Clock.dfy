/**
 Dates and times as the source writes them: "" , "YYYY-MM-DD" and "YYYY-MM-DD HH:MM:SS".
 A day is its ordinal in the calendar, so text order on dates is numeric order and
 date subtraction is integer subtraction.
 */
module Clock {

  /** Ordinal of 9999-12-31, the last day the date parser accepts. */
  const LAST_DAY: nat := 3652059
  const DAY_SECONDS: nat := 86400
  /** 09:30:00 and 15:00:00 */
  const OPENING: nat := 9 * 3600 + 30 * 60
  const CLOSING: nat := 15 * 3600
  /** 14:50:00 */
  const DEFAULT_FALLBACK: nat := 14 * 3600 + 50 * 60

  type Day = d: nat | d <= LAST_DAY
  type Second = s: nat | s < DAY_SECONDS

  ghost predicate Ascending(days: seq<Day>) {
    forall i, j :: 0 <= i < j < |days| ==> days[i] < days[j]
  }

  datatype Stamp = Unset | OnDay(day: Day) | At(day: Day, second: Second)

  /** Position of a stamp's text in string order: "" < "D" < "D 00:00:00" < ... < "D+1". */
  function TextOrder(t: Stamp): int {
    match t
    case Unset => -1
    case OnDay(d) => d * (DAY_SECONDS + 1)
    case At(d, s) => d * (DAY_SECONDS + 1) + 1 + s
  }

  /** No time comes first; then by day, a bare date before every clock time of its day, and by clock time. */
  lemma TextOrderMeaning(a: Stamp, b: Stamp)
    ensures TextOrder(a) == TextOrder(b) <==> a == b
    ensures TextOrder(a) < TextOrder(b) <==>
              if a.Unset? || b.Unset? then a.Unset? && !b.Unset?
              else if a.day != b.day then a.day < b.day
              else if a.OnDay? || b.OnDay? then a.OnDay? && b.At?
              else a.second < b.second
  {
  }

  /** When a signal is processed: a bare date waits for the close, no time at all waits for the end of time. */
  function SortTime(t: Stamp): (r: Stamp)
    ensures r.At? && (t.At? ==> r == t)
    ensures t.OnDay? ==> r.day == t.day && r.second == CLOSING
    ensures t.Unset? ==> forall other: Stamp :: TextOrder(other) <= TextOrder(r)
  {
    match t
    case Unset => At(LAST_DAY, DAY_SECONDS - 1)
    case OnDay(d) => At(d, CLOSING)
    case At(_, _) => t
  }

  /** The quirk: as text a bare date precedes every minute of its day, yet it is processed after most of them. */
  lemma BareDateQuirk(d: Day, s: Second)
    ensures TextOrder(OnDay(d)) < TextOrder(At(d, s))
    ensures TextOrder(At(d, s)) < TextOrder(SortTime(OnDay(d))) <==> s < CLOSING
  {
  }
}
