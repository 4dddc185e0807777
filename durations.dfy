/** The hours-and-minutes split used both by the task card's countdown and
    by the task editor's duration line:
    `totalMinutes = floor(ms / 60000); hours = floor(totalMinutes / 60);
    minutes = totalMinutes % 60`, shown as "<h>h <m>m" with the hours part
    only when it is positive. */
module Durations {
  import opened Common

  const MsPerMinute: nat := 1000 * 60

  datatype Span = Span(hours: nat, minutes: nat)

  /** Whole minutes of `ms`, split into hours and the minutes left over. */
  function SplitMinutes(ms: nat): (r: Span)
    ensures r.minutes < 60
    ensures r.hours * 60 + r.minutes == ms / MsPerMinute
    ensures (r.hours * 60 + r.minutes) * MsPerMinute <= ms < (r.hours * 60 + r.minutes + 1) * MsPerMinute
  {
    var totalMinutes := ms / MsPerMinute;
    Span(totalMinutes / 60, totalMinutes % 60)
  }

  /** The split is the only hours/minutes pair with minutes below 60 that
      adds up to the whole minutes of `ms`. */
  lemma SplitMinutesUnique(ms: nat, hours: nat, minutes: nat)
    requires minutes < 60
    requires hours * 60 + minutes == ms / MsPerMinute
    ensures SplitMinutes(ms) == Span(hours, minutes)
  {
  }

  /** The text of a span, as `getTimeLeft` and `formatDuration` print it:
      the hours and "h " only when there are hours, then the minutes and
      "m". */
  function SpanText(r: Span): (t: string)
    ensures |t| >= 2 && t[|t| - 1] == 'm'
  {
    (if r.hours > 0 then Decimal(r.hours) + "h " else "") + Decimal(r.minutes) + "m"
  }

  lemma NoLetterInDecimal(n: nat)
    ensures 'h' !in Decimal(n) && ' ' !in Decimal(n)
  {
  }

  /** The hours part is printed exactly when the hours are positive, and the
      minutes part always closes the text. */
  lemma SpanTextShowsHoursIffPositive(r: Span)
    ensures r.hours > 0 <==> 'h' in SpanText(r)
    ensures r.hours == 0 ==> SpanText(r) == Decimal(r.minutes) + "m"
    ensures r.hours > 0 ==> SpanText(r) == Decimal(r.hours) + "h " + Decimal(r.minutes) + "m"
  {
    NoLetterInDecimal(r.hours);
    NoLetterInDecimal(r.minutes);
    if r.hours > 0 {
      var t := Decimal(r.hours) + "h " + Decimal(r.minutes) + "m";
      assert t[|Decimal(r.hours)|] == 'h';
    }
  }
}
