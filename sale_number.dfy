/** The sale-number generator of the pre-save hook in backend/models/Sale.js: the local date as
    `YYMMDD`, then a three-digit daily counter one above the greatest number already issued with
    that prefix; `ERR` and the last nine digits of the timestamp when the lookup throws. */
module SaleNumber {

  import opened Common
  import opened Text

  /** Local calendar date parts: `getFullYear()`, `getMonth() + 1`, `getDate()`. */
  datatype CalendarDate = CalendarDate(year: nat, month: nat, day: nat)

  predicate ValidDate(d: CalendarDate) {
    1 <= d.month <= 12 && 1 <= d.day <= 31
  }

  function Pad2(n: nat): string {
    PadStart(NatToString(n), 2, '0')
  }

  function Pad3(n: nat): string {
    PadStart(NatToString(n), 3, '0')
  }

  /** Two digits of the year (`toString().slice(-2)`), then the zero-padded month and day. */
  function DayPrefix(d: CalendarDate): string {
    Last(NatToString(d.year), 2) + Pad2(d.month) + Pad2(d.day)
  }

  /** The new counter: "001" when no number of the day exists, otherwise the number read
      (`parseInt`) from the last three characters of the greatest one, plus one, padded to three.
      A suffix that does not start with a digit reads as NaN, and NaN + 1 prints as "NaN". */
  function Counter(last: Option<string>): string {
    match last
    case None => "001"
    case Some(s) =>
      match ParseInt(Last(s, 3))
      case None => "NaN"
      case Some(k) => Pad3(k + 1)
  }

  /** The lookup of the last number of the day: the greatest existing number, in string order,
      among those that start with `prefix`. */
  function Greatest(numbers: seq<string>, prefix: string): (r: Option<string>)
    ensures r.None? <==> forall x :: x in numbers ==> !StartsWith(x, prefix)
    ensures r.Some? ==> r.value in numbers && StartsWith(r.value, prefix)
    ensures r.Some? ==> forall x :: x in numbers && StartsWith(x, prefix) ==> !Less(r.value, x)
  {
    if numbers == [] then None
    else
      var init := numbers[..|numbers| - 1];
      var x := numbers[|numbers| - 1];
      assert numbers == init + [x];
      var rest := Greatest(init, prefix);
      if !StartsWith(x, prefix) then rest
      else if rest.None? then
        LessIrreflexive(x);
        Some(x)
      else if Less(rest.value, x) then
        LessIrreflexive(x);
        assert forall y :: y in init && StartsWith(y, prefix) ==> !Less(x, y) by {
          forall y | y in init && StartsWith(y, prefix) && Less(x, y)
            ensures false
          {
            LessTransitive(rest.value, x, y);
          }
        }
        Some(x)
      else rest
  }

  /** The fallback number: "ERR" and the last nine digits of `Date.now()`. */
  function FallbackNumber(nowMs: nat): string {
    "ERR" + Last(NatToString(nowMs), 9)
  }

  /** The number the generator produces; `lookupFails` stands for the query throwing. */
  function NextNumber(date: CalendarDate, existing: seq<string>, lookupFails: bool, nowMs: nat): string {
    if lookupFails then FallbackNumber(nowMs)
    else
      var p := DayPrefix(date);
      p + Counter(Greatest(existing, p))
  }

  /** The whole hook: a number is generated only for a new document that has none yet; any
      other document keeps the number it has. */
  function AssignNumber(isNew: bool, current: string, date: CalendarDate, existing: seq<string>,
                        lookupFails: bool, nowMs: nat): (r: string)
    ensures current != "" ==> r == current
    ensures !isNew ==> r == current
  {
    if isNew && current == "" then NextNumber(date, existing, lookupFails, nowMs) else current
  }

  // ---------------------------------------------------------------- format of the parts

  lemma {:induction false} PadFacts(n: nat, w: nat)
    requires |NatToString(n)| <= w
    ensures |PadStart(NatToString(n), w, '0')| == w
    ensures AllDigits(PadStart(NatToString(n), w, '0'))
    ensures Value(PadStart(NatToString(n), w, '0')) == n
  {
    var s := NatToString(n);
    var z := Repeat('0', w - |s|);
    assert PadStart(s, w, '0') == z + s by {
      if |s| == w {
        assert z == [];
      }
    }
    ValueLeadingZeros(w - |s|, s);
  }

  lemma Pad3Facts(n: nat)
    requires n < 1000
    ensures |Pad3(n)| == 3 && AllDigits(Pad3(n)) && Value(Pad3(n)) == n
  {
    PadFacts(n, 3);
  }

  /** The two year characters spell the year modulo 100. */
  lemma {:induction false} YearDigits(year: nat)
    requires year >= 10
    ensures |Last(NatToString(year), 2)| == 2 && AllDigits(Last(NatToString(year), 2))
    ensures Value(Last(NatToString(year), 2)) == year % 100
  {
    var y := Last(NatToString(year), 2);
    LastTwoDigits(year);
    assert y == [DigitChar((year / 10) % 10), DigitChar(year % 10)];
    Value2(y);
    TensAndUnits(year);
  }

  lemma TensAndUnits(n: nat)
    ensures 10 * ((n / 10) % 10) + n % 10 == n % 100
  {
    var q, u := n / 10, n % 10;
    var k, t := q / 10, q % 10;
    assert n == 10 * q + u && q == 10 * k + t;
    assert n == 100 * k + (10 * t + u) && 10 * t + u < 100;
  }

  /** Three two-character digit strings joined make six digits that slice back into the parts. */
  lemma Join2x3(y: string, m: string, d: string)
    requires |y| == 2 && |m| == 2 && |d| == 2
    requires AllDigits(y) && AllDigits(m) && AllDigits(d)
    ensures |y + m + d| == 6 && AllDigits(y + m + d)
    ensures (y + m + d)[..2] == y && (y + m + d)[2..4] == m && (y + m + d)[4..] == d
  {
    var p := y + m + d;
    assert forall i :: 0 <= i < 2 ==> p[i] == y[i] && p[i + 2] == m[i] && p[i + 4] == d[i];
  }

  /** The day prefix is six digits that spell the year modulo 100, the month and the day. */
  lemma {:induction false} DayPrefixFormat(d: CalendarDate)
    requires ValidDate(d) && d.year >= 10
    ensures |DayPrefix(d)| == 6 && AllDigits(DayPrefix(d))
    ensures Value(DayPrefix(d)[..2]) == d.year % 100
    ensures Value(DayPrefix(d)[2..4]) == d.month
    ensures Value(DayPrefix(d)[4..]) == d.day
  {
    var y := Last(NatToString(d.year), 2);
    YearDigits(d.year);
    PadFacts(d.month, 2);
    PadFacts(d.day, 2);
    Join2x3(y, Pad2(d.month), Pad2(d.day));
  }

  /** Different days (within a century) have different prefixes. */
  lemma DayPrefixInjective(d: CalendarDate, e: CalendarDate)
    requires ValidDate(d) && ValidDate(e) && d.year >= 10 && e.year >= 10
    requires DayPrefix(d) == DayPrefix(e)
    ensures d.year % 100 == e.year % 100 && d.month == e.month && d.day == e.day
  {
    DayPrefixFormat(d);
    DayPrefixFormat(e);
  }

  // ---------------------------------------------------------------- the counter

  /** The first sale of a day gets counter 001. */
  lemma FirstSaleOfDay(date: CalendarDate, existing: seq<string>, nowMs: nat)
    requires forall x :: x in existing ==> !StartsWith(x, DayPrefix(date))
    ensures NextNumber(date, existing, false, nowMs) == DayPrefix(date) + "001"
  {
  }

  /** After a number with counter `k` in 001..998 the next one carries `k + 1`: it is nine
      characters long and greater than the previous one in string order. */
  lemma {:induction false} NextAfterCounter(date: CalendarDate, existing: seq<string>, nowMs: nat, k: nat)
    requires ValidDate(date) && date.year >= 10
    requires 1 <= k <= 998
    requires Greatest(existing, DayPrefix(date)) == Some(DayPrefix(date) + Pad3(k))
    ensures NextNumber(date, existing, false, nowMs) == DayPrefix(date) + Pad3(k + 1)
    ensures |NextNumber(date, existing, false, nowMs)| == 9
    ensures Less(DayPrefix(date) + Pad3(k), NextNumber(date, existing, false, nowMs))
  {
    var p := DayPrefix(date);
    DayPrefixFormat(date);
    Pad3Facts(k);
    Pad3Facts(k + 1);
    assert Last(p + Pad3(k), 3) == Pad3(k);
    ParseAllDigits(Pad3(k));
    LessCommonPrefix(p, Pad3(k), Pad3(k + 1));
    LessDigits3(Pad3(k), Pad3(k + 1));
  }

  /** The numbers of one day are exactly the counters 1..k. */
  ghost predicate IssuedUpTo(existing: seq<string>, p: string, k: nat) {
    && (forall x :: x in existing && StartsWith(x, p) ==> exists i :: 1 <= i <= k && x == p + Pad3(i))
    && (k >= 1 ==> p + Pad3(k) in existing)
  }

  lemma Pad3Injective(i: nat, j: nat)
    requires i < 1000 && j < 1000 && Pad3(i) == Pad3(j)
    ensures i == j
  {
    Pad3Facts(i);
    Pad3Facts(j);
  }

  /** Behind a common prefix, a smaller counter gives a smaller number. */
  lemma CounterBelow(p: string, i: nat, j: nat)
    requires i < j < 1000
    ensures Less(p + Pad3(i), p + Pad3(j)) && p + Pad3(i) != p + Pad3(j)
  {
    Pad3Facts(i);
    Pad3Facts(j);
    LessCommonPrefix(p, Pad3(i), Pad3(j));
    LessDigits3(Pad3(i), Pad3(j));
    LessIrreflexive(p + Pad3(j));
  }

  /** When a day holds exactly the counters 1..k, the lookup finds counter k. */
  lemma GreatestIsCounter(existing: seq<string>, p: string, k: nat)
    requires 1 <= k < 1000
    requires IssuedUpTo(existing, p, k)
    ensures Greatest(existing, p) == Some(p + Pad3(k))
  {
    var g := Greatest(existing, p);
    assert StartsWith(p + Pad3(k), p);
    assert g.Some?;
    var i :| 1 <= i <= k && g.value == p + Pad3(i);
    if i < k {
      CounterBelow(p, i, k);
      assert false;
    }
  }

  /** The number after counters 1..k of a day carries counter k + 1. */
  lemma NextIsCounter(date: CalendarDate, existing: seq<string>, nowMs: nat, k: nat)
    requires ValidDate(date) && date.year >= 10
    requires k <= 998
    requires IssuedUpTo(existing, DayPrefix(date), k)
    ensures NextNumber(date, existing, false, nowMs) == DayPrefix(date) + Pad3(k + 1)
  {
    var p := DayPrefix(date);
    if k == 0 {
      assert forall x :: x in existing ==> !StartsWith(x, p);
      assert Pad3(1) == "001" by {
        assert NatToString(1) == "1";
      }
    } else {
      GreatestIsCounter(existing, p, k);
      NextAfterCounter(date, existing, nowMs, k);
    }
  }

  /** Counter k + 1 is above every number of a day that holds the counters 1..k. */
  lemma AboveIssued(existing: seq<string>, p: string, k: nat)
    requires k <= 998
    requires IssuedUpTo(existing, p, k)
    ensures p + Pad3(k + 1) !in existing
    ensures forall x :: x in existing && StartsWith(x, p) ==> Less(x, p + Pad3(k + 1))
  {
    var next := p + Pad3(k + 1);
    forall x | x in existing && StartsWith(x, p)
      ensures Less(x, next) && x != next
    {
      var i :| 1 <= i <= k && x == p + Pad3(i);
      CounterBelow(p, i, k + 1);
    }
    assert StartsWith(next, p);
  }

  /** Sale numbers of one day advance one by one, stay nine characters long, are greater than
      every earlier number of that day and never repeat one. */
  lemma {:induction false} DailySequence(date: CalendarDate, existing: seq<string>, nowMs: nat, k: nat)
    requires ValidDate(date) && date.year >= 10
    requires k <= 998
    requires IssuedUpTo(existing, DayPrefix(date), k)
    ensures NextNumber(date, existing, false, nowMs) == DayPrefix(date) + Pad3(k + 1)
    ensures |NextNumber(date, existing, false, nowMs)| == 9
    ensures NextNumber(date, existing, false, nowMs) !in existing
    ensures forall x :: x in existing && StartsWith(x, DayPrefix(date)) ==>
              Less(x, NextNumber(date, existing, false, nowMs))
  {
    DayPrefixFormat(date);
    Pad3Facts(k + 1);
    NextIsCounter(date, existing, nowMs, k);
    AboveIssued(existing, DayPrefix(date), k);
  }

  /** The fallback number never starts with a day prefix, so it never feeds a later counter. */
  lemma {:induction false} FallbackIsInvisible(date: CalendarDate, existing: seq<string>, nowMs: nat)
    requires ValidDate(date) && date.year >= 10
    ensures !StartsWith(FallbackNumber(nowMs), DayPrefix(date))
    ensures Greatest(existing + [FallbackNumber(nowMs)], DayPrefix(date)) == Greatest(existing, DayPrefix(date))
  {
    DayPrefixFormat(date);
    var p := DayPrefix(date);
    var f := FallbackNumber(nowMs);
    assert f[0] == 'E' && IsDigit(p[0]);
    assert (existing + [f])[..|existing + [f]| - 1] == existing;
  }

  lemma Literals999()
    ensures NatToString(999) == "999" && NatToString(1000) == "1000" && Pad3(999) == "999"
  {
    assert NatToString(99) == "99" by {
      assert NatToString(9) == "9";
    }
    assert NatToString(100) == "100" by {
      assert NatToString(10) == "10" by {
        assert NatToString(1) == "1";
      }
    }
  }

  /** With counters up to 999 and a "1000", string order ranks "…999" highest. */
  lemma {:induction false} GreatestAt999(existing: seq<string>, p: string)
    requires |p| == 6 && AllDigits(p)
    requires forall x :: x in existing && StartsWith(x, p) ==>
               x == p + "1000" || exists i :: 1 <= i <= 999 && x == p + Pad3(i)
    requires p + "999" in existing
    ensures Greatest(existing, p) == Some(p + "999")
  {
    Literals999();
    Pad3Facts(999);
    var g := Greatest(existing, p);
    assert StartsWith(p + "999", p);
    assert g.Some?;
    assert !Less(g.value, p + "999");
    assert Less(p + "1000", p + "999") by {
      LessCommonPrefix(p, "1000", "999");
    }
    assert g.value != p + "1000";
    var i :| 1 <= i <= 999 && g.value == p + Pad3(i);
    Pad3Facts(i);
    LessCommonPrefix(p, Pad3(i), Pad3(999));
    LessDigits3(Pad3(i), Pad3(999));
    assert i == 999;
  }

  /** Past 999 the counter stops advancing: once 999 and 1000 exist, string order still picks
      "…999" as the greatest, so the generator hands out "…1000" again, a number already issued. */
  lemma {:induction false} CounterRepeatsAfter999(date: CalendarDate, existing: seq<string>, nowMs: nat)
    requires ValidDate(date) && date.year >= 10
    requires forall x :: x in existing && StartsWith(x, DayPrefix(date)) ==>
               x == DayPrefix(date) + "1000" || exists i :: 1 <= i <= 999 && x == DayPrefix(date) + Pad3(i)
    requires DayPrefix(date) + "999" in existing && DayPrefix(date) + "1000" in existing
    ensures NextNumber(date, existing, false, nowMs) == DayPrefix(date) + "1000"
    ensures NextNumber(date, existing, false, nowMs) in existing
  {
    var p := DayPrefix(date);
    DayPrefixFormat(date);
    GreatestAt999(existing, p);
    Literals999();
    assert Last(p + "999", 3) == "999";
    ParseAllDigits("999");
    Value3("999");
    assert Counter(Some(p + "999")) == "1000";
  }
}
