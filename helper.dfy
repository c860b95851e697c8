/** `parse_date` and the rate-limiting HTTP adapter of `anidb/helper.py`. */
module Helper {
  import opened Builtins

  /** A calendar date as Python's `datetime.date` holds it. */
  datatype Date = Date(year: int, month: int, day: int)

  const MIN_YEAR := 1
  const MAX_YEAR := 9999

  predicate IsLeapYear(y: int)
  {
    y % 4 == 0 && (y % 100 != 0 || y % 400 == 0)
  }

  function DaysInMonth(y: int, m: int): int
    requires 1 <= m <= 12
  {
    if m == 2 then (if IsLeapYear(y) then 29 else 28)
    else if m == 4 || m == 6 || m == 9 || m == 11 then 30
    else 31
  }

  /** The arguments `date(y, m, d)` accepts; any other raises ValueError. */
  predicate ValidDate(y: int, m: int, d: int)
  {
    MIN_YEAR <= y <= MAX_YEAR && 1 <= m <= 12 && 1 <= d <= DaysInMonth(y, m)
  }

  /** `map(int, parts)`, evaluated eagerly: the first part int() rejects raises. */
  function ParseInts(parts: seq<string>): Result<seq<int>>
  {
    MapAll(parts, ParseInt)
  }

  /** The range of a C `int`, into which `date()` reads each of its arguments. */
  const INT_MIN := -0x8000_0000
  const INT_MAX := 0x7fff_ffff

  predicate FitsCInt(n: int)
  {
    INT_MIN <= n <= INT_MAX
  }

  /** `parse_date(value)`: None for None or "", otherwise `date(*map(int, value.split("-")))`.
      CPython 2's `date()` rejects more than three arguments before converting any; it then
      reads the arguments left to right as C ints, then reports a missing argument, and
      checks the calendar last. */
  function ParseDate(value: Option<string>): (r: Result<Option<Date>>)
    ensures r == Success(None) <==> !Truthy(value)
    ensures r.Success? && r.value.Some? ==>
              var d := r.value.value;
              var parts := Split(value.value, '-');
              && ValidDate(d.year, d.month, d.day)
              && |parts| == 3
              && ParseInt(parts[0]) == Success(d.year)
              && ParseInt(parts[1]) == Success(d.month)
              && ParseInt(parts[2]) == Success(d.day)
    ensures Truthy(value) && (exists i :: 0 <= i < |Split(value.value, '-')| && ParseInt(Split(value.value, '-')[i]).Failure?)
            ==> r == Failure(ValueError)
    ensures Truthy(value) && ParseInts(Split(value.value, '-')).Success? ==>
              var ns := ParseInts(Split(value.value, '-')).value;
              && |ns| == |Split(value.value, '-')|
              && (r == Failure(TypeError) <==> |ns| > 3 || (|ns| < 3 && forall i :: 0 <= i < |ns| ==> FitsCInt(ns[i])))
              && (|ns| <= 3 && (exists i :: 0 <= i < |ns| && !FitsCInt(ns[i])) ==> r == Failure(OverflowError))
              && (|ns| == 3 && FitsCInt(ns[0]) && FitsCInt(ns[1]) && FitsCInt(ns[2]) ==>
                    r == if ValidDate(ns[0], ns[1], ns[2]) then Success(Some(Date(ns[0], ns[1], ns[2]))) else Failure(ValueError))
  {
    if !Truthy(value) then Success(None)
    else
      match ParseInts(Split(value.value, '-'))
      case Failure(e) => Failure(e)
      case Success(ns) =>
        if |ns| > 3 then Failure(TypeError)
        else if exists i :: 0 <= i < |ns| && !FitsCInt(ns[i]) then Failure(OverflowError)
        else if |ns| < 3 then Failure(TypeError)
        else if ValidDate(ns[0], ns[1], ns[2]) then Success(Some(Date(ns[0], ns[1], ns[2])))
        else Failure(ValueError)
  }


  /** `YYYY-MM-DD` without zero padding, as `str(y) + "-" + str(m) + "-" + str(d)`. */
  function FormatDate(d: Date): string
    requires d.year >= 0 && d.month >= 0 && d.day >= 0
  {
    NatToString(d.year) + "-" + NatToString(d.month) + "-" + NatToString(d.day)
  }

  lemma DigitsHaveNoDash(t: string)
    requires AllDigits(t)
    ensures '-' !in t
  {
    assert forall i :: 0 <= i < |t| ==> IsDigit(t[i]) && t[i] != '-';
  }

  lemma SplitFormattedDate(d: Date)
    requires d.year >= 0 && d.month >= 0 && d.day >= 0
    ensures Split(FormatDate(d), '-') == [NatToString(d.year), NatToString(d.month), NatToString(d.day)]
  {
    var y, m, day := NatToString(d.year), NatToString(d.month), NatToString(d.day);
    DigitsHaveNoDash(y);
    DigitsHaveNoDash(m);
    DigitsHaveNoDash(day);
    assert FormatDate(d) == y + ['-'] + (m + ['-'] + day);
    SplitAtFirstSeparator(y, '-', m + ['-'] + day);
    SplitAtFirstSeparator(m, '-', day);
    SplitWithoutSeparator(day, '-');
  }

  lemma ParseIntsCons(x: string, rest: seq<string>, n: int, ns: seq<int>)
    requires ParseInt(x) == Success(n) && ParseInts(rest) == Success(ns)
    ensures ParseInts([x] + rest) == Success([n] + ns)
  {
    assert ([x] + rest)[0] == x;
    assert ([x] + rest)[1..] == rest;
  }

  lemma ParseThreeInts(a: int, b: int, c: int)
    ensures ParseInts([IntToString(a), IntToString(b), IntToString(c)]) == Success([a, b, c])
  {
    ParseIntToString(a);
    ParseIntToString(b);
    ParseIntToString(c);
    ParseIntsCons(IntToString(c), [], c, []);
    assert [IntToString(c)] + [] == [IntToString(c)] && [c] + [] == [c];
    ParseIntsCons(IntToString(b), [IntToString(c)], b, [c]);
    assert [IntToString(b)] + [IntToString(c)] == [IntToString(b), IntToString(c)] && [b] + [c] == [b, c];
    ParseIntsCons(IntToString(a), [IntToString(b), IntToString(c)], a, [b, c]);
    assert [IntToString(a)] + [IntToString(b), IntToString(c)] == [IntToString(a), IntToString(b), IntToString(c)];
    assert [a] + [b, c] == [a, b, c];
  }

  lemma SplitPaddedDate()
    ensures Split("2020-01-05", '-') == ["2020", "01", "05"]
  {
    assert "2020-01-05" == "2020" + ['-'] + ("01" + ['-'] + "05");
    SplitAtFirstSeparator("2020", '-', "01" + ['-'] + "05");
    SplitAtFirstSeparator("01", '-', "05");
    SplitWithoutSeparator("05", '-');
  }

  lemma ParsePaddedParts()
    ensures ParseInts(["2020", "01", "05"]) == Success([2020, 1, 5])
  {
    assert DigitsValue("2020") == 2020 by {
      assert "2020"[..3] == "202" && "202"[..2] == "20" && "20"[..1] == "2" && "2"[..0] == "";
    }
    assert DigitsValue("01") == 1 by {
      assert "01"[..1] == "0" && "0"[..0] == "";
    }
    assert DigitsValue("05") == 5 by {
      assert "05"[..1] == "0" && "0"[..0] == "";
    }
    ParseIntsCons("05", [], 5, []);
    assert ["05"] + [] == ["05"] && [5] + [] == [5];
    ParseIntsCons("01", ["05"], 1, [5]);
    assert ["01"] + ["05"] == ["01", "05"] && [1] + [5] == [1, 5];
    ParseIntsCons("2020", ["01", "05"], 2020, [1, 5]);
    assert ["2020"] + ["01", "05"] == ["2020", "01", "05"] && [2020] + [1, 5] == [2020, 1, 5];
  }

  /** AniDB writes dates zero-padded; such a date parses to its calendar values. */
  lemma ParsePaddedDate()
    ensures ParseDate(Some("2020-01-05")) == Success(Some(Date(2020, 1, 5)))
  {
    SplitPaddedDate();
    ParsePaddedParts();
    DateFromThreeParts(Some("2020-01-05"), 2020, 1, 5);
  }

  lemma DateFromThreeParts(value: Option<string>, y: int, m: int, d: int)
    requires Truthy(value) && ParseInts(Split(value.value, '-')) == Success([y, m, d]) && ValidDate(y, m, d)
    ensures ParseDate(value) == Success(Some(Date(y, m, d)))
  {
  }

  /** A year beyond a C int overflows before the calendar is checked. */
  lemma OverflowingYear()
    ensures ParseDate(Some(FormatDate(Date(10000000000, 1, 1)))) == Failure(OverflowError)
  {
    SplitFormattedDate(Date(10000000000, 1, 1));
    ParseThreeInts(10000000000, 1, 1);
    assert ParseInts(Split(FormatDate(Date(10000000000, 1, 1)), '-')) == Success([10000000000, 1, 1]);
  }

  /** `Y-M` written in decimal splits and parses back to its two fields. */
  lemma ParseTwoParts(a: nat, b: nat)
    ensures ParseInts(Split(NatToString(a) + "-" + NatToString(b), '-')) == Success([a, b])
  {
    var y, m := NatToString(a), NatToString(b);
    DigitsHaveNoDash(y);
    DigitsHaveNoDash(m);
    assert y + "-" + m == y + ['-'] + m;
    SplitAtFirstSeparator(y, '-', m);
    SplitWithoutSeparator(m, '-');
    ParseIntToString(a);
    ParseIntToString(b);
    assert IntToString(a) == y && IntToString(b) == m;
    ParseIntsCons(m, [], b, []);
    assert [m] + [] == [m] && [b] + [] == [b];
    ParseIntsCons(y, [m], a, [b]);
    assert [y] + [m] == [y, m] && [a] + [b] == [a, b];
  }

  /** With two parts, an overflowing first part is reported before the missing day. */
  lemma OverflowBeforeMissingDay()
    ensures ParseDate(Some(NatToString(10000000000) + "-" + NatToString(1))) == Failure(OverflowError)
  {
    ParseTwoParts(10000000000, 1);
    assert !FitsCInt(10000000000);
  }



  /** Every valid date survives rendering and `parse_date`. */
  lemma ParseFormattedDate(d: Date)
    requires ValidDate(d.year, d.month, d.day)
    ensures ParseDate(Some(FormatDate(d))) == Success(Some(d))
  {
    SplitFormattedDate(d);
    ParseThreeInts(d.year, d.month, d.day);
    assert IntToString(d.year) == NatToString(d.year);
    assert IntToString(d.month) == NatToString(d.month);
    assert IntToString(d.day) == NatToString(d.day);
  }

  /** Python's `if self._last_request_at:` — None and 0 both read as "no previous request". */
  predicate HasPrevious(last: Option<int>)
  {
    last.Some? && last.value != 0
  }

  /** How long `send` sleeps before sending: the shortest non-negative wait after which
      at least `rateLimit` has passed since the previous request started. */
  function Wait(last: Option<int>, rateLimit: int, now: int): (w: int)
    ensures w >= 0
    ensures !HasPrevious(last) ==> w == 0
    ensures HasPrevious(last) ==> now + w >= last.value + rateLimit
    ensures HasPrevious(last) && w > 0 ==> now + w == last.value + rateLimit
  {
    if HasPrevious(last) && rateLimit - (now - last.value) > 0 then
      rateLimit - (now - last.value)
    else
      0
  }

  /** `AnidbHTTPAdapter`: one cursor, the start time of the last request it sent. */
  class RateLimitedAdapter {
    const rateLimit: int
    var lastRequestAt: Option<int>

    constructor (rateLimit: int)
      ensures this.rateLimit == rateLimit && lastRequestAt == None
    {
      this.rateLimit := rateLimit;
      lastRequestAt := None;
    }

    /** `send` with the clock reading `now` passed in; returns the time slept and the
        time the request was handed to the underlying transport. */
    method Send(now: int) returns (wait: int, startedAt: int)
      modifies this
      ensures wait == Wait(old(lastRequestAt), rateLimit, now)
      ensures startedAt == now + wait
      ensures lastRequestAt == Some(startedAt)
    {
      wait := 0;
      if lastRequestAt.Some? && lastRequestAt.value != 0 {
        var since := now - lastRequestAt.value;
        var remaining := rateLimit - since;
        if remaining > 0 {
          wait := remaining;
        }
      }
      startedAt := now + wait;
      lastRequestAt := Some(startedAt);
    }
  }

  /** The start times of successive sends on one adapter whose cursor is `last`, when
      the i-th send is called at clock reading `calls[i]`. */
  function StartTimes(last: Option<int>, rateLimit: int, calls: seq<int>): (r: seq<int>)
    decreases |calls|
    ensures |r| == |calls|
    ensures forall i :: 0 <= i < |calls| ==> r[i] >= calls[i]
  {
    if calls == [] then []
    else
      var start := calls[0] + Wait(last, rateLimit, calls[0]);
      [start] + StartTimes(Some(start), rateLimit, calls[1..])
  }

  /** Every two consecutive start times in `starts` lie at least `rateLimit` apart. */
  predicate Spaced(starts: seq<int>, rateLimit: int)
  {
    forall i :: 1 <= i < |starts| ==> starts[i] >= starts[i - 1] + rateLimit
  }

  /** Over any run of sends on one adapter with a positive clock, every two consecutive
      requests start at least `rateLimit` apart. */
  lemma {:induction false} StartTimesSpaced(last: Option<int>, rateLimit: int, calls: seq<int>)
    requires forall i :: 0 <= i < |calls| ==> calls[i] > 0
    ensures Spaced(StartTimes(last, rateLimit, calls), rateLimit)
    decreases |calls|
  {
    if |calls| > 1 {
      var start := calls[0] + Wait(last, rateLimit, calls[0]);
      var rest := StartTimes(Some(start), rateLimit, calls[1..]);
      StartTimesSpaced(Some(start), rateLimit, calls[1..]);
      var r := StartTimes(last, rateLimit, calls);
      assert r == [start] + rest;
      assert calls[1..][0] == calls[1];
      assert HasPrevious(Some(start));
      forall i | 1 <= i < |r| ensures r[i] >= r[i - 1] + rateLimit {
        if i > 1 {
          var j := i - 1;
          assert r[i] == rest[j] && r[i - 1] == rest[j - 1];
        } else {
          assert r[1] == rest[0] == calls[1] + Wait(Some(start), rateLimit, calls[1]);
        }
      }
    }
  }


}
