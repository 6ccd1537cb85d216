/** How a node turns the time-series key it is assigned (`Assign.call`)
    into the date parameters of its fact SQL: a day `yyyymmdd`, a month
    `yyyymm`, a quarter `yyyyQn` or a ten-day period (xun) `yyyymmXn`. */
module ShardKeys {
  import opened Wrappers
  import opened JavaStrings

  /** Java's `(m > 9 ? m : ("0" + m))` when concatenated into a string. */
  function Pad2(m: int): string {
    if m > 9 then LongToString(m) else "0" + LongToString(m)
  }

  /** Months 1 to 12 print as two digits. */
  lemma Pad2Digits(m: int)
    requires 0 <= m < 100
    ensures 0 <= m < 10 ==> Pad2(m) == ['0', DigitChar(m)]
    ensures 10 <= m ==> Pad2(m) == [DigitChar(m / 10), DigitChar(m % 10)]
  {
    if m >= 10 {
      assert NatToString(m / 10) == [DigitChar(m / 10)];
    }
  }

  /** The SQL parameters for the key `ts`, or the exception that the
      derivation raises. A number that does not parse is a
      NumberFormatException and an `Assert.isTrue` failure an
      IllegalArgumentException; both are `IllegalArgument`. */
  function DateParams(ts: string): Result<seq<string>> {
    var up := ToUpper(ts);
    if |ts| == 8 && Contains(up, "X") then
      var m :- SplitPart(up, "X", 0);
      var xs :- SplitPart(up, "X", 1);
      var x :- ParseInt(xs);
      if !(x > 0 && x < 4) then Err(IllegalArgument)
      else
        var s := (x - 1) * 10 + 1;
        Ok([m + Pad2(s), m + (if x == 1 then "10" else if x == 2 then "20" else "31")])
    else if |ts| == 8 then
      Ok([ts])
    else if |ts| == 6 && !Contains(up, "Q") then
      Ok([ts + "01", ts + "31"])
    else if |ts| == 6 then
      var y :- SplitPart(up, "Q", 0);
      var qs :- SplitPart(up, "Q", 1);
      var q :- ParseInt(qs);
      if !(q > 0 && q < 5) then Err(IllegalArgument)
      else Ok([y + Pad2((q - 1) * 3 + 1) + "01", y + Pad2(q * 3) + "31"])
    else
      Err(IllegalArgument)
  }

  /** Upper-casing leaves digits alone. */
  lemma UpperKeepsDigits(s: string)
    requires AllDigits(s)
    ensures ToUpper(s) == s
  {
  }

  /** A letter is in the upper-cased string iff it or its lower case is in
      the original one. */
  lemma NoUpperLetter(s: string, c: char)
    requires 'A' <= c <= 'Z' && c !in s && (c as int + 32) as char !in s
    ensures c !in ToUpper(s)
  {
    UpperContains(s, c);
    ContainsChar(ToUpper(s), c);
  }

  /** `s.toUpperCase().split(L)` for `s = p + [l] + [d]` where `l` is the
      letter `L` in either case and `p` holds no such letter. */
  lemma SplitAtLetter(p: string, l: char, L: char, d: char)
    requires 'A' <= L <= 'Z' && (l == L || l == (L as int + 32) as char)
    requires L !in p && (L as int + 32) as char !in p && IsDigit(d)
    ensures ToUpper(p + [l] + [d]) == ToUpper(p) + [L] + [d]
    ensures Contains(ToUpper(p + [l] + [d]), [L])
    ensures Split(ToUpper(p + [l] + [d]), [L]) == [ToUpper(p), [d]]
    ensures ParseInt([d]) == Ok(DigitValue(d))
  {
    var u := ToUpper(p + [l] + [d]);
    assert u == ToUpper(p) + [L] + [d];
    ContainsChar(u, L);
    assert u[|p|] == L;
    NoUpperLetter(p, L);
    SplitTwo(ToUpper(p), L, [d]);
    assert DigitsValue([d]) == DigitValue(d) by {
      assert [d][..0] == [];
    }
  }

  /** A ten-day key `yyyymm` + `X`/`x` + n selects days 01-10, 11-20 or
      21-31 of the month (the month part taken upper-cased); any other
      digit n fails the range assertion. */
  lemma TenDayParams(p: string, x: char, d: char)
    requires |p| == 6 && 'X' !in p && 'x' !in p
    requires (x == 'X' || x == 'x') && IsDigit(d)
    ensures var u := ToUpper(p);
      var r := DateParams(p + [x] + [d]);
      && (DigitValue(d) == 1 ==> r == Ok([u + "01", u + "10"]))
      && (DigitValue(d) == 2 ==> r == Ok([u + "11", u + "20"]))
      && (DigitValue(d) == 3 ==> r == Ok([u + "21", u + "31"]))
      && (DigitValue(d) !in {1, 2, 3} ==> r == Err(IllegalArgument))
  {
    TenDayShape(p, x, d);
    TenDayValues(ToUpper(p), DigitValue(d));
  }

  /** The derivation's result for ten-day period n of month `u`. */
  function TenDayResult(u: string, n: int): Result<seq<string>> {
    if 1 <= n <= 3 then Ok([u + Pad2((n - 1) * 10 + 1), u + (if n == 1 then "10" else if n == 2 then "20" else "31")])
    else Err(IllegalArgument)
  }

  /** The parameters of ten-day period n of month `u`, written out. */
  lemma TenDayValues(u: string, n: int)
    ensures n == 1 ==> TenDayResult(u, n) == Ok([u + "01", u + "10"])
    ensures n == 2 ==> TenDayResult(u, n) == Ok([u + "11", u + "20"])
    ensures n == 3 ==> TenDayResult(u, n) == Ok([u + "21", u + "31"])
    ensures !(1 <= n <= 3) ==> TenDayResult(u, n) == Err(IllegalArgument)
  {
    if 1 <= n <= 3 {
      TenDayFirstDays(n);
    }
  }

  lemma TenDayShape(p: string, x: char, d: char)
    requires |p| == 6 && 'X' !in p && 'x' !in p
    requires (x == 'X' || x == 'x') && IsDigit(d)
    ensures DateParams(p + [x] + [d]) == TenDayResult(ToUpper(p), DigitValue(d))
  {
    SplitAtLetter(p, x, 'X', d);
    var ts := p + [x] + [d];
    assert SplitPart(ToUpper(ts), "X", 0) == Ok(ToUpper(p));
    assert SplitPart(ToUpper(ts), "X", 1) == Ok([d]);
  }

  /** The first day of ten-day period n, as a `dd` string. */
  lemma TenDayFirstDays(n: int)
    requires 1 <= n <= 3
    ensures n == 1 ==> Pad2((n - 1) * 10 + 1) == "01"
    ensures n == 2 ==> Pad2((n - 1) * 10 + 1) == "11"
    ensures n == 3 ==> Pad2((n - 1) * 10 + 1) == "21"
  {
    Pad2Digits((n - 1) * 10 + 1);
  }

  /** Upper-casing `p + [l] + [d]` where `l` is the letter `L` in either
      case and `p` holds no such letter. */
  lemma UpperAtLetter(p: string, l: char, L: char, d: char)
    requires 'A' <= L <= 'Z' && (l == L || l == (L as int + 32) as char)
    requires L !in p && (L as int + 32) as char !in p
    ensures ToUpper(p + [l] + [d]) == ToUpper(p) + [L] + [UpperChar(d)]
    ensures Contains(ToUpper(p + [l] + [d]), [L])
    ensures L !in ToUpper(p)
  {
    var u := ToUpper(p + [l] + [d]);
    assert u == ToUpper(p) + [L] + [UpperChar(d)];
    ContainsChar(u, L);
    assert u[|p|] == L;
    NoUpperLetter(p, L);
  }

  /** `s.toUpperCase().split(L)` for `s = p + [l] + [d]` where `d` is not a
      digit: a second `L` (in either case) leaves the single piece `p`, and
      any other character is a second piece that does not parse. */
  lemma SplitAtLetterNonDigit(p: string, l: char, L: char, d: char)
    requires 'A' <= L <= 'Z' && (l == L || l == (L as int + 32) as char)
    requires L !in p && (L as int + 32) as char !in p && p != "" && !IsDigit(d)
    ensures ToUpper(p + [l] + [d]) == ToUpper(p) + [L] + [UpperChar(d)]
    ensures Contains(ToUpper(p + [l] + [d]), [L])
    ensures UpperChar(d) == L ==> Split(ToUpper(p + [l] + [d]), [L]) == [ToUpper(p)]
    ensures UpperChar(d) != L ==> Split(ToUpper(p + [l] + [d]), [L]) == [ToUpper(p), [UpperChar(d)]]
    ensures ParseInt([UpperChar(d)]).Err?
  {
    UpperAtLetter(p, l, L, d);
    if UpperChar(d) == L {
      SplitDoubled(ToUpper(p), L);
    } else {
      SplitTwo(ToUpper(p), L, [UpperChar(d)]);
    }
  }

  /** A ten-day key whose last character is not a digit: a second X makes
      `split("X")[1]` an ArrayIndexOutOfBoundsException, and any other
      character a NumberFormatException. */
  lemma TenDayNonDigit(p: string, x: char, d: char)
    requires |p| == 6 && 'X' !in p && 'x' !in p
    requires (x == 'X' || x == 'x') && !IsDigit(d)
    ensures (d == 'X' || d == 'x') ==> DateParams(p + [x] + [d]) == Err(IndexOutOfBounds)
    ensures d != 'X' && d != 'x' ==> DateParams(p + [x] + [d]) == Err(IllegalArgument)
  {
    SplitAtLetterNonDigit(p, x, 'X', d);
    var ts := p + [x] + [d];
    assert SplitPart(ToUpper(ts), "X", 0) == Ok(ToUpper(p));
  }

  /** A quarter key whose last character is not a digit: a second Q makes
      `split("Q")[1]` an ArrayIndexOutOfBoundsException, and any other
      character a NumberFormatException. */
  lemma QuarterNonDigit(p: string, q: char, d: char)
    requires |p| == 4 && 'Q' !in p && 'q' !in p
    requires (q == 'Q' || q == 'q') && !IsDigit(d)
    ensures (d == 'Q' || d == 'q') ==> DateParams(p + [q] + [d]) == Err(IndexOutOfBounds)
    ensures d != 'Q' && d != 'q' ==> DateParams(p + [q] + [d]) == Err(IllegalArgument)
  {
    SplitAtLetterNonDigit(p, q, 'Q', d);
    var ts := p + [q] + [d];
    assert SplitPart(ToUpper(ts), "Q", 0) == Ok(ToUpper(p));
  }

  /** An eight-character key without an X is a single day. */
  lemma DayParams(ts: string)
    requires |ts| == 8 && 'X' !in ts && 'x' !in ts
    ensures DateParams(ts) == Ok([ts])
  {
    UpperContains(ts, 'X');
  }

  /** A six-character key without a Q is a whole month, days 01 to 31. */
  lemma MonthParams(ts: string)
    requires |ts| == 6 && 'Q' !in ts && 'q' !in ts
    ensures DateParams(ts) == Ok([ts + "01", ts + "31"])
  {
    UpperContains(ts, 'Q');
  }

  /** A quarter key `yyyy` + `Q`/`q` + n runs from the first day of month
      3n-2 to day 31 of month 3n; any other digit n fails the range
      assertion. */
  lemma QuarterParams(p: string, q: char, d: char)
    requires |p| == 4 && 'Q' !in p && 'q' !in p
    requires (q == 'Q' || q == 'q') && IsDigit(d)
    ensures var u := ToUpper(p);
      var r := DateParams(p + [q] + [d]);
      && (DigitValue(d) == 1 ==> r == Ok([u + "0101", u + "0331"]))
      && (DigitValue(d) == 2 ==> r == Ok([u + "0401", u + "0631"]))
      && (DigitValue(d) == 3 ==> r == Ok([u + "0701", u + "0931"]))
      && (DigitValue(d) == 4 ==> r == Ok([u + "1001", u + "1231"]))
      && (DigitValue(d) !in {1, 2, 3, 4} ==> r == Err(IllegalArgument))
  {
    QuarterShape(p, q, d);
    var n := DigitValue(d);
    var u := ToUpper(p);
    if 1 <= n <= 4 {
      QuarterMonths(n);
      var first, last := Pad2((n - 1) * 3 + 1), Pad2(n * 3);
      assert DateParams(p + [q] + [d]) == Ok([u + (first + "01"), u + (last + "31")]) by {
        assert u + first + "01" == u + (first + "01");
        assert u + last + "31" == u + (last + "31");
      }
    }
  }

  lemma QuarterShape(p: string, q: char, d: char)
    requires |p| == 4 && 'Q' !in p && 'q' !in p
    requires (q == 'Q' || q == 'q') && IsDigit(d)
    ensures var n := DigitValue(d);
      DateParams(p + [q] + [d])
      == if 1 <= n <= 4 then Ok([ToUpper(p) + Pad2((n - 1) * 3 + 1) + "01", ToUpper(p) + Pad2(n * 3) + "31"])
         else Err(IllegalArgument)
  {
    SplitAtLetter(p, q, 'Q', d);
    var ts := p + [q] + [d];
    assert SplitPart(ToUpper(ts), "Q", 0) == Ok(ToUpper(p));
    assert SplitPart(ToUpper(ts), "Q", 1) == Ok([d]);
  }

  /** The first and last day of quarter n, as `mmdd` strings. */
  lemma QuarterMonths(n: int)
    requires 1 <= n <= 4
    ensures n == 1 ==> Pad2((n - 1) * 3 + 1) + "01" == "0101" && Pad2(n * 3) + "31" == "0331"
    ensures n == 2 ==> Pad2((n - 1) * 3 + 1) + "01" == "0401" && Pad2(n * 3) + "31" == "0631"
    ensures n == 3 ==> Pad2((n - 1) * 3 + 1) + "01" == "0701" && Pad2(n * 3) + "31" == "0931"
    ensures n == 4 ==> Pad2((n - 1) * 3 + 1) + "01" == "1001" && Pad2(n * 3) + "31" == "1231"
  {
    Pad2Digits((n - 1) * 3 + 1);
    Pad2Digits(n * 3);
  }

  /** Any key that is not six or eight characters long is rejected. */
  lemma OtherLengthRejected(ts: string)
    requires |ts| != 6 && |ts| != 8
    ensures DateParams(ts) == Err(IllegalArgument)
  {
  }

  /** Whatever key is accepted yields one or two parameters. */
  lemma ParamCount(ts: string)
    ensures DateParams(ts).Ok? ==> 1 <= |DateParams(ts).value| <= 2
  {
  }
}
