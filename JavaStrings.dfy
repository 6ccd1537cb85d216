/** The few `java.lang.String`, `Integer` and `Long` operations the modelled
    code relies on: `startsWith`, `contains`, `split` with a literal
    separator, ASCII `toUpperCase`/`toLowerCase`, `Integer.parseInt` and
    `Long.toString`. */
module JavaStrings {
  import opened Wrappers

  predicate StartsWith(s: string, prefix: string) {
    |prefix| <= |s| && s[..|prefix|] == prefix
  }

  predicate OccursAt(s: string, sub: string, i: int) {
    0 <= i && i + |sub| <= |s| && s[i..i + |sub|] == sub
  }

  /** `s.indexOf(sub, from)`: the first position at or after `from` where
      `sub` occurs. */
  function IndexOf(s: string, sub: string, from: nat): (r: Option<nat>)
    ensures r.Some? ==> from <= r.value && OccursAt(s, sub, r.value)
    ensures r.Some? ==> forall j :: from <= j < r.value ==> !OccursAt(s, sub, j)
    ensures r.None? ==> forall j :: from <= j ==> !OccursAt(s, sub, j)
    decreases |s| - from
  {
    if from + |sub| > |s| then None
    else if s[from..from + |sub|] == sub then Some(from)
    else IndexOf(s, sub, from + 1)
  }

  predicate Contains(s: string, sub: string) {
    IndexOf(s, sub, 0).Some?
  }

  lemma ContainsChar(s: string, c: char)
    ensures Contains(s, [c]) <==> c in s
  {
    if c in s {
      var i :| 0 <= i < |s| && s[i] == c;
      assert OccursAt(s, [c], i);
    }
    if Contains(s, [c]) {
      var i := IndexOf(s, [c], 0).value;
      assert s[i..i + 1] == [c];
      assert s[i] == c;
    }
  }

  // ---------------------------------------------------------------- split

  /** The pieces between successive left-to-right occurrences of `sep`,
      including empty ones. */
  function Pieces(s: string, sep: string): (r: seq<string>)
    requires |sep| > 0
    ensures |r| >= 1
    decreases |s|
  {
    match IndexOf(s, sep, 0)
    case None => [s]
    case Some(i) => [s[..i]] + Pieces(s[i + |sep|..], sep)
  }

  /** Java's `split` drops trailing empty strings from the result. */
  function TrimTrailingEmpty(p: seq<string>): (r: seq<string>)
    ensures |r| <= |p| && r == p[..|r|]
    ensures |r| > 0 ==> r[|r| - 1] != ""
    ensures forall i :: |r| <= i < |p| ==> p[i] == ""
  {
    if |p| > 0 && p[|p| - 1] == "" then TrimTrailingEmpty(p[..|p| - 1]) else p
  }

  /** `s.split(sep)` for a separator without regular-expression
      metacharacters: when `sep` does not occur the result is `[s]`,
      otherwise the pieces with trailing empty strings removed. */
  function Split(s: string, sep: string): seq<string>
    requires |sep| > 0
  {
    if IndexOf(s, sep, 0).None? then [s] else TrimTrailingEmpty(Pieces(s, sep))
  }

  /** `s.split(sep)[k]`, failing as Java does when the array is too short. */
  function SplitPart(s: string, sep: string, k: nat): (r: Result<string>)
    requires |sep| > 0
    ensures r.Ok? <==> k < |Split(s, sep)|
    ensures r.Ok? ==> r.value == Split(s, sep)[k]
  {
    var parts := Split(s, sep);
    if k < |parts| then Ok(parts[k]) else Err(IndexOutOfBounds)
  }

  /** When `a` does not contain the first character of `sep`, the first
      occurrence of `sep` in `a + sep + b` is right after `a`. */
  lemma FirstOccurrenceAfter(a: string, sep: string, b: string)
    requires |sep| > 0
    requires forall i :: 0 <= i < |a| ==> a[i] != sep[0]
    ensures IndexOf(a + sep + b, sep, 0) == Some(|a|)
  {
    var s := a + sep + b;
    assert s[|a|..|a| + |sep|] == sep;
    assert OccursAt(s, sep, |a|);
    forall j | 0 <= j < |a|
      ensures !OccursAt(s, sep, j)
    {
      if j + |sep| <= |s| {
        assert s[j..j + |sep|][0] == a[j];
      }
    }
  }

  lemma {:induction false} PiecesAfter(a: string, sep: string, b: string)
    requires |sep| > 0
    requires forall i :: 0 <= i < |a| ==> a[i] != sep[0]
    ensures Pieces(a + sep + b, sep) == [a] + Pieces(b, sep)
  {
    var s := a + sep + b;
    FirstOccurrenceAfter(a, sep, b);
    assert s[..|a|] == a;
    assert s[|a| + |sep|..] == b;
  }

  /** A character that occurs in `s` but not in `sep` occurs in some piece. */
  lemma CharSurvivesInPieces(s: string, sep: string, c: char)
    requires |sep| > 0 && c in s && c !in sep
    ensures exists k :: 0 <= k < |Pieces(s, sep)| && c in Pieces(s, sep)[k]
  {
    var k := PieceWithChar(s, sep, c);
  }

  /** The index of a piece holding `c`. */
  lemma {:induction false} PieceWithChar(s: string, sep: string, c: char) returns (k: nat)
    requires |sep| > 0 && c in s && c !in sep
    ensures k < |Pieces(s, sep)| && c in Pieces(s, sep)[k]
    decreases |s|
  {
    var r := IndexOf(s, sep, 0);
    if r.None? {
      k := 0;
    } else {
      var i := r.value;
      assert Pieces(s, sep) == [s[..i]] + Pieces(s[i + |sep|..], sep);
      CharBesideOccurrence(s, sep, c, i);
      if c in s[..i] {
        k := 0;
      } else {
        var k' := PieceWithChar(s[i + |sep|..], sep, c);
        k := k' + 1;
      }
    }
  }

  /** A character of `s` that `sep` lacks lies before or after an
      occurrence of `sep`. */
  lemma CharBesideOccurrence(s: string, sep: string, c: char, i: nat)
    requires OccursAt(s, sep, i) && c in s && c !in sep
    ensures c in s[..i] || c in s[i + |sep|..]
  {
    var j :| 0 <= j < |s| && s[j] == c;
    if j < i {
      assert s[..i][j] == c;
    } else if j >= i + |sep| {
      assert s[i + |sep|..][j - i - |sep|] == c;
    } else {
      assert false;
    }
  }

  /** Trimming trailing empty strings keeps every piece up to a non-empty one. */
  lemma TrimKeeps(p: seq<string>, k: nat)
    requires k < |p| && p[k] != ""
    ensures k < |TrimTrailingEmpty(p)| && TrimTrailingEmpty(p)[k] == p[k]
  {
  }

  /** `(a + sep + b).split(sep)[0] == a` whenever `a` is free of the
      separator's first character and `b` holds a character the separator
      does not. */
  lemma SplitHead(a: string, sep: string, b: string, c: char)
    requires |sep| > 0
    requires forall i :: 0 <= i < |a| ==> a[i] != sep[0]
    requires c in b && c !in sep
    ensures SplitPart(a + sep + b, sep, 0) == Ok(a)
  {
    var s := a + sep + b;
    FirstOccurrenceAfter(a, sep, b);
    PiecesAfter(a, sep, b);
    CharSurvivesInPieces(b, sep, c);
    var pb := Pieces(b, sep);
    var k :| 0 <= k < |pb| && c in pb[k];
    var p := Pieces(s, sep);
    assert p[k + 1] == pb[k];
    TrimKeeps(p, k + 1);
    var t := TrimTrailingEmpty(p);
    assert Split(s, sep) == t;
    assert t[0] == p[0] == a;
  }

  /** `(a + sep + b).split(sep)` is `[a, b]` when neither part contains the
      (single-character) separator and `b` is not empty. */
  lemma SplitTwo(a: string, sep: char, b: string)
    requires sep !in a && sep !in b && b != ""
    ensures Split(a + [sep] + b, [sep]) == [a, b]
  {
    PiecesAfter(a, [sep], b);
    ContainsChar(b, sep);
    assert Pieces(b, [sep]) == [b];
  }

  /** `(a + sep + sep).split(sep)` is `[a]`: the two empty pieces after
      `a` are trailing and dropped. */
  lemma SplitDoubled(a: string, sep: char)
    requires sep !in a && a != ""
    ensures Split(a + [sep] + [sep], [sep]) == [a]
  {
    FirstOccurrenceAfter(a, [sep], [sep]);
    PiecesAfter(a, [sep], [sep]);
    PiecesAfter("", [sep], "");
    assert [] + [sep] + [] == [sep];
    assert Pieces("", [sep]) == [""];
    var p := Pieces(a + [sep] + [sep], [sep]);
    assert p == [a, "", ""];
    assert TrimTrailingEmpty([a]) == [a];
    assert [a, ""][..1] == [a];
    assert TrimTrailingEmpty([a, ""]) == [a];
    assert p[..2] == [a, ""];
  }

  // ---------------------------------------------------------------- case

  function UpperChar(c: char): char {
    if 'a' <= c <= 'z' then (c as int - 32) as char else c
  }

  function LowerChar(c: char): char {
    if 'A' <= c <= 'Z' then (c as int + 32) as char else c
  }

  /** `toUpperCase()` on the ASCII letters. */
  function ToUpper(s: string): (r: string)
    ensures |r| == |s| && forall i :: 0 <= i < |s| ==> r[i] == UpperChar(s[i])
  {
    seq(|s|, i requires 0 <= i < |s| => UpperChar(s[i]))
  }

  /** `toLowerCase()` on the ASCII letters. */
  function ToLower(s: string): (r: string)
    ensures |r| == |s| && forall i :: 0 <= i < |s| ==> r[i] == LowerChar(s[i])
  {
    seq(|s|, i requires 0 <= i < |s| => LowerChar(s[i]))
  }

  /** `s.toUpperCase().contains("X")` holds exactly when `s` holds an upper
      or lower case letter X. */
  lemma UpperContains(s: string, c: char)
    requires 'A' <= c <= 'Z'
    ensures Contains(ToUpper(s), [c]) <==> (c in s || (c as int + 32) as char in s)
  {
    ContainsChar(ToUpper(s), c);
    var u := ToUpper(s);
    if c in u {
      var i :| 0 <= i < |u| && u[i] == c;
      assert s[i] == c || s[i] == (c as int + 32) as char;
    }
    if c in s {
      var i :| 0 <= i < |s| && s[i] == c;
      assert u[i] == c;
    }
    if (c as int + 32) as char in s {
      var i :| 0 <= i < |s| && s[i] == (c as int + 32) as char;
      assert u[i] == c;
    }
  }

  // ---------------------------------------------------------------- numbers

  const INT_MIN: int := -0x8000_0000
  const INT_MAX: int := 0x7fff_ffff

  predicate IsDigit(c: char) {
    '0' <= c <= '9'
  }

  predicate AllDigits(s: string) {
    forall i :: 0 <= i < |s| ==> IsDigit(s[i])
  }

  function DigitValue(c: char): nat
    requires IsDigit(c)
  {
    c as int - '0' as int
  }

  function DigitChar(d: nat): (c: char)
    requires d < 10
    ensures IsDigit(c) && DigitValue(c) == d
  {
    ('0' as int + d) as char
  }

  /** The value of a string of decimal digits. */
  function DigitsValue(s: string): nat
    requires AllDigits(s)
  {
    if s == [] then 0 else DigitsValue(s[..|s| - 1]) * 10 + DigitValue(s[|s| - 1])
  }

  /** `Integer.parseInt(s)`: an optional sign followed by at least one ASCII
      digit, within the 32-bit range; anything else is a
      NumberFormatException (an IllegalArgumentException). */
  function ParseInt(s: string): (r: Result<int>)
    ensures r.Ok? ==> INT_MIN <= r.value <= INT_MAX
    ensures r.Ok? ==> |s| > 0 && (AllDigits(s) || ((s[0] == '-' || s[0] == '+') && AllDigits(s[1..])))
    ensures AllDigits(s) && s != [] && DigitsValue(s) <= INT_MAX ==> r == Ok(DigitsValue(s))
  {
    var signed := |s| > 0 && (s[0] == '-' || s[0] == '+');
    var digits := if signed then s[1..] else s;
    if digits == [] || !AllDigits(digits) then Err(IllegalArgument)
    else
      var v: int := if signed && s[0] == '-' then -(DigitsValue(digits) as int) else DigitsValue(digits);
      if INT_MIN <= v <= INT_MAX then Ok(v) else Err(IllegalArgument)
  }

  /** Decimal digits of a natural number, most significant first. */
  function NatToString(n: nat): (s: string)
    ensures |s| > 0 && AllDigits(s)
  {
    if n < 10 then [DigitChar(n)] else NatToString(n / 10) + [DigitChar(n % 10)]
  }

  /** `Long.toString(v)` (also what string concatenation of a number gives). */
  function LongToString(v: int): string {
    if v < 0 then "-" + NatToString(-v) else NatToString(v)
  }

  lemma {:induction false} NatToStringValue(n: nat)
    ensures DigitsValue(NatToString(n)) == n
  {
    if n >= 10 {
      var s := NatToString(n);
      NatToStringValue(n / 10);
      assert s[..|s| - 1] == NatToString(n / 10);
    }
  }

  /** Reads back what `LongToString` writes. */
  function DecimalValue(s: string): int
    requires (|s| > 0 && s[0] == '-' && AllDigits(s[1..])) || AllDigits(s)
  {
    if |s| > 0 && s[0] == '-' then -(DigitsValue(s[1..]) as int) else DigitsValue(s)
  }

  lemma LongToStringValue(v: int)
    ensures var s := LongToString(v);
      ((|s| > 0 && s[0] == '-' && AllDigits(s[1..])) || AllDigits(s)) && DecimalValue(s) == v
  {
    var s := LongToString(v);
    if v < 0 {
      NatToStringValue(-v);
      assert s[1..] == NatToString(-v);
    } else {
      NatToStringValue(v);
      assert IsDigit(s[0]);
    }
  }

  /** `Long.toString` is injective, and never produces a colon. */
  lemma LongToStringInjective(a: int, b: int)
    requires LongToString(a) == LongToString(b)
    ensures a == b
  {
    LongToStringValue(a);
    LongToStringValue(b);
  }

  lemma LongToStringNoColon(v: int)
    ensures ':' !in LongToString(v)
  {
    var s := NatToString(if v < 0 then -v else v);
    assert forall i :: 0 <= i < |s| ==> s[i] != ':';
  }
}
