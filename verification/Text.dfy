// The string operations the header code relies on, and decimal numbers.

module Text {
  import opened Base

  function StripPrefix(s: string, prefix: string): Option<string> {
    if prefix <= s then Some(s[|prefix|..]) else None
  }

  /** Splits at the first `c`. */
  function SplitOnce(s: string, c: char): Option<(string, string)> {
    if s == [] then None
    else if s[0] == c then Some(([], s[1..]))
    else
      match SplitOnce(s[1..], c)
      case None => None
      case Some(parts) => Some(([s[0]] + parts.0, parts.1))
  }

  /** Splits at the last `c`. */
  function RSplitOnce(s: string, c: char): Option<(string, string)> {
    if s == [] then None
    else
      var n := |s| - 1;
      if s[n] == c then Some((s[..n], []))
      else
        match RSplitOnce(s[..n], c)
        case None => None
        case Some(parts) => Some((parts.0, parts.1 + [s[n]]))
  }

  /** The whitespace that can occur in header text. */
  predicate IsSpace(c: char) {
    c == ' ' || c == '\t'
  }

  function TrimStart(s: string): string {
    if s != [] && IsSpace(s[0]) then TrimStart(s[1..]) else s
  }

  function TrimEnd(s: string): string {
    if s != [] && IsSpace(s[|s| - 1]) then TrimEnd(s[..|s| - 1]) else s
  }

  function Trim(s: string): string {
    TrimEnd(TrimStart(s))
  }

  predicate IsDigit(c: char) {
    '0' <= c <= '9'
  }

  predicate AllDigits(s: string) {
    forall i :: 0 <= i < |s| ==> IsDigit(s[i])
  }

  function Digit(d: nat): char
    requires d < 10
  {
    '0' + d as char
  }

  /** The number a string of digits denotes. */
  function Value(s: string): nat
    requires AllDigits(s)
  {
    if s == [] then 0 else Value(s[..|s| - 1]) * 10 + (s[|s| - 1] - '0') as nat
  }

  /** Formats a number in decimal. */
  function Decimal(n: nat): string {
    if n < 10 then [Digit(n)] else Decimal(n / 10) + [Digit(n % 10)]
  }

  /** Parses a `u64`: an optional plus sign, then digits that fit. */
  function ParseU64(s: string): Option<nat> {
    var digits := if s != [] && s[0] == '+' then s[1..] else s;
    if digits != [] && AllDigits(digits) && Value(digits) < U64_LIMIT then Some(Value(digits)) else None
  }

  lemma {:induction false} DecimalDenotes(n: nat)
    ensures Decimal(n) != [] && AllDigits(Decimal(n)) && Value(Decimal(n)) == n
  {
    if n >= 10 {
      DecimalDenotes(n / 10);
      var s := Decimal(n);
      assert s[..|s| - 1] == Decimal(n / 10);
    } else {
      assert Decimal(n)[..0] == [];
    }
  }

  lemma ParseDecimal(n: nat)
    requires n < U64_LIMIT
    ensures ParseU64(Decimal(n)) == Some(n)
  {
    DecimalDenotes(n);
    assert IsDigit(Decimal(n)[0]);
  }

  lemma {:induction false} SplitOnceFirst(left: string, c: char, right: string)
    requires c !in left
    ensures SplitOnce(left + [c] + right, c) == Some((left, right))
  {
    var s := left + [c] + right;
    if left == [] {
      assert s[1..] == right;
    } else {
      assert s[1..] == left[1..] + [c] + right;
      SplitOnceFirst(left[1..], c, right);
      assert [left[0]] + left[1..] == left;
    }
  }

  /** A split is at the first `c`, and there is none only where there is no `c`. */
  lemma {:induction false} SplitOnceCuts(s: string, c: char)
    ensures SplitOnce(s, c).Some? ==>
      s == SplitOnce(s, c).value.0 + [c] + SplitOnce(s, c).value.1 && c !in SplitOnce(s, c).value.0
    ensures SplitOnce(s, c).None? ==> c !in s
  {
    if s != [] && s[0] != c {
      SplitOnceCuts(s[1..], c);
      assert s == [s[0]] + s[1..];
    } else if s != [] {
      assert s == [] + [c] + s[1..];
    }
  }

  /** A split is at the last `c`, and there is none only where there is no `c`. */
  lemma {:induction false} RSplitOnceCuts(s: string, c: char)
    ensures RSplitOnce(s, c).Some? ==>
      s == RSplitOnce(s, c).value.0 + [c] + RSplitOnce(s, c).value.1 && c !in RSplitOnce(s, c).value.1
    ensures RSplitOnce(s, c).None? ==> c !in s
  {
    if s != [] {
      var n := |s| - 1;
      assert s == s[..n] + [s[n]];
      if s[n] != c {
        RSplitOnceCuts(s[..n], c);
      } else {
        assert s == s[..n] + [c] + [];
      }
    }
  }

  lemma {:induction false} RSplitOnceLast(left: string, c: char, right: string)
    requires c !in right
    ensures RSplitOnce(left + [c] + right, c) == Some((left, right))
  {
    var s := left + [c] + right;
    var n := |s| - 1;
    if right == [] {
      assert s[..n] == left;
    } else {
      var m := |right| - 1;
      assert s[..n] == left + [c] + right[..m];
      RSplitOnceLast(left, c, right[..m]);
      assert right[..m] + [right[m]] == right;
    }
  }

  predicate AllSpace(s: string) {
    forall i :: 0 <= i < |s| ==> IsSpace(s[i])
  }

  lemma {:induction false} TrimStartStrips(s: string)
    ensures exists blank: string :: AllSpace(blank) && s == blank + TrimStart(s)
    ensures TrimStart(s) != [] ==> !IsSpace(TrimStart(s)[0])
  {
    if s != [] && IsSpace(s[0]) {
      TrimStartStrips(s[1..]);
      var blank: string :| AllSpace(blank) && s[1..] == blank + TrimStart(s[1..]);
      assert AllSpace([s[0]] + blank) && s == ([s[0]] + blank) + TrimStart(s);
    } else {
      assert AllSpace([]) && s == [] + TrimStart(s);
    }
  }

  lemma {:induction false} TrimEndStrips(s: string)
    ensures exists blank: string :: AllSpace(blank) && s == TrimEnd(s) + blank
    ensures TrimEnd(s) != [] ==> TrimEnd(s)[0] == s[0] && !IsSpace(TrimEnd(s)[|TrimEnd(s)| - 1])
    decreases |s|
  {
    var n := |s| - 1;
    if s != [] && IsSpace(s[n]) {
      TrimEndStrips(s[..n]);
      var blank: string :| AllSpace(blank) && s[..n] == TrimEnd(s[..n]) + blank;
      assert AllSpace(blank + [s[n]]) && s == TrimEnd(s) + (blank + [s[n]]);
    } else {
      assert AllSpace([]) && s == TrimEnd(s) + [];
    }
  }

  /** Trimming takes the blanks off both ends, and nothing else. */
  lemma TrimStrips(s: string)
    ensures exists front: string, back: string :: AllSpace(front) && AllSpace(back) && s == front + Trim(s) + back
    ensures Trim(s) != [] ==> !IsSpace(Trim(s)[0]) && !IsSpace(Trim(s)[|Trim(s)| - 1])
  {
    TrimStartStrips(s);
    TrimEndStrips(TrimStart(s));
    var front: string :| AllSpace(front) && s == front + TrimStart(s);
    var back: string :| AllSpace(back) && TrimStart(s) == Trim(s) + back;
    assert s == front + Trim(s) + back;
  }

  lemma TrimNothing(s: string)
    requires s != [] ==> !IsSpace(s[0]) && !IsSpace(s[|s| - 1])
    ensures Trim(s) == s
  {
  }
}
