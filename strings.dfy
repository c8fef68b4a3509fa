/** The string operations the program relies on: Python's ordering of
    str, str(int) and int(s) in base 10, int(s, 2) and format(v, '0wb'),
    str.split, str.join, str.count and ASCII lower-casing. */
module Strings {
  import opened Wrappers
  import Sorting

  /** Python's `a < b` on str: code point by code point, a proper prefix first. */
  predicate StrLt(a: string, b: string)
  {
    if |a| == 0 then |b| > 0
    else if |b| == 0 then false
    else a[0] < b[0] || (a[0] == b[0] && StrLt(a[1..], b[1..]))
  }

  lemma {:induction false} StrLtIrreflexive(a: string)
    ensures !StrLt(a, a)
  {
    if |a| > 0 {
      StrLtIrreflexive(a[1..]);
    }
  }

  lemma {:induction false} StrLtTransitive(a: string, b: string, c: string)
    requires StrLt(a, b) && StrLt(b, c)
    ensures StrLt(a, c)
  {
    if |a| > 0 && a[0] == b[0] && b[0] == c[0] {
      StrLtTransitive(a[1..], b[1..], c[1..]);
    }
  }

  lemma {:induction false} StrLtConnected(a: string, b: string)
    requires a != b
    ensures StrLt(a, b) || StrLt(b, a)
  {
    if |a| > 0 && |b| > 0 && a[0] == b[0] {
      assert a == [a[0]] + a[1..] && b == [b[0]] + b[1..];
      StrLtConnected(a[1..], b[1..]);
    }
  }

  /** Python's string comparison is a strict total order, so sorted() on
      distinct strings has one result. */
  lemma StrLtStrictTotal()
    ensures Sorting.StrictTotal(StrLt)
  {
    forall a ensures !StrLt(a, a) {
      StrLtIrreflexive(a);
    }
    forall a, b, c | StrLt(a, b) && StrLt(b, c) ensures StrLt(a, c) {
      StrLtTransitive(a, b, c);
    }
    forall a, b | a != b ensures StrLt(a, b) || StrLt(b, a) {
      StrLtConnected(a, b);
    }
  }

  // ---------------------------------------------------------------- decimal

  predicate IsDigit(c: char)
  {
    '0' <= c <= '9'
  }

  function DigitChar(d: nat): char
    requires d < 10
  {
    ('0' as int + d) as char
  }

  /** str(n) for n >= 0: no leading zero unless n is 0. */
  function NatToString(n: nat): (s: string)
    ensures |s| > 0 && (forall i :: 0 <= i < |s| ==> IsDigit(s[i]))
    ensures s[0] == '0' ==> n == 0
  {
    if n < 10 then [DigitChar(n)] else NatToString(n / 10) + [DigitChar(n % 10)]
  }

  /** str(n) */
  function IntToString(n: int): string
  {
    if n < 0 then "-" + NatToString(-n) else NatToString(n)
  }

  /** The value of a string of decimal digits. */
  function DecimalValue(s: string): nat
    requires forall i :: 0 <= i < |s| ==> IsDigit(s[i])
  {
    if |s| == 0 then 0
    else
      assert IsDigit(s[|s| - 1]);
      DecimalValue(s[..|s| - 1]) * 10 + (s[|s| - 1] as int - '0' as int)
  }

  /** int(s) on a string made of an optional sign and one or more digits;
      None is the ValueError raised for anything else. */
  function ParseInt(s: string): Option<int>
  {
    if |s| > 0 && (s[0] == '-' || s[0] == '+') then
      if |s| > 1 && forall i :: 1 <= i < |s| ==> IsDigit(s[i]) then
        Some(if s[0] == '-' then -(DecimalValue(s[1..]) as int) else DecimalValue(s[1..]))
      else None
    else if |s| > 0 && forall i :: 0 <= i < |s| ==> IsDigit(s[i]) then Some(DecimalValue(s))
    else None
  }

  lemma {:induction false} NatToStringValue(n: nat)
    ensures DecimalValue(NatToString(n)) == n
  {
    if n >= 10 {
      NatToStringValue(n / 10);
      var s := NatToString(n);
      assert s[..|s| - 1] == NatToString(n / 10);
    }
  }

  /** int(str(n)) == n: str() on integers loses nothing. */
  lemma IntToStringRoundTrip(n: int)
    ensures ParseInt(IntToString(n)) == Some(n)
  {
    if n < 0 {
      var t := NatToString(-n);
      NatToStringValue(-n);
      var s := "-" + t;
      assert s[1..] == t;
      assert forall i :: 1 <= i < |s| ==> IsDigit(s[i]) by {
        forall i | 1 <= i < |s| ensures IsDigit(s[i]) {
          assert s[i] == t[i - 1];
        }
      }
      assert ParseInt(s) == Some(-(DecimalValue(t) as int));
    } else {
      var t := NatToString(n);
      NatToStringValue(n);
      assert IsDigit(t[0]);
      assert ParseInt(t) == Some(DecimalValue(t));
    }
  }

  /** Distinct integers have distinct decimal strings. */
  lemma IntToStringInjective(m: int, n: int)
    requires IntToString(m) == IntToString(n)
    ensures m == n
  {
    IntToStringRoundTrip(m);
    IntToStringRoundTrip(n);
  }

  // ----------------------------------------------------------------- binary

  function Pow2(n: nat): (p: nat)
    ensures p >= 1
  {
    if n == 0 then 1 else 2 * Pow2(n - 1)
  }

  lemma {:induction false} Pow2Add(m: nat, n: nat)
    ensures Pow2(m + n) == Pow2(m) * Pow2(n)
  {
    if n > 0 {
      Pow2Add(m, n - 1);
    }
  }

  predicate IsBit(c: char)
  {
    c == '0' || c == '1'
  }

  predicate IsBinary(s: string)
  {
    forall i :: 0 <= i < |s| ==> IsBit(s[i])
  }

  /** The big-endian value of a string of bits. */
  function BinaryValue(s: string): nat
    requires IsBinary(s)
  {
    if |s| == 0 then 0 else 2 * BinaryValue(s[..|s| - 1]) + (if s[|s| - 1] == '1' then 1 else 0)
  }

  /** int(s, 2) on a non-empty string of bits; None is the ValueError
      raised for the empty string and for any other character. */
  function ParseBinary(s: string): (r: Option<nat>)
    ensures r.Some? ==> r.value < Pow2(|s|)
  {
    if |s| > 0 && IsBinary(s) then BinaryValueBound(s); Some(BinaryValue(s)) else None
  }

  /** format(v, '0{w}b') for w >= 1 and v < 2^w: exactly w binary digits,
      most significant first. For v >= 2^w Python prints more digits, while
      this keeps only the low w bits; for w == 0 it gives "" where Python
      gives at least one digit (the caller handles that width itself). */
  function Bits(v: nat, w: nat): (s: string)
    ensures |s| == w && IsBinary(s)
  {
    if w == 0 then "" else Bits(v / 2, w - 1) + [if v % 2 == 1 then '1' else '0']
  }

  /** A string of w bits stands for a value below 2^w. */
  lemma {:induction false} BinaryValueBound(s: string)
    requires IsBinary(s)
    ensures BinaryValue(s) < Pow2(|s|)
  {
    if |s| > 0 {
      BinaryValueBound(s[..|s| - 1]);
    }
  }

  lemma ShiftStep(x: int, p: int, y: int, bit: int)
    ensures 2 * (x * p + y) + bit == x * (2 * p) + (2 * y + bit)
  {
  }

  /** Concatenating bit strings shifts the first by the width of the second. */
  lemma {:induction false} BinaryValueAppend(a: string, b: string)
    requires IsBinary(a) && IsBinary(b)
    ensures IsBinary(a + b)
    ensures BinaryValue(a + b) == BinaryValue(a) * Pow2(|b|) + BinaryValue(b)
  {
    assert IsBinary(a + b) by {
      forall i | 0 <= i < |a + b| ensures IsBit((a + b)[i]) {
        if i >= |a| {
          assert (a + b)[i] == b[i - |a|];
        }
      }
    }
    if |b| == 0 {
      assert a + b == a;
    } else {
      var b' := b[..|b| - 1];
      var bit := if b[|b| - 1] == '1' then 1 else 0;
      assert (a + b)[..|a + b| - 1] == a + b';
      assert (a + b)[|a + b| - 1] == b[|b| - 1];
      BinaryValueAppend(a, b');
      assert BinaryValue(a + b) == 2 * BinaryValue(a + b') + bit;
      assert BinaryValue(b) == 2 * BinaryValue(b') + bit;
      ShiftStep(BinaryValue(a), Pow2(|b'|), BinaryValue(b'), bit);
    }
  }

  /** int(format(v, '0{w}b'), 2) == v for every v < 2^w. */
  lemma {:induction false} BitsRoundTrip(v: nat, w: nat)
    requires v < Pow2(w)
    ensures BinaryValue(Bits(v, w)) == v
  {
    if w > 0 {
      BitsRoundTrip(v / 2, w - 1);
      var s := Bits(v, w);
      assert s[..|s| - 1] == Bits(v / 2, w - 1);
    }
  }

  /** Bits(BinaryValue(s), |s|) == s: the w-bit rendering of a w-bit string's
      value is the string itself. */
  lemma {:induction false} BinaryValueBits(s: string)
    requires IsBinary(s)
    ensures Bits(BinaryValue(s), |s|) == s
  {
    if |s| > 0 {
      var init := s[..|s| - 1];
      BinaryValueBits(init);
      assert BinaryValue(s) / 2 == BinaryValue(init);
      assert s == init + [s[|s| - 1]];
    }
  }

  // ---------------------------------------------------------- split / join

  /** s.count(c) for a one-character c. */
  function Count(s: string, c: char): nat
  {
    if |s| == 0 then 0 else Count(s[..|s| - 1], c) + (if s[|s| - 1] == c then 1 else 0)
  }

  lemma {:induction false} CountAppend(a: string, b: string, c: char)
    ensures Count(a + b, c) == Count(a, c) + Count(b, c)
  {
    if |b| == 0 {
      assert a + b == a;
    } else {
      assert (a + b)[..|a + b| - 1] == a + b[..|b| - 1];
      CountAppend(a, b[..|b| - 1], c);
    }
  }

  /** A character that does not occur is counted 0 times. */
  lemma {:induction false} CountAbsent(s: string, c: char)
    requires forall i :: 0 <= i < |s| ==> s[i] != c
    ensures Count(s, c) == 0
  {
    if |s| > 0 {
      CountAbsent(s[..|s| - 1], c);
    }
  }

  /** sep.join(parts) */
  function Join(sep: string, parts: seq<string>): string
  {
    if |parts| == 0 then ""
    else if |parts| == 1 then parts[0]
    else Join(sep, parts[..|parts| - 1]) + sep + parts[|parts| - 1]
  }

  /** s.split(c) for a one-character separator c. */
  function Split(s: string, c: char): (parts: seq<string>)
    ensures |parts| > 0
    ensures forall i, j :: 0 <= i < |parts| && 0 <= j < |parts[i]| ==> parts[i][j] != c
  {
    if |s| == 0 then [""]
    else
      var parts := Split(s[..|s| - 1], c);
      if s[|s| - 1] == c then parts + [""]
      else parts[..|parts| - 1] + [parts[|parts| - 1] + [s[|s| - 1]]]
  }

  /** Joining one more part appends the separator and the part. */
  lemma JoinSnoc(sep: string, parts: seq<string>, x: string)
    requires |parts| > 0
    ensures Join(sep, parts + [x]) == Join(sep, parts) + sep + x
  {
    assert (parts + [x])[..|parts|] == parts;
  }

  /** Extending the last part extends the joined string. */
  lemma JoinExtendLast(sep: string, parts: seq<string>, ch: char)
    requires |parts| > 0
    ensures Join(sep, parts[..|parts| - 1] + [parts[|parts| - 1] + [ch]]) == Join(sep, parts) + [ch]
  {
    var init := parts[..|parts| - 1];
    if |parts| > 1 {
      JoinSnoc(sep, init, parts[|parts| - 1] + [ch]);
      JoinSnoc(sep, init, parts[|parts| - 1]);
      assert init + [parts[|parts| - 1]] == parts;
    }
  }

  /** c.join(s.split(c)) == s */
  lemma {:induction false} SplitJoin(s: string, c: char)
    ensures Join([c], Split(s, c)) == s
  {
    if |s| > 0 {
      var init, last := s[..|s| - 1], s[|s| - 1];
      assert s == init + [last];
      SplitJoin(init, c);
      SplitSnoc(init, last, c);
      if last == c {
        JoinSnoc([c], Split(init, c), "");
      } else {
        JoinExtendLast([c], Split(init, c), last);
      }
    }
  }

  /** Split unfolded at a last character appended to s. */
  lemma SplitSnoc(s: string, ch: char, c: char)
    ensures var parts := Split(s, c);
            Split(s + [ch], c) ==
              if ch == c then parts + [""]
              else parts[..|parts| - 1] + [parts[|parts| - 1] + [ch]]
  {
    assert (s + [ch])[..|s + [ch]| - 1] == s;
  }

  /** A string that starts with p followed by c splits into p and the
      parts of the rest. */
  lemma {:induction false} SplitPrefix(p: string, c: char, rest: string)
    requires forall i :: 0 <= i < |p| ==> p[i] != c
    ensures Split(p + [c] + rest, c) == [p] + Split(rest, c)
  {
    if |rest| == 0 {
      SplitNoSeparator(p, c);
      SplitSnoc(p, c, c);
      assert p + [c] + rest == p + [c];
    } else {
      var init := rest[..|rest| - 1];
      var l := rest[|rest| - 1];
      SplitPrefix(p, c, init);
      assert rest == init + [l];
      assert p + [c] + rest == (p + [c] + init) + [l];
      SplitSnoc(p + [c] + init, l, c);
      SplitSnoc(init, l, c);
      if l != c {
        ExtendLastCons(p, Split(init, c), l);
      } else {
        AppendCons(p, Split(init, c), "");
      }
    }
  }

  lemma AppendCons(p: string, parts: seq<string>, x: string)
    ensures [p] + parts + [x] == [p] + (parts + [x])
  {
  }

  /** Extending the last part commutes with putting p in front. */
  lemma ExtendLastCons(p: string, parts: seq<string>, ch: char)
    requires |parts| > 0
    ensures var all := [p] + parts;
            all[..|all| - 1] + [all[|all| - 1] + [ch]] == [p] + (parts[..|parts| - 1] + [parts[|parts| - 1] + [ch]])
  {
    assert ([p] + parts)[..|parts|] == [p] + parts[..|parts| - 1];
  }

  /** A string without the separator splits into itself alone. */
  lemma {:induction false} SplitNoSeparator(s: string, c: char)
    requires forall i :: 0 <= i < |s| ==> s[i] != c
    ensures Split(s, c) == [s]
  {
    if |s| > 0 {
      SplitNoSeparator(s[..|s| - 1], c);
      assert s == s[..|s| - 1] + [s[|s| - 1]];
    }
  }

  // ------------------------------------------------------------- lower case

  /** str.lower() on ASCII letters; every other character is kept. */
  function Lower(s: string): (r: string)
    ensures |r| == |s|
  {
    seq(|s|, i requires 0 <= i < |s| => if 'A' <= s[i] <= 'Z' then (s[i] as int + 32) as char else s[i])
  }
}
