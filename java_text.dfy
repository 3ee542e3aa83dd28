/**
  The parts of java.lang.String and java.lang.Integer that the directory files and
  the fixture strings rely on: `trim`, `split` on a one-character delimiter,
  `String.join`, `Integer.parseInt` and `Integer.toString`, with Java's 32-bit int range.
 */
module JavaText {
  import opened Wrappers

  const INT_MIN: int := -0x8000_0000
  const INT_MAX: int := 0x7fff_ffff

  /** A value of Java's `int` type. */
  predicate IsInt32(x: int) {
    INT_MIN <= x <= INT_MAX
  }

  /** Java `int` arithmetic: the result of an operation reduced into the 32-bit range. */
  function Wrap32(x: int): (r: int)
    ensures IsInt32(r)
    ensures (x - r) % 0x1_0000_0000 == 0
    ensures IsInt32(x) ==> r == x
  {
    var m := (x - INT_MIN) % 0x1_0000_0000;
    m + INT_MIN
  }

  // ----- trim -----

  /** `String.trim` removes every leading and trailing char whose code is at most U+0020. */
  predicate IsTrimmed(c: char) {
    c <= ' '
  }

  function TrimStart(s: string): (r: string)
    ensures |r| <= |s| && r == s[|s| - |r|..]
    ensures r != [] ==> !IsTrimmed(r[0])
    ensures forall i :: 0 <= i < |s| - |r| ==> IsTrimmed(s[i])
  {
    if s != [] && IsTrimmed(s[0]) then TrimStart(s[1..]) else s
  }

  function TrimEnd(s: string): (r: string)
    ensures |r| <= |s| && r == s[..|r|]
    ensures r != [] ==> !IsTrimmed(r[|r| - 1])
    ensures forall i :: |r| <= i < |s| ==> IsTrimmed(s[i])
  {
    if s != [] && IsTrimmed(s[|s| - 1]) then TrimEnd(s[..|s| - 1]) else s
  }

  /** `r` is the infix of `s` at `k`, and every char of `s` outside it is a blank. */
  predicate TrimmedAt(s: string, r: string, k: int) {
    0 <= k <= |s| - |r| && r == s[k..k + |r|] &&
    (forall i :: 0 <= i < k ==> IsTrimmed(s[i])) &&
    (forall i :: k + |r| <= i < |s| ==> IsTrimmed(s[i]))
  }

  /** `s.trim()`: the longest infix of `s` that neither starts nor ends with a blank. */
  function Trim(s: string): (r: string)
    ensures |r| <= |s|
    ensures r != [] ==> !IsTrimmed(r[0]) && !IsTrimmed(r[|r| - 1])
  {
    TrimEnd(TrimStart(s))
  }

  /** What `trim` keeps: an infix of `s` with only blanks before and after it in `s`. */
  lemma TrimContent(s: string)
    ensures exists k :: TrimmedAt(s, Trim(s), k)
  {
    var t := TrimStart(s);
    InfixFramedByBlanks(s, t, TrimEnd(t));
    assert TrimmedAt(s, Trim(s), |s| - |t|);
  }

  /**
    A prefix `r` of a suffix `t` of `s`, where what the suffix drops from `s` and what
    the prefix drops from `t` are blanks, is the infix of `s` framed by blanks.
   */
  lemma InfixFramedByBlanks(s: string, t: string, r: string)
    requires |t| <= |s| && t == s[|s| - |t|..]
    requires |r| <= |t| && r == t[..|r|]
    requires forall i :: 0 <= i < |s| - |t| ==> IsTrimmed(s[i])
    requires forall i :: |r| <= i < |t| ==> IsTrimmed(t[i])
    ensures TrimmedAt(s, r, |s| - |t|)
  {
    var k := |s| - |t|;
    assert r == s[k..k + |r|];
    forall i | k + |r| <= i < |s|
      ensures IsTrimmed(s[i])
    {
      assert s[i] == t[i - k];
    }
  }

  /** A string that neither starts nor ends with a blank is its own trim. */
  lemma {:induction false} TrimOfTrimmed(s: string)
    requires s == [] || (!IsTrimmed(s[0]) && !IsTrimmed(s[|s| - 1]))
    ensures Trim(s) == s
  {
  }

  // ----- split and join -----

  /** All fields of `s` between occurrences of `d`, empty ones included; there is always one more field than delimiters. */
  function Fields(s: string, d: char): (r: seq<string>)
    ensures |r| >= 1
  {
    if s == [] then [""]
    else
      var rest := Fields(s[1..], d);
      if s[0] == d then [""] + rest else [[s[0]] + rest[0]] + rest[1..]
  }

  /** `String.join(sep, parts)`. */
  function Join(parts: seq<string>, sep: string): string {
    if parts == [] then ""
    else if |parts| == 1 then parts[0]
    else parts[0] + sep + Join(parts[1..], sep)
  }

  /** Joining one more part appends the separator and that part. */
  lemma {:induction false} JoinSnoc(parts: seq<string>, x: string, sep: string)
    requires parts != []
    ensures Join(parts + [x], sep) == Join(parts, sep) + sep + x
    decreases |parts|
  {
    var px := parts + [x];
    if |parts| == 1 {
      assert px[1..] == [x];
    } else {
      assert px[1..] == parts[1..] + [x];
      JoinSnoc(parts[1..], x, sep);
      assert Join(px, sep) == parts[0] + sep + (Join(parts[1..], sep) + sep + x);
      assert Join(parts, sep) == parts[0] + sep + Join(parts[1..], sep);
    }
  }

  /** Joining the fields of `s` with the delimiter gives `s` back, so `Fields` loses nothing. */
  lemma {:induction false} JoinFields(s: string, d: char)
    ensures Join(Fields(s, d), [d]) == s
  {
    if s != [] {
      var rest := Fields(s[1..], d);
      JoinFields(s[1..], d);
      if s[0] == d {
        assert Fields(s, d) == [""] + rest;
      } else {
        var fs := Fields(s, d);
        assert fs == [[s[0]] + rest[0]] + rest[1..];
        if |rest| == 1 {
          assert Join(fs, [d]) == [s[0]] + rest[0];
        } else {
          assert fs[1..] == rest[1..];
          assert Join(fs, [d]) == [s[0]] + rest[0] + [d] + Join(rest[1..], [d]);
        }
        assert [s[0]] + s[1..] == s;
      }
    }
  }

  /** A string free of the delimiter is one field. */
  lemma {:induction false} FieldsOfPlain(s: string, d: char)
    requires d !in s
    ensures Fields(s, d) == [s]
  {
    if s != [] {
      FieldsOfPlain(s[1..], d);
      assert [s[0]] + s[1..] == s;
    }
  }

  /** A delimiter-free prefix followed by the delimiter is the first field. */
  lemma {:induction false} FieldsOfPrefix(a: string, d: char, rest: string)
    requires d !in a
    ensures Fields(a + [d] + rest, d) == [a] + Fields(rest, d)
  {
    if a != [] {
      assert (a + [d] + rest)[1..] == a[1..] + [d] + rest;
      FieldsOfPrefix(a[1..], d, rest);
      assert [a[0]] + a[1..] == a;
    } else {
      assert a + [d] + rest == [d] + rest;
    }
  }

  /** Drops the empty fields at the end, as `split` with limit 0 does. */
  function DropTrailingEmpty(fs: seq<string>): (r: seq<string>)
    ensures |r| <= |fs| && r == fs[..|r|]
    ensures r != [] ==> r[|r| - 1] != ""
  {
    if fs != [] && fs[|fs| - 1] == "" then DropTrailingEmpty(fs[..|fs| - 1]) else fs
  }

  /**
    `s.split(d)` for a one-character delimiter that is not a regular-expression
    metacharacter: the whole string when `d` does not occur, otherwise the fields
    with the trailing empty ones removed (so `";;"` splits into no parts at all).
   */
  function Split(s: string, d: char): (r: seq<string>)
    ensures d !in s ==> r == [s]
  {
    if d !in s then [s] else DropTrailingEmpty(Fields(s, d))
  }

  /** No field contains the delimiter. */
  lemma {:induction false} FieldsFree(s: string, d: char)
    ensures forall i :: 0 <= i < |Fields(s, d)| ==> d !in Fields(s, d)[i]
  {
    if s != [] {
      FieldsFree(s[1..], d);
    }
  }

  /** No part `split` returns contains the delimiter. */
  lemma SplitPartsFree(s: string, d: char)
    ensures forall i :: 0 <= i < |Split(s, d)| ==> d !in Split(s, d)[i]
  {
    FieldsFree(s, d);
  }

  /** Two delimiter-free parts joined by the delimiter split back into exactly those parts. */
  lemma SplitPair(a: string, d: char, b: string)
    requires d !in a && d !in b && b != ""
    ensures Split(a + [d] + b, d) == [a, b]
  {
    var s := a + [d] + b;
    assert s[|a|] == d;
    FieldsOfPrefix(a, d, b);
    FieldsOfPlain(b, d);
    assert Fields(s, d) == [a, b];
  }

  /** Three delimiter-free parts joined by the delimiter split back into exactly those parts. */
  lemma SplitTriple(a: string, d: char, b: string, c: string)
    requires d !in a && d !in b && d !in c && c != ""
    ensures Split(a + [d] + b + [d] + c, d) == [a, b, c]
  {
    var s := a + [d] + b + [d] + c;
    assert s[|a|] == d;
    assert s == a + [d] + (b + [d] + c);
    FieldsOfPrefix(a, d, b + [d] + c);
    FieldsOfPrefix(b, d, c);
    FieldsOfPlain(c, d);
    assert Fields(s, d) == [a, b, c];
  }

  // ----- integers -----

  predicate IsDigit(c: char) {
    '0' <= c <= '9'
  }

  predicate AllDigits(s: string) {
    forall i :: 0 <= i < |s| ==> IsDigit(s[i])
  }

  /** The value of a string of decimal digits, most significant first. */
  function DigitsValue(s: string): nat
    requires AllDigits(s)
  {
    if s == [] then 0 else DigitsValue(s[..|s| - 1]) * 10 + (s[|s| - 1] as int - '0' as int)
  }

  /**
    `Integer.parseInt(s)`: an optional sign, then one or more decimal digits, and a value
    inside the int range; anything else is a NumberFormatException, here `None`.
   */
  function ParseInt(s: string): (r: Option<int>)
    ensures r.Some? ==> IsInt32(r.value)
    ensures r.Some? ==> s != [] && !IsTrimmed(s[0]) && !IsTrimmed(s[|s| - 1])
  {
    if s == [] then None
    else
      var digits := if s[0] == '-' || s[0] == '+' then s[1..] else s;
      if digits == [] || !AllDigits(digits) then None
      else
        var magnitude: int := DigitsValue(digits);
        var v: int := if s[0] == '-' then -magnitude else magnitude;
        if IsInt32(v) then Some(v) else None
  }

  /** The decimal digits of `n`, most significant first, without leading zeros. */
  function NatToString(n: nat): (r: string)
    ensures r != [] && AllDigits(r)
  {
    var last := ['0' + (n % 10) as char];
    if n < 10 then last else NatToString(n / 10) + last
  }

  /** `Integer.toString(i)`: a minus sign for a negative value, then the digits of its magnitude. */
  function IntToString(i: int): (r: string)
    ensures r != [] && !IsTrimmed(r[0]) && !IsTrimmed(r[|r| - 1])
  {
    if i < 0 then "-" + NatToString(-i) else NatToString(i)
  }

  /** The decimal text of an int holds only digits and a minus sign, so it contains no field delimiter. */
  lemma IntToStringChars(i: int)
    ensures forall c :: c in IntToString(i) ==> IsDigit(c) || c == '-'
  {
    var digits := NatToString(if i < 0 then -i else i);
    assert forall c :: c in digits ==> IsDigit(c);
  }

  lemma {:induction false} DigitsOfNat(n: nat)
    ensures DigitsValue(NatToString(n)) == n
  {
    var s := NatToString(n);
    if n >= 10 {
      DigitsOfNat(n / 10);
      assert s[..|s| - 1] == NatToString(n / 10);
    }
  }

  /** Reading back an int that was written out gives the same int. */
  lemma ParseIntToString(i: int)
    requires IsInt32(i)
    ensures ParseInt(IntToString(i)) == Some(i)
  {
    DigitsOfNat(if i < 0 then -i else i);
    if i < 0 {
      assert IntToString(i)[1..] == NatToString(-i);
    }
  }
}
