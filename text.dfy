/** The string operations the engine performs on keys and paths: decimal
    rendering of an index (template literal `${i}`), `parseInt`, `split`,
    `join`, the "drop empty parts" filter and first-letter lower-casing. */
module Text {
  import opened Base

  predicate IsDigit(c: char) { '0' <= c <= '9' }

  predicate AllDigits(s: string) { forall i :: 0 <= i < |s| ==> IsDigit(s[i]) }

  function DigitChar(d: nat): (c: char)
    requires d < 10
    ensures IsDigit(c) && DigitValue(c) == d
  {
    ('0' as int + d) as char
  }

  function DigitValue(c: char): nat
    requires IsDigit(c)
  {
    c as int - '0' as int
  }

  /** Decimal rendering of a natural number, as `${i}` does for an array index. */
  function NatToString(n: nat): (s: string)
    ensures |s| > 0 && AllDigits(s)
    ensures s[0] == '0' ==> n == 0
    decreases n
  {
    if n < 10 then [DigitChar(n)] else NatToString(n / 10) + [DigitChar(n % 10)]
  }

  /** Decimal rendering of an integer, as a property name `obj[i]` would use. */
  function IntToString(i: int): string
  {
    if i < 0 then "-" + NatToString(-i) else NatToString(i)
  }

  /** The value of a string made of decimal digits only. */
  function DigitsValue(s: string): nat
    requires AllDigits(s)
  {
    if s == [] then 0 else DigitsValue(s[..|s| - 1]) * 10 + DigitValue(s[|s| - 1])
  }

  /** Length of the longest prefix of `s` made of decimal digits. */
  function DigitRun(s: string): (n: nat)
    ensures n <= |s| && AllDigits(s[..n])
    ensures n < |s| ==> !IsDigit(s[n])
  {
    if s == [] || !IsDigit(s[0]) then 0
    else
      var r := DigitRun(s[1..]);
      assert s[..r + 1] == [s[0]] + s[1..][..r];
      r + 1
  }

  /** JavaScript's `parseInt(s)` with the default radix: an optional sign,
      then the longest run of decimal digits; `None` (NaN) when there is none. */
  function ParseInt(s: string): (r: Option<int>)
  {
    var signed := |s| > 0 && (s[0] == '-' || s[0] == '+');
    var body := if signed then s[1..] else s;
    var n := DigitRun(body);
    if n == 0 then None
    else
      var v: int := DigitsValue(body[..n]);
      if signed && s[0] == '-' then Some(-v) else Some(v)
  }

  lemma {:induction false} DigitsValueOfNat(n: nat)
    ensures DigitsValue(NatToString(n)) == n
    decreases n
  {
    var s := NatToString(n);
    if n >= 10 {
      DigitsValueOfNat(n / 10);
      assert s[..|s| - 1] == NatToString(n / 10);
    }
  }

  lemma AllDigitsRun(s: string)
    requires AllDigits(s)
    ensures DigitRun(s) == |s|
  {
    if s != [] {
      assert AllDigits(s[1..]);
      AllDigitsRun(s[1..]);
    }
  }

  /** `parseInt` reads back every index the engine renders with `${i}`. */
  lemma ParseIntOfNat(n: nat)
    ensures ParseInt(NatToString(n)) == Some(n)
  {
    var s := NatToString(n);
    AllDigitsRun(s);
    assert s[..|s|] == s;
    DigitsValueOfNat(n);
  }

  /** JavaScript's `s.split(sep)` for a one-character separator. */
  function Split(s: string, sep: char): (parts: seq<string>)
    ensures |parts| >= 1
    ensures forall i :: 0 <= i < |parts| ==> sep !in parts[i]
  {
    if s == [] then [""]
    else
      var rest := Split(s[1..], sep);
      if s[0] == sep then [""] + rest else [[s[0]] + rest[0]] + rest[1..]
  }

  /** JavaScript's `parts.join(sep)` for a one-character separator. */
  function Join(parts: seq<string>, sep: char): string
  {
    if |parts| == 0 then ""
    else if |parts| == 1 then parts[0]
    else Join(parts[..|parts| - 1], sep) + [sep] + parts[|parts| - 1]
  }

  lemma {:induction false} JoinCons(a: string, rest: seq<string>, sep: char)
    requires |rest| >= 1
    ensures Join([a] + rest, sep) == a + [sep] + Join(rest, sep)
    decreases |rest|
  {
    var all := [a] + rest;
    var init := rest[..|rest| - 1];
    var last := rest[|rest| - 1];
    assert all[..|all| - 1] == [a] + init;
    assert all[|all| - 1] == last;
    assert Join(all, sep) == Join([a] + init, sep) + [sep] + last;
    if |rest| > 1 {
      JoinCons(a, init, sep);
      assert Join(rest, sep) == Join(init, sep) + [sep] + last;
    } else {
      assert [a] + init == [a];
    }
  }

  /** Splitting undoes joining when no part contains the separator. */
  lemma {:induction false} SplitJoin(parts: seq<string>, sep: char)
    requires |parts| >= 1
    requires forall i :: 0 <= i < |parts| ==> sep !in parts[i]
    ensures Split(Join(parts, sep), sep) == parts
    decreases |parts|, |parts[0]|
  {
    var a := parts[0];
    if |parts| == 1 {
      SplitNoSep(a, sep);
    } else {
      var rest := parts[1..];
      assert parts == [a] + rest;
      JoinCons(a, rest, sep);
      SplitJoin(rest, sep);
      SplitPrefix(a, Join(rest, sep), sep);
    }
  }

  lemma {:induction false} SplitNoSep(a: string, sep: char)
    requires sep !in a
    ensures Split(a, sep) == [a]
  {
    if a != [] {
      assert a[0] != sep && [a[0]] + a[1..] == a;
      assert sep !in a[1..];
      SplitNoSep(a[1..], sep);
    }
  }

  lemma {:induction false} SplitPrefix(a: string, b: string, sep: char)
    requires sep !in a
    ensures Split(a + [sep] + b, sep) == [a] + Split(b, sep)
  {
    var s := a + [sep] + b;
    if a == [] {
      assert s == [sep] + b;
      assert s[1..] == b;
    } else {
      assert s[0] == a[0] != sep;
      assert s[1..] == a[1..] + [sep] + b;
      assert sep !in a[1..];
      SplitPrefix(a[1..], b, sep);
      var rest := Split(s[1..], sep);
      assert rest == [a[1..]] + Split(b, sep);
      assert [s[0]] + rest[0] == a;
      assert rest[1..] == Split(b, sep);
    }
  }

  /** Joining undoes splitting. */
  lemma {:induction false} JoinSplit(s: string, sep: char)
    ensures Join(Split(s, sep), sep) == s
  {
    if s != [] {
      var rest := Split(s[1..], sep);
      JoinSplit(s[1..], sep);
      if s[0] == sep {
        JoinCons("", rest, sep);
      } else if |rest| == 1 {
        assert Split(s, sep) == [[s[0]] + rest[0]];
      } else {
        assert Split(s, sep) == [[s[0]] + rest[0]] + rest[1..];
        JoinCons([s[0]] + rest[0], rest[1..], sep);
        JoinCons(rest[0], rest[1..], sep);
        assert rest == [rest[0]] + rest[1..];
      }
    }
  }

  /** `parts.filter((a) => !!a)`: drops the empty strings. */
  function NonEmpty(parts: seq<string>): (r: seq<string>)
    ensures forall i :: 0 <= i < |r| ==> r[i] != ""
  {
    if parts == [] then []
    else if parts[0] == "" then NonEmpty(parts[1..])
    else [parts[0]] + NonEmpty(parts[1..])
  }

  /** The filter works part by part: filtering a concatenation concatenates
      the filtered halves, so every non-empty part is kept, in order. */
  lemma {:induction false} NonEmptyAppend(a: seq<string>, b: seq<string>)
    ensures NonEmpty(a + b) == NonEmpty(a) + NonEmpty(b)
    decreases |a|
  {
    if a == [] {
      assert a + b == b;
    } else {
      assert (a + b)[1..] == a[1..] + b;
      NonEmptyAppend(a[1..], b);
    }
  }

  /** Appending a part appends it to the result exactly when it is not empty. */
  lemma NonEmptySnoc(parts: seq<string>, x: string)
    ensures NonEmpty(parts + [x]) == NonEmpty(parts) + (if x == "" then [] else [x])
  {
    NonEmptyAppend(parts, [x]);
  }

  /** A string survives the filter exactly when it is a non-empty part. */
  lemma {:induction false} NonEmptyMembers(parts: seq<string>, x: string)
    ensures x in NonEmpty(parts) <==> x in parts && x != ""
    decreases |parts|
  {
    if parts != [] {
      NonEmptyMembers(parts[1..], x);
      assert parts == [parts[0]] + parts[1..];
    }
  }

  predicate StartsWith(s: string, prefix: string)
  {
    |prefix| <= |s| && s[..|prefix|] == prefix
  }

  /** `c.toLowerCase()` on one character; only ASCII letters are folded. */
  function LowerChar(c: char): char
  {
    if 'A' <= c <= 'Z' then (c as int + 32) as char else c
  }

  /** `${s.charAt(0).toLowerCase()}${s.substring(1)}`. */
  function LowerFirst(s: string): (r: string)
    ensures |r| == |s|
    ensures s != [] ==> r[0] == LowerChar(s[0]) && r[1..] == s[1..]
  {
    if s == [] then "" else [LowerChar(s[0])] + s[1..]
  }

  /** `c.toUpperCase()` on one character; only ASCII letters are folded. */
  function UpperChar(c: char): char
  {
    if 'a' <= c <= 'z' then (c as int - 32) as char else c
  }

  /** TypeScript's `Capitalize<K>`: the spelling a `use` binding name carries. */
  function Capitalize(s: string): (r: string)
    ensures |r| == |s|
    ensures s != [] ==> r[0] == UpperChar(s[0]) && r[1..] == s[1..]
  {
    if s == [] then "" else [UpperChar(s[0])] + s[1..]
  }

  /** A string holding the separator splits into at least two parts. */
  lemma {:induction false} SplitAtSeparator(s: string, sep: char)
    requires sep in s
    ensures |Split(s, sep)| >= 2
  {
    if s[0] != sep {
      assert s == [s[0]] + s[1..];
      assert sep in s[1..];
      SplitAtSeparator(s[1..], sep);
    }
  }
}
