/**
  The handful of Python `str` operations the ingestion scripts rely on:
  `isspace`/`strip`, `rstrip(c)`, `split(sep)` and its inverse `join`,
  the last component of a `/`-separated path, and decimal formatting of
  integers as done by `str(n)` and the `02d` format specifier.
*/
module Text {

  /** Python's `str.isspace()`: exactly the characters `strip()` removes. */
  predicate IsSpace(c: char) {
    var n := c as int;
    (9 <= n <= 13) || (28 <= n <= 32) || n == 0x85 || n == 0xA0 || n == 0x1680
    || (0x2000 <= n <= 0x200A) || n == 0x2028 || n == 0x2029 || n == 0x202F
    || n == 0x205F || n == 0x3000
  }

  /** `s.lstrip()` */
  function TrimStart(s: string): (r: string)
    ensures |r| <= |s| && r == s[|s| - |r|..]
    ensures |r| > 0 ==> !IsSpace(r[0])
    ensures forall i :: 0 <= i < |s| - |r| ==> IsSpace(s[i])
  {
    if |s| > 0 && IsSpace(s[0]) then TrimStart(s[1..]) else s
  }

  /** `s.rstrip()` */
  function TrimEnd(s: string): (r: string)
    ensures |r| <= |s| && r == s[..|r|]
    ensures |r| > 0 ==> !IsSpace(r[|r| - 1])
    ensures forall i :: |r| <= i < |s| ==> IsSpace(s[i])
  {
    if |s| > 0 && IsSpace(s[|s| - 1]) then TrimEnd(s[..|s| - 1]) else s
  }

  /** `s.strip()` */
  function Strip(s: string): (r: string)
    ensures |r| > 0 ==> !IsSpace(r[0]) && !IsSpace(r[|r| - 1])
  {
    var t := TrimStart(s);
    var r := TrimEnd(t);
    r
  }

  /** A string strips to nothing exactly when it is all white space. */
  lemma StripEmpty(s: string)
    ensures Strip(s) == [] <==> forall i :: 0 <= i < |s| ==> IsSpace(s[i])
  {
  }

  /** Stripping is idempotent: a stripped line is left as it is. */
  lemma StripIdempotent(s: string)
    ensures Strip(Strip(s)) == Strip(s)
  {
    var r := Strip(s);
    if |r| > 0 {
      assert TrimStart(r) == r;
      assert TrimEnd(r) == r;
    }
  }

  /** `s.rstrip(c)` for a single character `c`. */
  function TrimEndChar(s: string, c: char): (r: string)
    ensures |r| <= |s| && r == s[..|r|]
    ensures |r| > 0 ==> r[|r| - 1] != c
    ensures forall i :: |r| <= i < |s| ==> s[i] == c
  {
    if |s| > 0 && s[|s| - 1] == c then TrimEndChar(s[..|s| - 1], c) else s
  }

  /** `s.split(sep)`: always at least one part, and no part contains `sep`. */
  function Split(s: string, sep: char): (parts: seq<string>)
    ensures |parts| >= 1
    ensures forall p :: p in parts ==> sep !in p
  {
    if s == [] then [""]
    else
      var rest := Split(s[1..], sep);
      if s[0] == sep then [""] + rest
      else [[s[0]] + rest[0]] + rest[1..]
  }

  /** `sep.join(parts)` */
  function Join(parts: seq<string>, sep: char): string
    requires |parts| >= 1
  {
    if |parts| == 1 then parts[0] else parts[0] + [sep] + Join(parts[1..], sep)
  }

  /** Joining the parts of a split gives back the string. */
  lemma {:induction false} JoinSplit(s: string, sep: char)
    ensures Join(Split(s, sep), sep) == s
  {
    if s != [] {
      var rest := Split(s[1..], sep);
      JoinSplit(s[1..], sep);
      if s[0] == sep {
        assert Split(s, sep)[1..] == rest;
      } else {
        var parts := Split(s, sep);
        if |rest| == 1 {
          assert parts == [[s[0]] + rest[0]];
        } else {
          assert parts[1..] == rest[1..];
          assert Join(rest, sep) == rest[0] + [sep] + Join(rest[1..], sep);
        }
      }
    }
  }

  /** Splitting a join of separator-free parts gives back the parts. */
  lemma {:induction false} SplitJoin(parts: seq<string>, sep: char)
    requires |parts| >= 1
    requires forall p :: p in parts ==> sep !in p
    ensures Split(Join(parts, sep), sep) == parts
  {
    if |parts| == 1 {
      SplitNoSeparator(parts[0], sep);
    } else {
      SplitJoin(parts[1..], sep);
      SplitConcat(parts[0], Join(parts[1..], sep), sep);
      SplitNoSeparator(parts[0], sep);
      assert parts == [parts[0]] + parts[1..];
    }
  }

  lemma {:induction false} SplitNoSeparator(s: string, sep: char)
    requires sep !in s
    ensures Split(s, sep) == [s]
  {
    if s != [] {
      assert s[0] in s;
      SplitNoSeparator(s[1..], sep);
      assert [s[0]] + s[1..] == s;
    }
  }

  /** Splitting at one separator splits each side separately. */
  lemma {:induction false} SplitConcat(a: string, b: string, sep: char)
    ensures Split(a + [sep] + b, sep) == Split(a, sep) + Split(b, sep)
  {
    if a == [] {
      assert a + [sep] + b == [sep] + b;
      assert ([sep] + b)[1..] == b;
    } else {
      assert (a + [sep] + b)[1..] == a[1..] + [sep] + b;
      SplitConcat(a[1..], b, sep);
    }
  }

  /** The last `/`-separated component of a path or URL (`Path(p).name`). */
  function LastSegment(s: string): (r: string)
    ensures '/' !in r
  {
    var parts := Split(s, '/');
    parts[|parts| - 1]
  }

  /** The name after the last `/` of `dir + "/" + name` is `name`. */
  lemma LastSegmentOfJoin(dir: string, name: string)
    requires '/' !in name
    ensures LastSegment(dir + "/" + name) == name
  {
    SplitConcat(dir, name, '/');
    SplitNoSeparator(name, '/');
  }

  predicate IsDigit(c: char) {
    '0' <= c <= '9'
  }

  function DigitChar(d: nat): (c: char)
    requires d < 10
    ensures IsDigit(c)
  {
    ('0' as int + d) as char
  }

  /** `str(n)` for a natural number: decimal digits without leading zeros. */
  function NatToString(n: nat): (r: string)
    ensures |r| >= 1
    ensures forall i :: 0 <= i < |r| ==> IsDigit(r[i])
    ensures |r| > 1 ==> r[0] != '0'
  {
    if n < 10 then [DigitChar(n)] else NatToString(n / 10) + [DigitChar(n % 10)]
  }

  /** The value of a string of decimal digits. */
  function ParseNat(s: string): nat
    requires forall i :: 0 <= i < |s| ==> IsDigit(s[i])
  {
    if s == [] then 0
    else
      assert IsDigit(s[|s| - 1]);
      ParseNat(s[..|s| - 1]) * 10 + (s[|s| - 1] as int - '0' as int)
  }

  /** Reading back a formatted natural number gives the number. */
  lemma {:induction false} ParseNatToString(n: nat)
    ensures ParseNat(NatToString(n)) == n
  {
    if n >= 10 {
      var s := NatToString(n);
      ParseNatToString(n / 10);
      assert s[..|s| - 1] == NatToString(n / 10);
    }
  }

  /** Distinct numbers are formatted as distinct strings. */
  lemma NatToStringInjective(a: nat, b: nat)
    requires NatToString(a) == NatToString(b)
    ensures a == b
  {
    ParseNatToString(a);
    ParseNatToString(b);
  }

  /** `str(n)` / `f"{n}"` for any integer. */
  function IntToString(n: int): (r: string)
    ensures |r| >= 1
    ensures forall c :: c in r ==> IsDigit(c) || c == '-'
    ensures n >= 0 ==> r == NatToString(n)
  {
    if n < 0 then "-" + NatToString(-n) else NatToString(n)
  }

  /** `f"{n:02d}"`: zero-padded to a width of two, the sign counting towards the width. */
  function ZeroPad2(n: int): (r: string)
    ensures |r| >= 2
    ensures 0 <= n < 100 ==> |r| == 2 && (forall i :: 0 <= i < 2 ==> IsDigit(r[i])) && ParseNat(r) == n
    ensures n >= 10 || n < 0 ==> r == IntToString(n)
    ensures forall c :: c in r ==> IsDigit(c) || c == '-'
  {
    if 0 <= n < 10 then
      assert ParseNat(['0', DigitChar(n)]) == n by {
        assert ['0', DigitChar(n)][..1] == ['0'];
        assert ['0'][..0] == [];
      }
      ['0', DigitChar(n)]
    else
      if n >= 10 then ParseNatToString(n); IntToString(n)
      else IntToString(n)
  }
}
