/** Character and string helpers used throughout the model: decimal digits, the
    JavaScript number-to-string and `padStart` conversions, ASCII case mapping,
    `includes` on strings, `repeat`, `join`, and a few searches that the
    round-trip lemmas use to read labels back. */
module Text {

  predicate IsDigit(c: char) {
    '0' <= c <= '9'
  }

  predicate AllDigits(s: string) {
    forall i :: 0 <= i < |s| ==> IsDigit(s[i])
  }

  function DigitChar(d: int): (c: char)
    requires 0 <= d < 10
    ensures IsDigit(c) && DigitValue(c) == d
  {
    (d + '0' as int) as char
  }

  function DigitValue(c: char): int
    requires IsDigit(c)
  {
    c as int - '0' as int
  }

  /** `n.toString()` for a non-negative integer. */
  function NatToString(n: nat): (s: string)
    ensures AllDigits(s) && 1 <= |s|
    ensures n < 10 <==> |s| == 1
    ensures 10 <= n < 100 ==> |s| == 2
    decreases n
  {
    if n < 10 then [DigitChar(n)] else NatToString(n / 10) + [DigitChar(n % 10)]
  }

  /** The value of a string of decimal digits (`Number` / `parseInt` on such a string). */
  function ParseDigits(s: string): nat
    requires AllDigits(s)
    decreases |s|
  {
    if s == [] then 0 else 10 * ParseDigits(s[..|s| - 1]) + DigitValue(s[|s| - 1])
  }

  lemma {:induction false} ParseNatToString(n: nat)
    ensures ParseDigits(NatToString(n)) == n
    decreases n
  {
    if n >= 10 {
      var s := NatToString(n);
      assert s[..|s| - 1] == NatToString(n / 10);
      ParseNatToString(n / 10);
    }
  }

  lemma ParseTwoDigits(s: string)
    requires |s| == 2 && AllDigits(s)
    ensures ParseDigits(s) == 10 * DigitValue(s[0]) + DigitValue(s[1])
  {
    var p := s[..1];
    assert p[..0] == [];
    assert ParseDigits(p) == DigitValue(s[0]);
  }

  /** Appending two digits shifts the value by two decimal places. */
  lemma ParseAppendTwo(a: string, b: string)
    requires AllDigits(a) && |b| == 2 && AllDigits(b)
    ensures AllDigits(a + b)
    ensures ParseDigits(a + b) == 100 * ParseDigits(a) + ParseDigits(b)
  {
    var s := a + b;
    assert s[..|s| - 1] == a + b[..1];
    assert (a + b[..1])[..|a|] == a;
    ParseTwoDigits(b);
  }

  /** Two two-digit strings with the same value are the same string. */
  lemma TwoDigitsDetermined(s: string, t: string)
    requires |s| == 2 && AllDigits(s) && |t| == 2 && AllDigits(t)
    requires ParseDigits(s) == ParseDigits(t)
    ensures s == t
  {
    ParseTwoDigits(s);
    ParseTwoDigits(t);
    assert s[0] == t[0] && s[1] == t[1];
  }

  /** A string is its three slices at two cut points. */
  lemma SplitThree(s: string, i: nat, j: nat)
    requires i <= j <= |s|
    ensures s == s[..i] + s[i..j] + s[j..]
  {
  }

  lemma DigitsExclude(s: string, c: char)
    requires AllDigits(s) && !IsDigit(c)
    ensures c !in s
  {
  }

  /** `s.padStart(2, '0')`. */
  function PadStart2(s: string): string {
    if |s| >= 2 then s else Repeat('0', 2 - |s|) + s
  }

  /** `n.toString().padStart(2, '0')`: two digits for every n below 100, read back exactly. */
  function Pad2(n: nat): (s: string)
    ensures AllDigits(s) && |s| >= 2
    ensures n < 100 ==> |s| == 2 && ParseDigits(s) == n
  {
    ParseNatToString(n);
    var t := NatToString(n);
    if n < 10 then
      assert PadStart2(t) == ['0'] + t;
      assert PadStart2(t)[..1] == "0";
      PadStart2(t)
    else
      PadStart2(t)
  }

  /** `c.repeat(n)` for a one-character string c. */
  function Repeat(c: char, n: nat): (s: string)
    ensures |s| == n
    ensures forall i :: 0 <= i < n ==> s[i] == c
  {
    if n == 0 then [] else [c] + Repeat(c, n - 1)
  }

  function LowerChar(c: char): char {
    if 'A' <= c <= 'Z' then (c as int + 32) as char else c
  }

  function UpperChar(c: char): char {
    if 'a' <= c <= 'z' then (c as int - 32) as char else c
  }

  /** `s.toLowerCase()`, restricted to ASCII letters. */
  function ToLower(s: string): (r: string)
    ensures |r| == |s|
    ensures forall i :: 0 <= i < |s| ==> r[i] == LowerChar(s[i])
  {
    seq(|s|, i requires 0 <= i < |s| => LowerChar(s[i]))
  }

  /** `s.charAt(0).toUpperCase() + s.slice(1)`. */
  function Capitalize(s: string): (r: string)
    ensures |r| == |s|
    ensures |s| > 0 ==> r[0] == UpperChar(s[0]) && r[1..] == s[1..]
  {
    if s == [] then [] else [UpperChar(s[0])] + s[1..]
  }

  /** Capitalising loses nothing on words that start with a lower-case letter. */
  lemma CapitalizeInjective(s: string, t: string)
    requires |s| > 0 && 'a' <= s[0] <= 'z'
    requires |t| > 0 && 'a' <= t[0] <= 'z'
    ensures Capitalize(s) == Capitalize(t) ==> s == t
  {
    if Capitalize(s) == Capitalize(t) {
      assert UpperChar(s[0]) == UpperChar(t[0]);
      assert s == [s[0]] + s[1..] && t == [t[0]] + t[1..];
    }
  }

  /** The block q occurs in s starting at position i. */
  ghost predicate OccursAt(s: string, q: string, i: int) {
    0 <= i && i + |q| <= |s| && s[i..i + |q|] == q
  }

  /** q is a contiguous block of s: the meaning of `s.includes(q)`. */
  ghost predicate IsInfix(q: string, s: string) {
    exists i :: OccursAt(s, q, i)
  }

  /** `s.includes(q)`, as a left-to-right scan. */
  function Contains(s: string, q: string): bool
    decreases |s|
  {
    if |q| > |s| then false
    else if s[..|q|] == q then true
    else Contains(s[1..], q)
  }

  /** Dropping the first character shifts every occurrence one place to the left. */
  lemma OccursShift(s: string, q: string, i: int)
    requires |s| > 0 && 0 <= i
    ensures OccursAt(s[1..], q, i) <==> OccursAt(s, q, i + 1)
  {
    if i + |q| <= |s[1..]| {
      assert s[1..][i..i + |q|] == s[i + 1..i + 1 + |q|];
    }
  }

  lemma {:induction false} ContainsIff(s: string, q: string)
    ensures Contains(s, q) <==> IsInfix(q, s)
    decreases |s|
  {
    if |q| > |s| {
      assert !IsInfix(q, s);
    } else if s[..|q|] == q {
      assert OccursAt(s, q, 0);
    } else {
      ContainsIff(s[1..], q);
      if IsInfix(q, s[1..]) {
        var i :| OccursAt(s[1..], q, i);
        OccursShift(s, q, i);
      }
      if IsInfix(q, s) {
        var i :| OccursAt(s, q, i);
        assert i != 0;
        OccursShift(s, q, i - 1);
      }
    }
  }

  /** The first position of c in s, or |s| when c does not occur. */
  function IndexOf(s: string, c: char): (i: nat)
    ensures i <= |s|
    ensures i < |s| ==> s[i] == c
    ensures forall j :: 0 <= j < i ==> s[j] != c
    ensures c !in s <==> i == |s|
  {
    if s == [] then 0 else if s[0] == c then 0 else 1 + IndexOf(s[1..], c)
  }

  lemma IndexOfConcat(a: string, b: string, c: char)
    requires c !in a
    requires |b| > 0 && b[0] == c
    ensures IndexOf(a + b, c) == |a|
  {
    var s := a + b;
    assert s[|a|] == c;
    assert forall j :: 0 <= j < |a| ==> s[j] == a[j];
  }

  /** `parts.join(sep)`. */
  function Join(parts: seq<string>, sep: string): (r: string)
    ensures |parts| >= 1 ==> |r| >= |parts[0]|
    decreases |parts|
  {
    if |parts| == 0 then []
    else if |parts| == 1 then parts[0]
    else parts[0] + sep + Join(parts[1..], sep)
  }

  /** Splits at every ", " from the left; a remainder whose first comma is not followed
      by a space stays one part, comma included. */
  function SplitList(s: string): seq<string>
    decreases |s|
  {
    var i := IndexOf(s, ',');
    if i + 2 <= |s| && s[i + 1] == ' ' then [s[..i]] + SplitList(s[i + 2..])
    else [s]
  }

  /** A comma followed by anything but a space is no separator: the text stays whole. */
  lemma SplitOtherSeparator(a: string, x: char, b: string)
    requires ',' !in a && x != ' '
    ensures SplitList(a + [',', x] + b) == [a + [',', x] + b]
  {
    var s := a + [',', x] + b;
    assert s == a + ([',', x] + b);
    IndexOfConcat(a, [',', x] + b, ',');
    assert s[|a| + 1] == x;
  }

  /** Joining with ", " parts that hold no comma can be undone. */
  lemma {:induction false} SplitJoin(parts: seq<string>)
    requires |parts| >= 1
    requires forall k :: 0 <= k < |parts| ==> ',' !in parts[k]
    ensures SplitList(Join(parts, ", ")) == parts
    decreases |parts|
  {
    if |parts| > 1 {
      SplitStep(parts[0], Join(parts[1..], ", "));
      SplitJoin(parts[1..]);
      assert parts == [parts[0]] + parts[1..];
    }
  }

  lemma SplitStep(a: string, b: string)
    requires ',' !in a
    ensures SplitList(a + ", " + b) == [a] + SplitList(b)
  {
    var s := a + ", " + b;
    assert s == a + (", " + b);
    IndexOfConcat(a, ", " + b, ',');
    assert s[..|a|] == a;
    assert s[|a| + 2..] == b;
  }
}
