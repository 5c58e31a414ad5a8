/** Text handling shared by the models: Go's 64-bit decimal printing and parsing,
    `fmt.Sscanf`'s `%d` verb, and `strings.SplitN` / `strings.Join`. */
module Text {

  datatype Option<+T> = None | Some(value: T)

  const MIN_INT64: int := -0x8000_0000_0000_0000
  const MAX_INT64: int := 0x7FFF_FFFF_FFFF_FFFF

  predicate IsInt64(n: int) {
    MIN_INT64 <= n <= MAX_INT64
  }

  /** Two's-complement wrap-around of Go's 64-bit `int`. */
  function Wrap64(n: int): (r: int)
    ensures IsInt64(r)
    ensures IsInt64(n) ==> r == n
  {
    (n - MIN_INT64) % 0x1_0000_0000_0000_0000 + MIN_INT64
  }

  /** Go's `/` truncates toward zero; Dafny's is Euclidean. */
  function TruncDiv(n: int, d: int): int
    requires d > 0
  {
    if n >= 0 then n / d else -((-n) / d)
  }

  function TruncMod(n: int, d: int): int
    requires d > 0
  {
    n - TruncDiv(n, d) * d
  }

  // ---------- decimal digits ----------

  predicate IsDigit(c: char) {
    '0' <= c <= '9'
  }

  predicate AllDigits(s: string) {
    forall i :: 0 <= i < |s| ==> IsDigit(s[i])
  }

  function DigitChar(d: int): (c: char)
    requires 0 <= d < 10
    ensures IsDigit(c) && DigitValue(c) == d
  {
    '0' + d as char
  }

  function DigitValue(c: char): int
    requires IsDigit(c)
  {
    c as int - '0' as int
  }

  function NatToString(n: nat): (s: string)
    ensures s != [] && AllDigits(s)
  {
    if n < 10 then [DigitChar(n)] else NatToString(n / 10) + [DigitChar(n % 10)]
  }

  /** `strconv.Itoa`, `strconv.FormatInt(_, 10)` and the `%d` verb of `fmt.Sprintf`. */
  function Itoa(n: int): string {
    if n < 0 then "-" + NatToString(-n) else NatToString(n)
  }

  function DigitsValue(s: string): nat
    requires AllDigits(s)
  {
    if s == [] then 0 else DigitsValue(s[..|s| - 1]) * 10 + DigitValue(s[|s| - 1])
  }

  lemma {:induction false} DigitsValueOfNat(n: nat)
    ensures DigitsValue(NatToString(n)) == n
  {
    if n >= 10 {
      DigitsValueOfNat(n / 10);
      assert NatToString(n)[..|NatToString(n)| - 1] == NatToString(n / 10);
    }
  }

  /** Length of the longest prefix of digits. */
  function DigitRun(s: string): (k: nat)
    ensures k <= |s| && AllDigits(s[..k])
    ensures k < |s| ==> !IsDigit(s[k])
  {
    if s == [] || !IsDigit(s[0]) then 0 else 1 + DigitRun(s[1..])
  }

  // ---------- fmt.Sscanf("%d") ----------

  /** The white space `fmt` skips before a verb; a newline is not among it. */
  predicate IsScanSpace(c: char) {
    var u := c as int;
    || (0x09 <= u <= 0x0D && c != '\n')
    || u in {0x20, 0x85, 0xA0, 0x1680, 0x2028, 0x2029, 0x202F, 0x205F, 0x3000}
    || 0x2000 <= u <= 0x200A
  }

  function SkipSpace(s: string): string {
    if s != [] && IsScanSpace(s[0]) then SkipSpace(s[1..]) else s
  }

  /** An optional sign: the factor it stands for and the text after it. */
  function ScanSign(s: string): (int, string) {
    if s != [] && s[0] == '-' then (-1, s[1..])
    else if s != [] && s[0] == '+' then (1, s[1..])
    else (1, s)
  }

  /** The `%d` verb: white space, a sign, the longest run of digits; out of 64-bit range is an error.
      Returns the number and the unread text. */
  function ScanInt(s: string): (r: Option<(int, string)>)
    ensures r.Some? ==> IsInt64(r.value.0)
  {
    var (sign, body) := ScanSign(SkipSpace(s));
    var k := DigitRun(body);
    if k == 0 then None
    else
      var n := sign * DigitsValue(body[..k]);
      if IsInt64(n) then Some((n, body[k..])) else None
  }

  /** `strconv.Atoi`: the same number syntax, but over the whole text and without white space. */
  function Atoi(s: string): Option<int> {
    var (sign, body) := ScanSign(s);
    if body == [] || !AllDigits(body) then None
    else
      var n := sign * DigitsValue(body);
      if IsInt64(n) then Some(n) else None
  }

  /** Printing then scanning gives the number back and leaves the rest of the text unread. */
  lemma {:induction false} ScanPrinted(n: int, rest: string)
    requires IsInt64(n)
    requires rest == [] || !IsDigit(rest[0])
    ensures ScanInt(Itoa(n) + rest) == Some((n, rest))
  {
    var digits := NatToString(if n < 0 then -n else n);
    DigitsValueOfNat(if n < 0 then -n else n);
    SignOfPrinted(n, rest);
    var body := digits + rest;
    DigitRunOf(digits, rest);
    assert body[..|digits|] == digits && body[|digits|..] == rest;
  }

  lemma SignOfPrinted(n: int, rest: string)
    ensures var s := Itoa(n) + rest;
            SkipSpace(s) == s && ScanSign(s) == (if n < 0 then -1 else 1, NatToString(if n < 0 then -n else n) + rest)
  {
    var s := Itoa(n) + rest;
    assert IsDigit(s[0]) || s[0] == '-';
    assert SkipSpace(s) == s;
    if n < 0 {
      assert s[1..] == NatToString(-n) + rest;
    } else {
      assert IsDigit(NatToString(n)[0]);
    }
  }

  lemma {:induction false} DigitRunOf(digits: string, rest: string)
    requires AllDigits(digits)
    requires rest == [] || !IsDigit(rest[0])
    ensures DigitRun(digits + rest) == |digits|
  {
    if digits == [] {
      assert digits + rest == rest;
    } else {
      assert (digits + rest)[1..] == digits[1..] + rest;
      DigitRunOf(digits[1..], rest);
    }
  }

  lemma AtoiOfItoa(n: int)
    requires IsInt64(n)
    ensures Atoi(Itoa(n)) == Some(n)
  {
    var digits := NatToString(if n < 0 then -n else n);
    DigitsValueOfNat(if n < 0 then -n else n);
    assert ScanSign(Itoa(n)).1 == digits;
  }

  /** The only characters `Itoa` produces. */
  lemma ItoaCharacters(n: int)
    ensures Itoa(n) != []
    ensures forall i :: 0 <= i < |Itoa(n)| ==> IsDigit(Itoa(n)[i]) || Itoa(n)[i] == '-'
  {
  }

  // ---------- strings.SplitN, strings.Split, strings.Join ----------

  /** Position of the first `c`, or the length when there is none. */
  function IndexOf(s: string, c: char): (i: nat)
    ensures i <= |s| && c !in s[..i]
    ensures i < |s| ==> s[i] == c
  {
    if s == [] || s[0] == c then 0 else 1 + IndexOf(s[1..], c)
  }

  lemma {:induction false} IndexOfFirst(a: string, c: char, b: string)
    requires c !in a
    ensures IndexOf(a + [c] + b, c) == |a|
  {
    if a == [] {
      assert (a + [c] + b)[0] == c;
    } else {
      assert (a + [c] + b)[1..] == a[1..] + [c] + b;
      IndexOfFirst(a[1..], c, b);
    }
  }

  /** The text before the first `c` is determined by the whole text. */
  lemma FirstPartUnique(a1: string, b1: string, a2: string, b2: string, c: char)
    requires c !in a1 && c !in a2
    requires a1 + [c] + b1 == a2 + [c] + b2
    ensures a1 == a2 && b1 == b2
  {
    IndexOfFirst(a1, c, b1);
    IndexOfFirst(a2, c, b2);
    assert a1 == (a1 + [c] + b1)[..|a1|] && b1 == (a1 + [c] + b1)[|a1| + 1..];
    assert a2 == (a2 + [c] + b2)[..|a2|] && b2 == (a2 + [c] + b2)[|a2| + 1..];
  }

  /** The text after the last `c` is determined by the whole text. */
  lemma LastPartUnique(a1: string, b1: string, a2: string, b2: string, c: char)
    requires c !in b1 && c !in b2
    requires a1 + [c] + b1 == a2 + [c] + b2
    ensures a1 == a2 && b1 == b2
  {
    var s := a1 + [c] + b1;
    assert s[|a1|] == c && s[|a2|] == c;
    assert forall i :: |a1| < i < |s| ==> s[i] == b1[i - |a1| - 1];
    assert forall i :: |a2| < i < |s| ==> s[i] == b2[i - |a2| - 1];
    assert |a1| == |a2|;
    assert a1 == s[..|a1|] && a2 == s[..|a2|];
    assert b1 == s[|a1| + 1..] && b2 == s[|a2| + 1..];
  }

  /** `strings.SplitN(s, sep, n)` for a one-character separator and positive `n`. */
  function SplitN(s: string, sep: char, n: nat): (parts: seq<string>)
    ensures parts != []
    decreases |s|
  {
    var i := IndexOf(s, sep);
    if n <= 1 || i == |s| then [s] else [s[..i]] + SplitN(s[i + 1..], sep, n - 1)
  }

  function Split(s: string, sep: char): seq<string> {
    SplitN(s, sep, |s| + 2)
  }

  function Join(parts: seq<string>, sep: char): string {
    if parts == [] then ""
    else if |parts| == 1 then parts[0]
    else parts[0] + [sep] + Join(parts[1..], sep)
  }

  predicate FreeOf(parts: seq<string>, c: char) {
    forall i :: 0 <= i < |parts| ==> c !in parts[i]
  }

  lemma {:induction false} SplitPartsFree(s: string, sep: char, n: nat)
    requires n > |s|
    ensures FreeOf(SplitN(s, sep, n), sep)
    decreases |s|
  {
    var i := IndexOf(s, sep);
    if n > 1 && i < |s| {
      SplitPartsFree(s[i + 1..], sep, n - 1);
    }
  }

  lemma {:induction false} IndexOfNone(s: string, c: char)
    requires c !in s
    ensures IndexOf(s, c) == |s|
  {
    if s != [] {
      IndexOfNone(s[1..], c);
    }
  }

  lemma {:induction false} SplitOfJoin(parts: seq<string>, sep: char, n: nat)
    requires parts != [] && FreeOf(parts, sep)
    requires n > |Join(parts, sep)| + 1
    ensures SplitN(Join(parts, sep), sep, n) == parts
    decreases |parts|
  {
    hide IndexOf;
    var s := Join(parts, sep);
    if |parts| == 1 {
      IndexOfNone(parts[0], sep);
    } else {
      var rest := Join(parts[1..], sep);
      IndexOfFirst(parts[0], sep, rest);
      assert s[..|parts[0]|] == parts[0] && s[|parts[0]| + 1..] == rest;
      SplitOfJoin(parts[1..], sep, n - 1);
    }
  }

  /** Joining then splitting is the identity exactly when no part contains the separator. */
  lemma SplitInvertsJoinIff(parts: seq<string>, sep: char)
    requires parts != []
    ensures Split(Join(parts, sep), sep) == parts <==> FreeOf(parts, sep)
  {
    var s := Join(parts, sep);
    SplitPartsFree(s, sep, |s| + 2);
    if FreeOf(parts, sep) {
      SplitOfJoin(parts, sep, |s| + 2);
    }
  }
}
