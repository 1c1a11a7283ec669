/** The JavaScript string operations the backend relies on, with the
    semantics of the ECMAScript built-ins: `split` on a one-character
    separator, `join`, `replace` with a string pattern (first occurrence
    only), `includes`, `trim`, `toString(radix)`, and hex rendering of bytes. */
module Strings {
  import opened Base

  // ---------------------------------------------------------------------
  // Whitespace and trimming
  // ---------------------------------------------------------------------

  /** ECMAScript WhiteSpace and LineTerminator code points: the set that
      `String.prototype.trim`, the regex class `\s` and `parseInt` skip. */
  predicate IsJsWhitespace(c: char) {
    var n := c as int;
    n == 0x09 || n == 0x0A || n == 0x0B || n == 0x0C || n == 0x0D || n == 0x20
    || n == 0xA0 || n == 0x1680 || (0x2000 <= n <= 0x200A)
    || n == 0x2028 || n == 0x2029 || n == 0x202F || n == 0x205F
    || n == 0x3000 || n == 0xFEFF
  }

  /** Number of whitespace characters at the start of `s`. */
  function LeadingWhitespace(s: string): (k: nat)
    ensures k <= |s|
    ensures forall i :: 0 <= i < k ==> IsJsWhitespace(s[i])
    ensures k == |s| || !IsJsWhitespace(s[k])
  {
    if |s| == 0 || !IsJsWhitespace(s[0]) then 0 else 1 + LeadingWhitespace(s[1..])
  }

  /** Number of whitespace characters at the end of `s`. */
  function TrailingWhitespace(s: string): (k: nat)
    ensures k <= |s|
    ensures forall i :: |s| - k <= i < |s| ==> IsJsWhitespace(s[i])
    ensures k == |s| || !IsJsWhitespace(s[|s| - k - 1])
  {
    if |s| == 0 || !IsJsWhitespace(s[|s| - 1]) then 0
    else 1 + TrailingWhitespace(s[..|s| - 1])
  }

  /** `s.trim()`: the longest slice of `s` that neither starts nor ends with
      whitespace, obtained by removing only whitespace from both ends. */
  function Trim(s: string): (r: string)
    ensures LeadingWhitespace(s) + |r| <= |s|
    ensures r == s[LeadingWhitespace(s)..LeadingWhitespace(s) + |r|]
    ensures forall i :: LeadingWhitespace(s) + |r| <= i < |s| ==> IsJsWhitespace(s[i])
    ensures |r| == 0 || (!IsJsWhitespace(r[0]) && !IsJsWhitespace(r[|r| - 1]))
    ensures |r| == 0 <==> forall i :: 0 <= i < |s| ==> IsJsWhitespace(s[i])
  {
    var a := LeadingWhitespace(s);
    var t := s[a..];
    var b := TrailingWhitespace(t);
    assert forall i :: a + (|t| - b) <= i < |s| ==> s[i] == t[i - a];
    t[..|t| - b]
  }

  // ---------------------------------------------------------------------
  // split / join on a one-character separator
  // ---------------------------------------------------------------------

  /** `s.split(sep)` for a one-character separator: the maximal
      separator-free pieces, including empty ones (`"".split("_")` is `[""]`). */
  function Split(s: string, sep: char): (parts: seq<string>)
    ensures |parts| >= 1
    ensures forall i :: 0 <= i < |parts| ==> sep !in parts[i]
    decreases |s|
  {
    if |s| == 0 then [""]
    else
      var rest := Split(s[1..], sep);
      if s[0] == sep then [""] + rest else [[s[0]] + rest[0]] + rest[1..]
  }

  /** `parts.join(sep)`. */
  function Join(parts: seq<string>, sep: char): string
    requires |parts| >= 1
    decreases |parts|
  {
    if |parts| == 1 then parts[0] else parts[0] + [sep] + Join(parts[1..], sep)
  }

  /** Number of occurrences of `c` in `s`. */
  function CountChar(s: string, c: char): nat {
    if |s| == 0 then 0 else (if s[0] == c then 1 else 0) + CountChar(s[1..], c)
  }

  /** Joining the pieces of a split gives back the original string. */
  lemma {:induction false} JoinSplit(s: string, sep: char)
    ensures Join(Split(s, sep), sep) == s
    decreases |s|
  {
    if |s| > 0 {
      var rest := Split(s[1..], sep);
      JoinSplit(s[1..], sep);
      if s[0] == sep {
        assert Split(s, sep)[1..] == rest;
        assert s == [sep] + s[1..];
      } else if |rest| == 1 {
        assert s == [s[0]] + s[1..];
      } else {
        var p := Split(s, sep);
        assert p[1..] == rest[1..];
        assert Join(rest, sep) == rest[0] + [sep] + Join(rest[1..], sep);
        assert s == [s[0]] + s[1..];
      }
    }
  }

  /** A split has exactly one more piece than the string has separators. */
  lemma {:induction false} SplitLength(s: string, sep: char)
    ensures |Split(s, sep)| == CountChar(s, sep) + 1
    decreases |s|
  {
    if |s| > 0 {
      SplitLength(s[1..], sep);
    }
  }

  /** Splitting a separator-free prefix followed by more text extends the
      first piece of the rest by that prefix. */
  lemma {:induction false} SplitPrefix(a: string, b: string, sep: char)
    requires sep !in a
    ensures Split(a + b, sep) == [a + Split(b, sep)[0]] + Split(b, sep)[1..]
    decreases |a|
  {
    if |a| > 0 {
      var sb := Split(b, sep);
      assert (a + b)[0] == a[0] && a[0] != sep;
      assert (a + b)[1..] == a[1..] + b;
      SplitPrefix(a[1..], b, sep);
      var rest := Split(a[1..] + b, sep);
      assert rest == [a[1..] + sb[0]] + sb[1..];
      assert Split(a + b, sep) == [[a[0]] + rest[0]] + rest[1..];
      assert [a[0]] + (a[1..] + sb[0]) == a + sb[0];
    } else {
      assert a + b == b;
      assert a + Split(b, sep)[0] == Split(b, sep)[0];
    }
  }

  /** A separator-free string is one piece. */
  lemma SplitNoSep(a: string, sep: char)
    requires sep !in a
    ensures Split(a, sep) == [a]
  {
    SplitPrefix(a, "", sep);
    assert a + "" == a;
  }

  /** Splitting at a separator splits each side independently. */
  lemma {:induction false} SplitAtSep(a: string, b: string, sep: char)
    ensures Split(a + [sep] + b, sep) == Split(a, sep) + Split(b, sep)
    decreases |a|
  {
    var s := a + [sep] + b;
    if |a| == 0 {
      assert s == [sep] + b && s[1..] == b;
    } else {
      assert s[0] == a[0] && s[1..] == a[1..] + [sep] + b;
      SplitAtSep(a[1..], b, sep);
    }
  }

  /** Splitting a join of separator-free pieces gives back the pieces. */
  lemma {:induction false} SplitJoin(parts: seq<string>, sep: char)
    requires |parts| >= 1
    requires forall i :: 0 <= i < |parts| ==> sep !in parts[i]
    ensures Split(Join(parts, sep), sep) == parts
    decreases |parts|
  {
    if |parts| == 1 {
      SplitPrefix(parts[0], "", sep);
      assert parts[0] + "" == parts[0];
    } else {
      var tail := Join(parts[1..], sep);
      SplitJoin(parts[1..], sep);
      assert ([sep] + tail)[1..] == tail;
      assert Split([sep] + tail, sep) == [""] + parts[1..];
      assert parts[0] + [sep] + tail == parts[0] + ([sep] + tail);
      SplitPrefix(parts[0], [sep] + tail, sep);
      assert parts[0] + "" == parts[0];
    }
  }

  // ---------------------------------------------------------------------
  // Substring search and first-occurrence replacement
  // ---------------------------------------------------------------------

  predicate StartsWith(s: string, prefix: string) {
    |prefix| <= |s| && s[..|prefix|] == prefix
  }

  /** `pat` occurs in `s` starting at position `i`. */
  predicate OccursAt(s: string, pat: string, i: nat) {
    i + |pat| <= |s| && s[i..i + |pat|] == pat
  }

  /** The first occurrence of `pat` in `s` at or after position `i`. */
  function FindFrom(s: string, pat: string, i: nat): (r: Option<nat>)
    requires i <= |s|
    ensures r.Some? ==> i <= r.value && OccursAt(s, pat, r.value)
    ensures r.Some? ==> forall j :: i <= j < r.value ==> !OccursAt(s, pat, j)
    ensures r.None? ==> forall j :: i <= j ==> !OccursAt(s, pat, j)
    decreases |s| - i
  {
    if i + |pat| > |s| then None
    else if s[i..i + |pat|] == pat then Some(i)
    else FindFrom(s, pat, i + 1)
  }

  /** `s.indexOf(pat)`, with `None` for -1. */
  function IndexOf(s: string, pat: string): Option<nat> {
    FindFrom(s, pat, 0)
  }

  /** `s.includes(pat)`. */
  predicate Contains(s: string, pat: string) {
    IndexOf(s, pat).Some?
  }

  /** An occurrence with no earlier occurrence is the one `indexOf` reports. */
  lemma IndexOfIs(s: string, pat: string, k: nat)
    requires OccursAt(s, pat, k)
    requires forall j :: 0 <= j < k ==> !OccursAt(s, pat, j)
    ensures IndexOf(s, pat) == Some(k)
  {
  }

  /** `s.replace(pat, rep)` with a string pattern: only the first occurrence
      is replaced, and `s` is returned unchanged when there is none. `rep` is
      inserted literally, so it is taken to contain no `$`: the `$&`, `$$`,
      `` $` `` and `$'` patterns JavaScript expands in a replacement string are
      not modelled (every replacement used here is `""` or `"_"`). */
  function ReplaceFirst(s: string, pat: string, rep: string): (r: string)
    ensures IndexOf(s, pat).None? ==> r == s
    ensures IndexOf(s, pat).Some? ==>
      var k := IndexOf(s, pat).value;
      r == s[..k] + rep + s[k + |pat|..]
  {
    match IndexOf(s, pat)
    case None => s
    case Some(k) => s[..k] + rep + s[k + |pat|..]
  }

  /** Replacing the first occurrence of a one-character string by itself
      changes nothing. */
  lemma ReplaceSameCharIsIdentity(s: string, c: char)
    ensures ReplaceFirst(s, [c], [c]) == s
  {
    match IndexOf(s, [c])
    case None =>
    case Some(k) =>
      assert s[k..k + 1] == [c];
      assert s == s[..k] + [c] + s[k + 1..];
  }

  // ---------------------------------------------------------------------
  // Case and character classes (ASCII only)
  // ---------------------------------------------------------------------

  predicate IsAsciiAlnum(c: char) {
    ('a' <= c <= 'z') || ('A' <= c <= 'Z') || ('0' <= c <= '9')
  }

  /** `s.toLowerCase()` restricted to the ASCII letters. */
  function LowerAscii(s: string): (r: string)
    ensures |r| == |s|
    ensures forall i :: 0 <= i < |s| ==>
      r[i] == (if 'A' <= s[i] <= 'Z' then (s[i] as int + 32) as char else s[i])
  {
    if |s| == 0 then ""
    else [if 'A' <= s[0] <= 'Z' then (s[0] as int + 32) as char else s[0]] + LowerAscii(s[1..])
  }

  // ---------------------------------------------------------------------
  // Number rendering and digit values
  // ---------------------------------------------------------------------

  /** Digit character for `d` in bases up to 36 (lower-case letters). */
  function DigitChar(d: nat): (c: char)
    requires d < 36
  {
    if d < 10 then ('0' as int + d) as char else ('a' as int + d - 10) as char
  }

  /** The value of a digit character as `parseInt` reads it (either case),
      or `None` when `c` is no digit in any base up to 36. */
  function DigitValue(c: char): (r: Option<nat>)
    ensures r.Some? ==> r.value < 36
  {
    if '0' <= c <= '9' then Some(c as int - '0' as int)
    else if 'a' <= c <= 'z' then Some(c as int - 'a' as int + 10)
    else if 'A' <= c <= 'Z' then Some(c as int - 'A' as int + 10)
    else None
  }

  predicate IsDigitIn(c: char, base: nat) {
    DigitValue(c).Some? && DigitValue(c).value < base
  }

  lemma DigitCharValue(d: nat)
    requires d < 36
    ensures DigitValue(DigitChar(d)) == Some(d)
  {
  }

  lemma DivModBounds(n: nat, base: nat)
    requires 2 <= base <= n
    ensures n / base < n && n % base < base
    ensures (n / base) * base + n % base == n
  {
  }

  /** `n.toString(base)` for a non-negative integer. */
  function NatToDigits(n: nat, base: nat): (r: string)
    requires 2 <= base <= 36
    ensures |r| >= 1
    ensures forall i :: 0 <= i < |r| ==> IsDigitIn(r[i], base)
    decreases n
  {
    if n < base then
      DigitCharValue(n);
      [DigitChar(n)]
    else
      DivModBounds(n, base);
      DigitCharValue(n % base);
      NatToDigits(n / base, base) + [DigitChar(n % base)]
  }

  /** The value of a non-empty digit string in `base`, most significant first. */
  function DigitsValue(ds: string, base: nat): nat
    requires forall i :: 0 <= i < |ds| ==> IsDigitIn(ds[i], base)
    decreases |ds|
  {
    if |ds| == 0 then 0
    else
      assert IsDigitIn(ds[|ds| - 1], base);
      var v := DigitsValue(ds[..|ds| - 1], base);
      MulIsNat(v, base);
      v * base + DigitValue(ds[|ds| - 1]).value
  }

  lemma MulIsNat(a: nat, b: nat)
    ensures a * b >= 0
  {
  }

  /** Appending a digit multiplies the value by the base and adds the digit. */
  lemma DigitsValueSnoc(ds: string, d: nat, base: nat)
    requires 2 <= base <= 36 && d < base
    requires forall i :: 0 <= i < |ds| ==> IsDigitIn(ds[i], base)
    ensures forall i :: 0 <= i < |ds + [DigitChar(d)]| ==> IsDigitIn((ds + [DigitChar(d)])[i], base)
    ensures DigitsValue(ds + [DigitChar(d)], base) == DigitsValue(ds, base) * base + d
  {
    DigitCharValue(d);
    var r := ds + [DigitChar(d)];
    assert r[..|r| - 1] == ds;
  }

  /** Reading back a rendered number gives the number. */
  lemma {:induction false} DigitsValueOfNatToDigits(n: nat, base: nat)
    requires 2 <= base <= 36
    ensures DigitsValue(NatToDigits(n, base), base) == n
    decreases n
  {
    if n < base {
      DigitsValueSnoc("", n, base);
      assert NatToDigits(n, base) == "" + [DigitChar(n)];
    } else {
      var q, m := n / base, n % base;
      DivModBounds(n, base);
      var front := NatToDigits(q, base);
      assert NatToDigits(n, base) == front + [DigitChar(m)];
      DigitsValueOfNatToDigits(q, base);
      DigitsValueSnoc(front, m, base);
    }
  }

  /** `String(n)` for an integer. */
  function Decimal(n: int): (r: string)
    ensures |r| >= 1
    ensures '_' !in r && ',' !in r
  {
    if n < 0 then "-" + NatToDigits(-n, 10) else NatToDigits(n, 10)
  }

  /** One byte as two lower-case hex digits, high nibble first. */
  function HexPair(b: bv8): (r: string)
    ensures |r| == 2 && IsDigitIn(r[0], 16) && IsDigitIn(r[1], 16)
    ensures !('A' <= r[0] <= 'Z') && !('A' <= r[1] <= 'Z')
  {
    var n := b as nat;
    var hi, lo := n / 16, n % 16;
    assert hi < 16 && lo < 16 by {
      assert n < 256;
    }
    NibbleDigit(hi);
    NibbleDigit(lo);
    [DigitChar(hi), DigitChar(lo)]
  }

  lemma NibbleDigit(d: nat)
    requires d < 16
    ensures IsDigitIn(DigitChar(d), 16) && !('A' <= DigitChar(d) <= 'Z')
  {
    DigitCharValue(d);
  }

  /** `buf.toString('hex')`: two lower-case hex digits per byte. */
  function Hex(bytes: seq<bv8>): (r: string)
    ensures |r| == 2 * |bytes|
    ensures forall i :: 0 <= i < |r| ==> IsDigitIn(r[i], 16) && !('A' <= r[i] <= 'Z')
  {
    if |bytes| == 0 then "" else HexPair(bytes[0]) + Hex(bytes[1..])
  }

  /** Byte `k` is rendered at positions `2k` and `2k + 1`. */
  lemma {:induction false} HexAt(bytes: seq<bv8>, k: nat)
    requires k < |bytes|
    ensures Hex(bytes)[2 * k] == HexPair(bytes[k])[0] && Hex(bytes)[2 * k + 1] == HexPair(bytes[k])[1]
    decreases k
  {
    var head, tail := HexPair(bytes[0]), Hex(bytes[1..]);
    assert Hex(bytes) == head + tail;
    if k > 0 {
      HexAt(bytes[1..], k - 1);
      assert bytes[1..][k - 1] == bytes[k];
    }
  }

  /** Reading each pair of hex digits back gives the byte it came from. */
  lemma HexDecodes(bytes: seq<bv8>, k: nat)
    requires k < |bytes|
    ensures var r := Hex(bytes);
      DigitValue(r[2 * k]).Some? && DigitValue(r[2 * k + 1]).Some?
      && DigitValue(r[2 * k]).value * 16 + DigitValue(r[2 * k + 1]).value == bytes[k] as int
  {
    HexAt(bytes, k);
    var n := bytes[k] as nat;
    DigitCharValue(n / 16);
    DigitCharValue(n % 16);
  }

  /** Four parts joined by a separator. */
  lemma JoinFour(a: string, b: string, c: string, d: string, sep: char)
    ensures Join([a, b, c, d], sep) == a + [sep] + b + [sep] + c + [sep] + d
  {
    assert [c, d][1..] == [d];
    assert Join([c, d], sep) == c + [sep] + d;
    assert [b, c, d][1..] == [c, d];
    assert Join([b, c, d], sep) == b + [sep] + (c + [sep] + d);
    assert [a, b, c, d][1..] == [b, c, d];
    assert Join([a, b, c, d], sep) == a + [sep] + (b + [sep] + (c + [sep] + d));
  }
}
