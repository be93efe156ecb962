/**
 * The string primitives the OBJ loader in ferrisWheel.js leans on, written out with
 * the ECMAScript semantics the loader gets from them: `String.prototype.split` on a
 * single character, the whitespace class shared by the regular expression `\s` and
 * by `parseInt`'s leading-space trimming, and `parseInt` with no radix.
 */
module Text {

  datatype Option<+T> = None | Some(value: T)

  /** Characters matched by `\s` and trimmed by `parseInt`: ECMAScript WhiteSpace and LineTerminator. */
  predicate IsSpace(c: char)
  {
    var n := c as int;
    n == 0x09 || n == 0x0A || n == 0x0B || n == 0x0C || n == 0x0D || n == 0x20 ||
    n == 0xA0 || n == 0x1680 || (0x2000 <= n <= 0x200A) || n == 0x2028 || n == 0x2029 ||
    n == 0x202F || n == 0x205F || n == 0x3000 || n == 0xFEFF
  }

  /** Number of occurrences of `c` in `s`. */
  function Occurrences(s: string, c: char): nat
  {
    if s == [] then 0 else (if s[0] == c then 1 else 0) + Occurrences(s[1..], c)
  }

  /** `pieces.join(sep)`. */
  function Join(pieces: seq<string>, sep: char): string
  {
    if pieces == [] then ""
    else if |pieces| == 1 then pieces[0]
    else pieces[0] + [sep] + Join(pieces[1..], sep)
  }

  /**
   * `s.split(sep)` for a one-character separator: always at least one piece (the empty
   * string splits into `[""]`), one piece more than there are separators, no piece holds
   * the separator, and joining the pieces back gives `s`.
   */
  function Split(s: string, sep: char): (r: seq<string>)
    ensures |r| == Occurrences(s, sep) + 1
    ensures forall k :: 0 <= k < |r| ==> sep !in r[k]
    ensures Join(r, sep) == s
  {
    if s == [] then [""]
    else
      var rest := Split(s[1..], sep);
      if s[0] == sep then
        assert Join([""] + rest, sep) == [sep] + Join(rest, sep) by {
          assert ([""] + rest)[1..] == rest;
        }
        assert s == [s[0]] + s[1..];
        [""] + rest
      else
        var r := [[s[0]] + rest[0]] + rest[1..];
        assert r[1..] == rest[1..];
        assert Join(r, sep) == [s[0]] + Join(rest, sep);
        assert s == [s[0]] + s[1..];
        r
  }

  lemma {:induction false} SplitWithoutSeparator(s: string, sep: char)
    requires sep !in s
    ensures Split(s, sep) == [s]
  {
    if s != [] {
      SplitWithoutSeparator(s[1..], sep);
    }
  }

  /** `s.split(sep)` when `s` holds exactly one separator, at index `i`. */
  lemma {:induction false} SplitAtOnly(s: string, sep: char, i: nat)
    requires i < |s| && s[i] == sep
    requires sep !in s[..i] && sep !in s[i + 1..]
    ensures Split(s, sep) == [s[..i], s[i + 1..]]
  {
    if i == 0 {
      SplitWithoutSeparator(s[1..], sep);
    } else {
      assert s[1..][..i - 1] == s[..i][1..];
      assert s[1..][i..] == s[i + 1..];
      SplitAtOnly(s[1..], sep, i - 1);
      assert [s[0]] + s[1..][..i - 1] == s[..i];
    }
  }

  /** Splitting at a separator that follows a separator-free prefix. */
  lemma {:induction false} SplitConcatAt(a: string, b: string, sep: char)
    requires sep !in a
    ensures Split(a + [sep] + b, sep) == [a] + Split(b, sep)
  {
    if a == [] {
      assert a + [sep] + b == [sep] + b;
      assert ([sep] + b)[1..] == b;
    } else {
      assert (a + [sep] + b)[1..] == a[1..] + [sep] + b;
      SplitConcatAt(a[1..], b, sep);
      assert [a[0]] + a[1..] == a;
    }
  }

  /** The longest prefix of `s` whose characters all satisfy `p`. */
  function TakeWhile(s: string, p: char -> bool): (r: string)
    ensures |r| <= |s| && r == s[..|r|]
    ensures forall k :: 0 <= k < |r| ==> p(r[k])
    ensures |r| < |s| ==> !p(s[|r|])
  {
    if s == [] || !p(s[0]) then "" else [s[0]] + TakeWhile(s[1..], p)
  }

  /** A run of `p` characters that a non-`p` character (or the end) closes is exactly what `TakeWhile` takes. */
  lemma {:induction false} TakeWhileRun(a: string, b: string, p: char -> bool)
    requires forall k :: 0 <= k < |a| ==> p(a[k])
    requires b == [] || !p(b[0])
    ensures TakeWhile(a + b, p) == a
  {
    if a == [] {
      assert a + b == b;
    } else {
      assert (a + b)[0] == a[0] && p(a[0]);
      assert (a + b)[1..] == a[1..] + b;
      TakeWhileRun(a[1..], b, p);
      assert [a[0]] + a[1..] == a;
    }
  }

  predicate IsDecimalDigit(c: char) { '0' <= c <= '9' }

  predicate IsHexDigit(c: char) { '0' <= c <= '9' || 'a' <= c <= 'f' || 'A' <= c <= 'F' }

  function DigitValue(c: char): (v: nat)
    requires IsHexDigit(c)
    ensures v < 16
    ensures IsDecimalDigit(c) ==> v < 10
  {
    if '0' <= c <= '9' then (c - '0') as nat
    else if 'a' <= c <= 'f' then (c - 'a') as nat + 10
    else (c - 'A') as nat + 10
  }

  predicate IsRadixDigit(c: char, hex: bool)
  {
    if hex then IsHexDigit(c) else IsDecimalDigit(c)
  }

  /**
   * `parseInt(s)` with no radix, as ECMAScript defines it: skip leading whitespace, take
   * an optional sign, read a `0x`/`0X` prefix as radix 16, then read the longest run of
   * digits of that radix. `None` stands for NaN, the result when that run is empty.
   */
  function ParseInt(s: string): Option<int>
  {
    if s != [] && IsSpace(s[0]) then ParseInt(s[1..]) else ParseSigned(s)
  }

  /** `parseInt` after the leading whitespace. */
  function ParseSigned(t: string): Option<int>
  {
    if t != [] && t[0] == '-' then
      match ParseMagnitude(t[1..])
      case None => None
      case Some(n) => Some(-n)
    else if t != [] && t[0] == '+' then ParseMagnitude(t[1..])
    else ParseMagnitude(t)
  }

  /** `parseInt` after the sign: radix 16 behind a `0x` or `0X` prefix, radix 10 otherwise. */
  function ParseMagnitude(u: string): Option<int>
  {
    if |u| >= 2 && u[0] == '0' && (u[1] == 'x' || u[1] == 'X') then DigitRun(u[2..], true, 0, false)
    else DigitRun(u, false, 0, false)
  }

  /**
   * The value of the longest run of digits at the start of `u`, accumulated onto `acc`;
   * `seen` records whether a digit has been read already.
   */
  function DigitRun(u: string, hex: bool, acc: nat, seen: bool): (r: Option<int>)
    ensures seen ==> r.Some?
    ensures r.Some? ==> r.value >= 0
  {
    if u != [] && IsRadixDigit(u[0], hex) then
      DigitRun(u[1..], hex, acc * (if hex then 16 else 10) + DigitValue(u[0]), true)
    else if seen then Some(acc)
    else None
  }

  /** A single decimal digit parses to its value. */
  lemma ParseIntOfDigit(c: char)
    requires IsDecimalDigit(c)
    ensures ParseInt([c]) == Some(DigitValue(c) as int)
  {
    assert [c][1..] == [];
    assert ParseInt([c]) == ParseSigned([c]) == ParseMagnitude([c]) == DigitRun([c], false, 0, false);
    assert DigitRun([c], false, 0, false) == DigitRun([], false, DigitValue(c), true);
  }

  /** A string without a decimal digit, the empty string among them, is NaN to `parseInt`. */
  lemma {:induction false} ParseIntWithoutDigits(s: string)
    requires forall k :: 0 <= k < |s| ==> !IsDecimalDigit(s[k])
    ensures ParseInt(s) == None
  {
    if s != [] && IsSpace(s[0]) {
      ParseIntWithoutDigits(s[1..]);
    } else if s != [] && (s[0] == '-' || s[0] == '+') {
      assert s[1..] == [] || !IsDecimalDigit(s[1..][0]);
    }
  }
}
