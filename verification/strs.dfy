/**
 * The part of Go's `strings` and `strconv` packages the core relies on,
 * with Go's semantics for the corner cases: `Split("", c) == [""]`,
 * `SplitN(s, c, 2)` splits at the first separator only, `ParseUint` takes no
 * sign, `ParseInt` takes one, and both reject the empty string.
 * Characters are Unicode code points; `TrimSpace` knows Unicode white
 * space, while the case mappings only know the ASCII letters.
 */
module Strs {
  import opened Wrappers

  // ---------------------------------------------------------------------
  // Splitting and joining
  // ---------------------------------------------------------------------

  /** strings.Split with a one-character separator. */
  function Split(s: string, sep: char): (parts: seq<string>)
    ensures |parts| >= 1
    decreases |s|
  {
    if |s| == 0 then [""]
    else
      var rest := Split(s[1..], sep);
      if s[0] == sep then [""] + rest
      else [[s[0]] + rest[0]] + rest[1..]
  }

  /** strings.Join with a one-character separator. */
  function Join(parts: seq<string>, sep: char): string
  {
    if |parts| == 0 then ""
    else if |parts| == 1 then parts[0]
    else parts[0] + [sep] + Join(parts[1..], sep)
  }

  lemma JoinConsChar(c: char, parts: seq<string>, sep: char)
    requires |parts| >= 1
    ensures Join([[c] + parts[0]] + parts[1..], sep) == [c] + Join(parts, sep)
  {
    var ps := [[c] + parts[0]] + parts[1..];
    assert ps[1..] == parts[1..];
  }

  /** Joining the parts of a split with the same separator gives back the input. */
  lemma {:induction false} JoinSplit(s: string, sep: char)
    ensures Join(Split(s, sep), sep) == s
  {
    if |s| > 0 {
      JoinSplit(s[1..], sep);
      var rest := Split(s[1..], sep);
      if s[0] == sep {
        assert ([""] + rest)[1..] == rest;
        assert s == [sep] + s[1..];
      } else {
        JoinConsChar(s[0], rest, sep);
        assert s == [s[0]] + s[1..];
      }
    }
  }

  /** No part of a split contains the separator. */
  lemma {:induction false} SplitPartsFree(s: string, sep: char)
    ensures forall i :: 0 <= i < |Split(s, sep)| ==> sep !in Split(s, sep)[i]
  {
    if |s| > 0 {
      SplitPartsFree(s[1..], sep);
      var rest := Split(s[1..], sep);
      if s[0] != sep {
        assert sep !in rest[0];
        assert sep !in [s[0]] + rest[0];
      }
    }
  }

  /** A string without the separator splits into itself alone. */
  lemma {:induction false} SplitNoSep(s: string, sep: char)
    requires sep !in s
    ensures Split(s, sep) == [s]
  {
    if |s| > 0 {
      SplitNoSep(s[1..], sep);
      assert [s[0]] + s[1..] == s;
    }
  }

  /** Splitting a separator-free head, the separator, then a tail. */
  lemma {:induction false} SplitConcat(a: string, sep: char, b: string)
    requires sep !in a
    ensures Split(a + [sep] + b, sep) == [a] + Split(b, sep)
    decreases |a|
  {
    if |a| == 0 {
      assert a + [sep] + b == [sep] + b;
      assert ([sep] + b)[1..] == b;
    } else {
      var s := a + [sep] + b;
      assert s[1..] == a[1..] + [sep] + b;
      SplitConcat(a[1..], sep, b);
      assert [a[0]] + a[1..] == a;
    }
  }

  /** Splitting separator-free parts joined by the separator gives them back. */
  lemma {:induction false} SplitJoin(parts: seq<string>, sep: char)
    requires |parts| >= 1 && forall i :: 0 <= i < |parts| ==> sep !in parts[i]
    ensures Split(Join(parts, sep), sep) == parts
  {
    if |parts| == 1 {
      SplitNoSep(parts[0], sep);
    } else {
      SplitJoin(parts[1..], sep);
      SplitConcat(parts[0], sep, Join(parts[1..], sep));
      assert [parts[0]] + parts[1..] == parts;
    }
  }

  /** The parts run together (strings.Join with an empty separator). */
  function Concat(parts: seq<string>): string
  {
    if |parts| == 0 then "" else Concat(parts[..|parts| - 1]) + parts[|parts| - 1]
  }

  lemma {:induction false} ConcatCons(p: string, parts: seq<string>)
    ensures Concat([p] + parts) == p + Concat(parts)
    decreases |parts|
  {
    if |parts| == 0 {
      assert [p] + parts == [p];
      assert [p][..0] == [];
    } else {
      var ps := [p] + parts;
      assert ps[..|ps| - 1] == [p] + parts[..|parts| - 1];
      ConcatCons(p, parts[..|parts| - 1]);
    }
  }

  /** Running the parts of a split together removes the separator. */
  lemma {:induction false} ConcatSplit(s: string, sep: char)
    ensures Concat(Split(s, sep)) == RemoveChar(s, sep)
  {
    if |s| > 0 {
      ConcatSplit(s[1..], sep);
      var rest := Split(s[1..], sep);
      if s[0] == sep {
        ConcatCons("", rest);
      } else {
        ConcatCons([s[0]] + rest[0], rest[1..]);
        ConcatCons(rest[0], rest[1..]);
        assert [rest[0]] + rest[1..] == rest;
      }
    }
  }

  /** Index of the first occurrence of `c` in `s`, if any. */
  function IndexOf(s: string, c: char): (r: Option<nat>)
    ensures r.None? <==> c !in s
    ensures r.Some? ==> r.value < |s| && s[r.value] == c && c !in s[..r.value]
    decreases |s|
  {
    if |s| == 0 then None
    else if s[0] == c then Some(0)
    else match IndexOf(s[1..], c)
      case None => None
      case Some(i) =>
        assert s[..i + 1] == [s[0]] + s[1..][..i];
        Some(i + 1)
  }

  /**
   * strings.SplitN(s, sep, 2): the text before the first separator and the
   * text after it, or the whole string when there is no separator.
   */
  function SplitN2(s: string, sep: char): (parts: seq<string>)
    ensures 1 <= |parts| <= 2
    ensures |parts| == 1 <==> sep !in s
    ensures |parts| == 1 ==> parts[0] == s
    ensures |parts| == 2 ==> parts[0] + [sep] + parts[1] == s && sep !in parts[0]
  {
    match IndexOf(s, sep)
      case None => [s]
      case Some(i) =>
        assert s[..i] + [sep] + s[i + 1..] == s;
        [s[..i], s[i + 1..]]
  }

  /** SplitN(…, 2) of a separator-free head, the separator and a tail gives the two. */
  lemma SplitN2Concat(a: string, sep: char, b: string)
    requires sep !in a
    ensures SplitN2(a + [sep] + b, sep) == [a, b]
  {
    var s := a + [sep] + b;
    var parts := SplitN2(s, sep);
    assert s[|a|] == sep;
    assert |parts| == 2;
    var i := IndexOf(s, sep).value;
    assert i == |a|;
    assert s[..i] == a;
    assert s[i + 1..] == b;
    assert parts == [s[..i], s[i + 1..]];
  }

  /** The number of bytes of the UTF-8 encoding of a code point. */
  function Utf8Width(c: char): nat
  {
    if c as int < 0x80 then 1
    else if c as int < 0x800 then 2
    else if c as int < 0x10000 then 3
    else 4
  }

  /** Every character is one byte in UTF-8. */
  predicate IsAscii(s: string)
  {
    forall i :: 0 <= i < |s| ==> s[i] as int < 0x80
  }

  /** Go's len() of a string: its length in UTF-8 bytes. */
  function ByteLen(s: string): (n: nat)
    ensures n >= |s|
    ensures IsAscii(s) ==> n == |s|
  {
    if |s| == 0 then 0 else Utf8Width(s[0]) + ByteLen(s[1..])
  }

  /** Byte lengths add up over concatenation. */
  lemma {:induction false} ByteLenConcat(a: string, b: string)
    ensures ByteLen(a + b) == ByteLen(a) + ByteLen(b)
    decreases |a|
  {
    if |a| > 0 {
      assert (a + b)[0] == a[0];
      assert (a + b)[1..] == a[1..] + b;
      ByteLenConcat(a[1..], b);
    } else {
      assert a + b == b;
    }
  }

  /**
   * The longest prefix of `s` whose encoding fits in `n` bytes: Go's
   * `s[:n]`, except that a character the cut would split is left out whole.
   */
  function BytePrefix(s: string, n: nat): (r: string)
    ensures r <= s && ByteLen(r) <= n
    ensures |r| < |s| ==> ByteLen(r) + Utf8Width(s[|r|]) > n
    decreases |s|
  {
    if |s| == 0 || Utf8Width(s[0]) > n then []
    else
      var rest := BytePrefix(s[1..], n - Utf8Width(s[0]));
      var r := [s[0]] + rest;
      assert r[1..] == rest;
      r
  }

  /** A first character that fits is kept, and the rest is cut to the bytes left. */
  lemma BytePrefixStep(s: string, n: nat)
    requires |s| > 0 && Utf8Width(s[0]) <= n
    ensures BytePrefix(s, n) == [s[0]] + BytePrefix(s[1..], n - Utf8Width(s[0]))
  {
  }

  /** On ASCII text the byte cut keeps one character per byte. */
  lemma {:induction false} BytePrefixAsciiLength(s: string, n: nat)
    requires IsAscii(s)
    ensures |BytePrefix(s, n)| == if |s| <= n then |s| else n
    decreases |s|
  {
    if |s| > 0 && n > 0 {
      var t := s[1..];
      assert IsAscii(t) by {
        forall i | 0 <= i < |t| ensures t[i] as int < 0x80 { assert t[i] == s[i + 1]; }
      }
      BytePrefixStep(s, n);
      BytePrefixAsciiLength(t, n - 1);
    }
  }

  /** On ASCII text the byte cut is the character cut. */
  lemma BytePrefixAscii(s: string, n: nat)
    requires IsAscii(s)
    ensures BytePrefix(s, n) == if |s| <= n then s else s[..n]
  {
    BytePrefixAsciiLength(s, n);
    var r := BytePrefix(s, n);
    assert r == s[..|r|];
  }

  /** The largest value of Go's 64-bit int. */
  const MaxInt: int := 0x7FFF_FFFF_FFFF_FFFF

  /** A value of Go's 64-bit int. */
  predicate InInt(x: int)
  {
    -MaxInt - 1 <= x <= MaxInt
  }

  /** Go's `x + 1` (or `x++`) on a 64-bit int: the largest int wraps to the smallest. */
  function Inc64(x: int): int
  {
    if x == MaxInt then -MaxInt - 1 else x + 1
  }

  /** strings.TrimPrefix. */
  function TrimPrefix(s: string, prefix: string): string
  {
    if prefix <= s then s[|prefix|..] else s
  }

  // ---------------------------------------------------------------------
  // White space and case
  // ---------------------------------------------------------------------

  /**
   * White space as unicode.IsSpace sees it: tab, line feed, vertical tab,
   * form feed, carriage return and space, NEL and no-break space, and the
   * other Unicode White_Space code points.
   */
  predicate IsSpace(c: char)
  {
    var n := c as int;
    || 9 <= n <= 13 || n == 0x20 || n == 0x85 || n == 0xA0 || n == 0x1680
    || 0x2000 <= n <= 0x200A || n == 0x2028 || n == 0x2029 || n == 0x202F || n == 0x205F || n == 0x3000
  }

  function TrimLeft(s: string): (r: string)
    ensures |r| <= |s| && r == s[|s| - |r|..]
    ensures |r| > 0 ==> !IsSpace(r[0])
    decreases |s|
  {
    if |s| > 0 && IsSpace(s[0]) then TrimLeft(s[1..]) else s
  }

  function TrimRight(s: string): (r: string)
    ensures |r| <= |s| && r == s[..|r|]
    ensures |r| > 0 ==> !IsSpace(r[|r| - 1])
    decreases |s|
  {
    if |s| > 0 && IsSpace(s[|s| - 1]) then TrimRight(s[..|s| - 1]) else s
  }

  /** strings.TrimSpace: drop leading and trailing white space. */
  function TrimSpace(s: string): (r: string)
    ensures |r| <= |s|
    ensures |r| > 0 ==> !IsSpace(r[0]) && !IsSpace(r[|r| - 1])
  {
    TrimRight(TrimLeft(s))
  }

  /** A string with no white space at either end is its own trim. */
  lemma TrimSpaceIdentity(s: string)
    requires |s| == 0 || (!IsSpace(s[0]) && !IsSpace(s[|s| - 1]))
    ensures TrimSpace(s) == s
  {
  }

  function LowerChar(c: char): char
  {
    if 'A' <= c <= 'Z' then (c as int + 32) as char else c
  }

  function UpperChar(c: char): char
  {
    if 'a' <= c <= 'z' then (c as int - 32) as char else c
  }

  /** strings.ToLower on the ASCII letters. */
  function ToLower(s: string): (r: string)
    ensures |r| == |s|
    ensures forall i :: 0 <= i < |s| ==> r[i] == LowerChar(s[i])
  {
    seq(|s|, i requires 0 <= i < |s| => LowerChar(s[i]))
  }

  /** strings.ToUpper on the ASCII letters. */
  function ToUpper(s: string): (r: string)
    ensures |r| == |s|
    ensures forall i :: 0 <= i < |s| ==> r[i] == UpperChar(s[i])
  {
    seq(|s|, i requires 0 <= i < |s| => UpperChar(s[i]))
  }

  /** strings.ReplaceAll(s, string(c), ""). */
  function RemoveChar(s: string, c: char): (r: string)
    ensures c !in r
    ensures |r| <= |s|
    ensures c !in s ==> r == s
    decreases |s|
  {
    if |s| == 0 then ""
    else if s[0] == c then RemoveChar(s[1..], c)
    else
      assert s == [s[0]] + s[1..];
      [s[0]] + RemoveChar(s[1..], c)
  }

  /** Removing a character distributes over concatenation. */
  lemma {:induction false} RemoveCharAppend(a: string, b: string, c: char)
    ensures RemoveChar(a + b, c) == RemoveChar(a, c) + RemoveChar(b, c)
    decreases |a|
  {
    if |a| > 0 {
      assert (a + b)[1..] == a[1..] + b;
      RemoveCharAppend(a[1..], b, c);
    } else {
      assert a + b == b;
    }
  }

  // ---------------------------------------------------------------------
  // Decimal numbers (strconv with base 10)
  // ---------------------------------------------------------------------

  predicate IsDigit(c: char)
  {
    '0' <= c <= '9'
  }

  predicate AllDigits(s: string)
  {
    forall i :: 0 <= i < |s| ==> IsDigit(s[i])
  }

  /** A non-empty run of decimal digits: what ParseUint with base 10 reads. */
  predicate IsDecimal(s: string)
  {
    |s| > 0 && AllDigits(s)
  }

  function DigitValue(c: char): nat
    requires IsDigit(c)
  {
    c as int - '0' as int
  }

  function DigitChar(d: nat): (c: char)
    requires d < 10
    ensures IsDigit(c) && DigitValue(c) == d
  {
    ('0' as int + d) as char
  }

  function DecimalValue(s: string): nat
    requires AllDigits(s)
    decreases |s|
  {
    if |s| == 0 then 0 else DecimalValue(s[..|s| - 1]) * 10 + DigitValue(s[|s| - 1])
  }

  function Pow2(n: nat): (p: nat)
    ensures p >= 1
  {
    if n == 0 then 1 else 2 * Pow2(n - 1)
  }

  /** strconv.ParseUint(s, 10, bits). */
  function ParseUint(s: string, bits: nat): (r: Option<nat>)
    ensures r.Some? ==> IsDecimal(s) && r.value == DecimalValue(s) && r.value < Pow2(bits)
    ensures IsDecimal(s) && DecimalValue(s) < Pow2(bits) ==> r.Some?
  {
    if IsDecimal(s) && DecimalValue(s) < Pow2(bits) then Some(DecimalValue(s)) else None
  }

  /**
   * strconv.ParseInt(s, 10, bits): an optional sign, then what ParseUint
   * accepts, within the signed range of `bits` bits.
   */
  function ParseInt(s: string, bits: nat): (r: Option<int>)
    requires bits >= 1
    ensures r.Some? ==> -(Pow2(bits - 1) as int) <= r.value < Pow2(bits - 1)
  {
    var neg := |s| > 0 && s[0] == '-';
    var digits := if |s| > 0 && (s[0] == '+' || s[0] == '-') then s[1..] else s;
    if !IsDecimal(digits) then None
    else
      var u: int := DecimalValue(digits);
      if neg then (if u <= Pow2(bits - 1) then Some(-u) else None)
      else (if u < Pow2(bits - 1) then Some(u) else None)
  }

  /** strconv.Atoi on a 64-bit platform. */
  function Atoi(s: string): Option<int>
  {
    ParseInt(s, 64)
  }

  /** Decimal rendering of a natural number, as fmt's %d prints it. */
  function NatToString(n: nat): (s: string)
    ensures IsDecimal(s) && DecimalValue(s) == n
    ensures s[0] != '0' || n == 0
    decreases n
  {
    if n < 10 then [DigitChar(n)]
    else
      var prefix := NatToString(n / 10);
      var s := prefix + [DigitChar(n % 10)];
      assert s[..|s| - 1] == prefix;
      s
  }

  lemma Pow2Add(x: nat, y: nat)
    ensures Pow2(x + y) == Pow2(x) * Pow2(y)
    decreases x
  {
    if x > 0 {
      Pow2Add(x - 1, y);
      assert Pow2(x + y) == 2 * Pow2(x - 1 + y);
    }
  }

  /** The powers of two the integer widths in this model use. */
  lemma Pow2Values()
    ensures Pow2(8) == 256 && Pow2(12) == 4096 && Pow2(15) == 32768
    ensures Pow2(16) == 65536 && Pow2(17) == 131072 && Pow2(32) == 4294967296
  {
    assert Pow2(8) == 256;
    assert Pow2(12) == 16 * Pow2(8);
    assert Pow2(15) == 8 * Pow2(12);
    assert Pow2(16) == 2 * Pow2(15);
    assert Pow2(17) == 2 * Pow2(16);
    Pow2Add(16, 16);
  }

  /** 2^63, the bound of Go's 64-bit int. */
  lemma Pow2Of63()
    ensures Pow2(63) == 0x8000_0000_0000_0000
  {
    Pow2Values();
    Pow2Add(32, 31);
    assert Pow2(32) == 2 * Pow2(31);
  }

  lemma Pow2Mono(a: nat, b: nat)
    requires a <= b
    ensures Pow2(a) <= Pow2(b)
    decreases b
  {
    if a < b {
      Pow2Mono(a, b - 1);
    }
  }

  /** A number below 2^(3k) has at most k + 1 decimal digits (each digit takes more than 3 bits). */
  lemma {:induction false} NatToStringShort(n: nat, k: nat)
    requires n < Pow2(3 * k)
    ensures |NatToString(n)| <= k + 1
    decreases k
  {
    if n >= 10 {
      assert k >= 1;
      assert Pow2(3 * k) == 8 * Pow2(3 * (k - 1)) by {
        assert Pow2(3 * k) == 2 * Pow2(3 * k - 1);
        assert Pow2(3 * k - 1) == 2 * Pow2(3 * k - 2);
        assert Pow2(3 * k - 2) == 2 * Pow2(3 * (k - 1));
      }
      NatToStringShort(n / 10, k - 1);
    }
  }

  /** Decimal rendering of an integer, with a leading '-' when negative. */
  function IntToString(i: int): (s: string)
    ensures |s| > 0 && s[0] != '+'
  {
    if i < 0 then "-" + NatToString(-i) else NatToString(i)
  }

  /** ParseUint reads back every rendered number that fits its width. */
  lemma ParseUintRender(n: nat, bits: nat)
    requires n < Pow2(bits)
    ensures ParseUint(NatToString(n), bits) == Some(n)
  {
  }

  /** ParseInt reads back every rendered integer that fits its width. */
  lemma ParseIntRender(i: int, bits: nat)
    requires bits >= 1 && -(Pow2(bits - 1) as int) <= i < Pow2(bits - 1)
    ensures ParseInt(IntToString(i), bits) == Some(i)
  {
    var s := IntToString(i);
    if i < 0 {
      assert s[1..] == NatToString(-i);
    } else {
      assert s[0] != '-' && s[0] != '+';
    }
  }

  /** A number written out in decimal parses back to itself. */
  lemma ParseIntOfNat(n: nat, bits: nat)
    requires bits >= 1 && n < Pow2(bits - 1)
    ensures ParseInt(NatToString(n), bits) == Some(n)
  {
    var s := NatToString(n);
    assert IsDigit(s[0]);
  }

  /** A digit string never contains a sign, so ParseInt and ParseUint agree on it. */
  lemma ParseIntOfDecimal(s: string, bits: nat)
    requires bits >= 1 && IsDecimal(s)
    ensures ParseInt(s, bits).Some? <==> ParseUint(s, bits - 1).Some?
    ensures ParseInt(s, bits).Some? ==> ParseInt(s, bits).value == ParseUint(s, bits - 1).value
  {
    assert IsDigit(s[0]);
  }

  /** Two numbers joined by '-' ("3-7") are not one integer. */
  lemma DashPairNotInt(a: string, b: string, bits: nat)
    requires bits >= 1 && IsDecimal(a)
    ensures ParseInt(a + "-" + b, bits) == None
  {
    var s := a + "-" + b;
    assert IsDigit(s[0]) && s[|a|] == '-';
  }

  /** A run of digits holds no other character. */
  lemma DigitsFree(s: string, c: char)
    requires AllDigits(s) && !IsDigit(c)
    ensures c !in s
  {
  }

  /** From 15 bits on, a width holds every number below 32768. */
  lemma Pow2Above(k: nat)
    requires k >= 15
    ensures Pow2(k) >= 32768
  {
    Pow2Values();
    Pow2Mono(15, k);
  }
}
