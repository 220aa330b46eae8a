/**
 * Byte-level text handling used by the broker's wire protocol: the raw
 * request bytes, Python's `bytes.split` and `int()` on bytes, the decimal
 * text of an integer, and strict UTF-8 well-formedness (what `decode()`
 * accepts).
 */
module Wire {

  /** One octet of a request, carried as the character with that code. */
  type byte = c: char | c as int < 256

  type Bytes = seq<byte>

  datatype Option<T> = None | Some(value: T)

  /** Position of the first `c` in `s`, or `|s|` when `c` does not occur. */
  function IndexOf(s: Bytes, c: byte): (i: nat)
    ensures i <= |s|
    ensures c !in s[..i]
    ensures i < |s| ==> s[i] == c
    ensures i == |s| <==> c !in s
  {
    if s == [] then 0
    else if s[0] == c then 0
    else 1 + IndexOf(s[1..], c)
  }

  /** The first occurrence is the only position holding `c` with no `c` before it. */
  lemma IndexOfUnique(s: Bytes, c: byte, i: nat)
    requires i < |s| && s[i] == c && c !in s[..i]
    ensures IndexOf(s, c) == i
  {
    var j := IndexOf(s, c);
    assert j < |s|;
    assert s[..i][j..j] == s[j..j];
  }

  /** The first occurrence of `c` in `a + [c] + b` is the one between them when `a` has none. */
  lemma IndexOfAfterField(a: Bytes, c: byte, b: Bytes)
    requires c !in a
    ensures IndexOf(a + [c] + b, c) == |a|
  {
    var s := a + [c] + b;
    assert s[..|a|] == a;
    assert s[|a|] == c;
  }

  // ---------------------------------------------------------------------
  // bytes.split(sep) and its inverse
  // ---------------------------------------------------------------------

  /**
   * `s.split(sep)` for a one-byte separator: the fields between consecutive
   * separators, empty fields included, so there is always at least one.
   */
  function Split(s: Bytes, sep: byte): (fields: seq<Bytes>)
    ensures |fields| >= 1
    decreases |s|
  {
    var i := IndexOf(s, sep);
    if i == |s| then [s] else [s[..i]] + Split(s[i + 1..], sep)
  }

  /** `sep.join(fields)`. */
  function JoinWith(fields: seq<Bytes>, sep: byte): Bytes
  {
    if fields == [] then []
    else if |fields| == 1 then fields[0]
    else fields[0] + [sep] + JoinWith(fields[1..], sep)
  }

  /** One field off the front of a split. */
  lemma SplitCons(s: Bytes, sep: byte)
    requires IndexOf(s, sep) < |s|
    ensures Split(s, sep) == [s[..IndexOf(s, sep)]] + Split(s[IndexOf(s, sep) + 1..], sep)
  {
  }

  /** One field off the front of a join. */
  lemma JoinCons(head: Bytes, tail: seq<Bytes>, sep: byte)
    requires tail != []
    ensures JoinWith([head] + tail, sep) == head + [sep] + JoinWith(tail, sep)
  {
    assert ([head] + tail)[1..] == tail;
  }

  /** No field holds the separator. */
  predicate FieldsFree(fields: seq<Bytes>, sep: byte)
  {
    forall k :: 0 <= k < |fields| ==> sep !in fields[k]
  }

  lemma ConsFree(head: Bytes, tail: seq<Bytes>, sep: byte)
    requires sep !in head && FieldsFree(tail, sep)
    ensures FieldsFree([head] + tail, sep)
  {
    forall k | 0 <= k < |[head] + tail| ensures sep !in ([head] + tail)[k] {
      if k > 0 {
        assert ([head] + tail)[k] == tail[k - 1];
      }
    }
  }

  lemma TailFree(fields: seq<Bytes>, sep: byte)
    requires fields != [] && FieldsFree(fields, sep)
    ensures FieldsFree(fields[1..], sep)
  {
    forall k | 0 <= k < |fields[1..]| ensures sep !in fields[1..][k] {
      assert fields[1..][k] == fields[k + 1];
    }
  }

  /** Bytes without the separator split into themselves. */
  lemma SplitWhole(s: Bytes, sep: byte)
    requires IndexOf(s, sep) == |s|
    ensures Split(s, sep) == [s] && sep !in s
  {
  }

  lemma Reassemble(s: Bytes, i: nat)
    requires i < |s|
    ensures s == s[..i] + [s[i]] + s[i + 1..]
  {
  }

  /** Joining the fields of a split gives back the original bytes, and no field holds the separator. */
  lemma {:induction false} SplitJoin(s: Bytes, sep: byte)
    ensures JoinWith(Split(s, sep), sep) == s
    ensures FieldsFree(Split(s, sep), sep)
    decreases |s|
  {
    var i := IndexOf(s, sep);
    if i < |s| {
      var head, rest := s[..i], s[i + 1..];
      Reassemble(s, i);
      SplitJoin(rest, sep);
      SplitCons(s, sep);
      JoinCons(head, Split(rest, sep), sep);
      ConsFree(head, Split(rest, sep), sep);
    } else {
      SplitWhole(s, sep);
      ConsFree(s, [], sep);
    }
  }

  /** Splitting the join of separator-free fields gives back exactly those fields. */
  lemma {:induction false} JoinSplit(fields: seq<Bytes>, sep: byte)
    requires |fields| >= 1 && FieldsFree(fields, sep)
    ensures Split(JoinWith(fields, sep), sep) == fields
    decreases |fields|
  {
    assert sep !in fields[0];
    if |fields| > 1 {
      var head, tail := fields[0], fields[1..];
      var rest := JoinWith(tail, sep);
      var s := head + [sep] + rest;
      assert fields == [head] + tail;
      JoinCons(head, tail, sep);
      IndexOfAfterField(head, sep, rest);
      assert s[..|head|] == head && s[|head| + 1..] == rest;
      SplitCons(s, sep);
      TailFree(fields, sep);
      JoinSplit(tail, sep);
    } else {
      SplitWhole(fields[0], sep);
    }
  }

  /** When `a` has no separator, `a + [sep] + b` splits into exactly `a` and `b`. */
  lemma SplitTwoFields(a: Bytes, sep: byte, b: Bytes)
    requires sep !in a && sep !in b
    ensures Split(a + [sep] + b, sep) == [a, b]
  {
    var s := a + [sep] + b;
    IndexOfAfterField(a, sep, b);
    assert s[..|a|] == a && s[|a| + 1..] == b;
    SplitCons(s, sep);
  }

  /** Both `a` and `a + [sep] + b` split off the same first field when `a` holds a separator at `i`. */
  lemma SplitSameFirstField(a: Bytes, sep: byte, b: Bytes, i: nat)
    requires i == IndexOf(a, sep) < |a|
    ensures Split(a, sep) == [a[..i]] + Split(a[i + 1..], sep)
    ensures Split(a + [sep] + b, sep) == [a[..i]] + Split(a[i + 1..] + [sep] + b, sep)
  {
    var s := a + [sep] + b;
    assert s[..i] == a[..i];
    IndexOfUnique(s, sep, i);
    assert s[i + 1..] == a[i + 1..] + [sep] + b;
    SplitCons(s, sep);
    SplitCons(a, sep);
  }

  /** Appending a separator and a separator-free field appends exactly that field to the split. */
  lemma {:induction false} SplitAppendField(a: Bytes, sep: byte, b: Bytes)
    requires sep !in b
    ensures Split(a + [sep] + b, sep) == Split(a, sep) + [b]
    decreases |a|
  {
    var i := IndexOf(a, sep);
    if i == |a| {
      SplitTwoFields(a, sep, b);
    } else {
      var head, rest := a[..i], a[i + 1..];
      SplitSameFirstField(a, sep, b, i);
      SplitAppendField(rest, sep, b);
      assert [head] + (Split(rest, sep) + [b]) == ([head] + Split(rest, sep)) + [b];
    }
  }

  // ---------------------------------------------------------------------
  // int(b) on bytes, base 10
  // ---------------------------------------------------------------------

  /** The ASCII whitespace that `int()` strips from both ends of its argument. */
  predicate IsSpace(c: byte)
  {
    c == ' ' || c == '\t' || c == '\n' || c == '\r' || c == '\U{B}' || c == '\U{C}'
  }

  predicate IsDigit(c: byte)
  {
    '0' <= c <= '9'
  }

  function StripLeading(s: Bytes): (t: Bytes)
    ensures |t| <= |s|
  {
    if s != [] && IsSpace(s[0]) then StripLeading(s[1..]) else s
  }

  function StripTrailing(s: Bytes): (t: Bytes)
    ensures |t| <= |s|
  {
    if s != [] && IsSpace(s[|s| - 1]) then StripTrailing(s[..|s| - 1]) else s
  }

  /** `b.strip()` for the whitespace above. */
  function Strip(s: Bytes): Bytes
  {
    StripTrailing(StripLeading(s))
  }

  /**
   * A base-10 literal as `int()` reads it: digits, where an underscore may
   * stand only between two digits.
   */
  predicate IsDigitGroups(s: Bytes)
  {
    && |s| > 0 && IsDigit(s[0]) && IsDigit(s[|s| - 1])
    && (forall i :: 0 <= i < |s| ==> IsDigit(s[i]) || s[i] == '_')
    && (forall i, j :: 0 <= i < |s| && 0 <= j < |s| && j == i + 1 ==> IsDigit(s[i]) || IsDigit(s[j]))
  }

  /** The value of the digits of `s`, read left to right, underscores skipped. */
  function DigitsValue(s: Bytes): nat
    decreases |s|
  {
    if s == [] then 0
    else
      var rest := DigitsValue(s[..|s| - 1]);
      var last := s[|s| - 1];
      if IsDigit(last) then rest * 10 + (last as int - '0' as int) else rest
  }

  /**
   * `int(b)` for bytes `b`: surrounding whitespace is ignored, an optional
   * sign may lead, and anything else that is not a digit literal is the
   * `ValueError` the source lets escape (here `None`).
   */
  function ParseInt(s: Bytes): Option<int>
  {
    ParseLiteral(Strip(s))
  }

  /** `int()` of text already stripped of whitespace. */
  function ParseLiteral(t: Bytes): Option<int>
  {
    if |t| > 0 && (t[0] == '+' || t[0] == '-') then
      if IsDigitGroups(t[1..]) then
        Some(if t[0] == '-' then 0 - DigitsValue(t[1..]) else DigitsValue(t[1..]))
      else None
    else if IsDigitGroups(t) then Some(DigitsValue(t))
    else None
  }


  // ---------------------------------------------------------------------
  // f"{n}": the decimal text of an integer
  // ---------------------------------------------------------------------

  function DigitChar(d: nat): byte
    requires d < 10
  {
    ('0' as int + d) as char
  }

  function NatDecimal(n: nat): Bytes
  {
    if n < 10 then [DigitChar(n)] else NatDecimal(n / 10) + [DigitChar(n % 10)]
  }

  /** The decimal text Python's `str(n)` gives: a minus sign for negatives, no leading zeros. */
  function Decimal(n: int): Bytes
  {
    if n < 0 then "-" + NatDecimal(-n) else NatDecimal(n)
  }

  lemma {:induction false} NatDecimalDigits(n: nat)
    ensures |NatDecimal(n)| > 0
    ensures forall i :: 0 <= i < |NatDecimal(n)| ==> IsDigit(NatDecimal(n)[i])
    ensures DigitsValue(NatDecimal(n)) == n
  {
    if n >= 10 {
      NatDecimalDigits(n / 10);
      var s := NatDecimal(n);
      assert s[..|s| - 1] == NatDecimal(n / 10);
    }
  }

  /** Decimal text consists of digits with at most a leading minus sign: no space, no underscore. */
  lemma DecimalAlphabet(n: int)
    ensures |Decimal(n)| > 0
    ensures forall i :: 0 <= i < |Decimal(n)| ==> IsDigit(Decimal(n)[i]) || (i == 0 && Decimal(n)[i] == '-')
  {
    if n < 0 {
      NatDecimalDigits(-n);
    } else {
      NatDecimalDigits(n);
    }
  }

  lemma StripUnpadded(s: Bytes)
    requires |s| > 0 && !IsSpace(s[0]) && !IsSpace(s[|s| - 1])
    ensures Strip(s) == s
  {
  }

  /** A digit literal without padding reads as its digits' value. */
  lemma ParseUnsigned(t: Bytes)
    requires IsDigitGroups(t)
    ensures ParseInt(t) == Some(DigitsValue(t))
  {
    StripUnpadded(t);
  }

  /** A minus sign before a digit literal reads as its negated value. */
  lemma NegatedDigits(digits: Bytes)
    requires IsDigitGroups(digits)
    ensures ParseInt("-" + digits) == Some(0 - DigitsValue(digits))
  {
    var t := "-" + digits;
    assert t[0] == '-' && t[1..] == digits && t[|t| - 1] == digits[|digits| - 1];
    StripUnpadded(t);
    assert ParseLiteral(t) == Some(0 - DigitsValue(digits));
  }

  /** A run of plain digits is a digit literal. */
  lemma DigitsAreGroups(t: Bytes)
    requires |t| > 0 && forall i :: 0 <= i < |t| ==> IsDigit(t[i])
    ensures IsDigitGroups(t)
  {
  }

  lemma NatRoundTrip(n: nat)
    ensures ParseInt(NatDecimal(n)) == Some(n)
  {
    var t := NatDecimal(n);
    NatDecimalDigits(n);
    DigitsAreGroups(t);
    ParseUnsigned(t);
  }

  lemma NegativeRoundTrip(n: nat)
    ensures ParseInt("-" + NatDecimal(n)) == Some(0 - n)
  {
    var digits := NatDecimal(n);
    NatDecimalDigits(n);
    DigitsAreGroups(digits);
    NegatedDigits(digits);
  }

  /** `int(str(n)) == n`: the decimal text of any integer parses back to it. */
  lemma DecimalRoundTrip(n: int)
    ensures ParseInt(Decimal(n)) == Some(n)
  {
    if n < 0 {
      NegativeRoundTrip(-n);
    } else {
      NatRoundTrip(n);
    }
  }

  /**
   * `int()` ignores a trailing newline: a port sent as a line, such as
   * "5001\n", reads as the port.
   */
  lemma TrailingNewlineIgnored(n: int)
    ensures ParseInt(Decimal(n) + "\n") == Some(n)
  {
    var t := Decimal(n);
    DecimalAlphabet(n);
    StripNewline(t);
    StripUnpadded(t);
    SameStripSameInt(t + "\n", t);
    DecimalRoundTrip(n);
  }

  lemma StripNewline(t: Bytes)
    requires |t| > 0 && !IsSpace(t[0]) && !IsSpace(t[|t| - 1])
    ensures Strip(t + "\n") == Strip(t)
  {
    var u := t + "\n";
    assert u[0] == t[0] && StripLeading(u) == u;
    assert u[..|u| - 1] == t;
    assert StripTrailing(u) == StripTrailing(t);
  }

  /** `int()` sees only the stripped text. */
  lemma SameStripSameInt(a: Bytes, b: Bytes)
    requires Strip(a) == Strip(b)
    ensures ParseInt(a) == ParseInt(b)
  {
  }

  /** Distinct integers have distinct decimal texts. */
  lemma DecimalInjective(m: int, n: int)
    requires Decimal(m) == Decimal(n)
    ensures m == n
  {
    DecimalRoundTrip(m);
    DecimalRoundTrip(n);
  }

  // ---------------------------------------------------------------------
  // bytes.decode(): strict UTF-8
  // ---------------------------------------------------------------------

  predicate IsContinuation(c: byte)
  {
    0x80 <= c as int <= 0xBF
  }

  /**
   * Well-formed UTF-8 (the table of RFC 3629, section 4): exactly the byte
   * strings `decode()` accepts; any other raises `UnicodeDecodeError`.
   */
  predicate ValidUtf8(s: Bytes)
    decreases |s|
  {
    if s == [] then true
    else
      var b := s[0] as int;
      if b < 0x80 then ValidUtf8(s[1..])
      else if 0xC2 <= b <= 0xDF then
        |s| >= 2 && IsContinuation(s[1]) && ValidUtf8(s[2..])
      else if b == 0xE0 then
        |s| >= 3 && 0xA0 <= s[1] as int <= 0xBF && IsContinuation(s[2]) && ValidUtf8(s[3..])
      else if (0xE1 <= b <= 0xEC) || (0xEE <= b <= 0xEF) then
        |s| >= 3 && IsContinuation(s[1]) && IsContinuation(s[2]) && ValidUtf8(s[3..])
      else if b == 0xED then
        |s| >= 3 && 0x80 <= s[1] as int <= 0x9F && IsContinuation(s[2]) && ValidUtf8(s[3..])
      else if b == 0xF0 then
        |s| >= 4 && 0x90 <= s[1] as int <= 0xBF && IsContinuation(s[2]) && IsContinuation(s[3])
        && ValidUtf8(s[4..])
      else if 0xF1 <= b <= 0xF3 then
        |s| >= 4 && IsContinuation(s[1]) && IsContinuation(s[2]) && IsContinuation(s[3])
        && ValidUtf8(s[4..])
      else if b == 0xF4 then
        |s| >= 4 && 0x80 <= s[1] as int <= 0x8F && IsContinuation(s[2]) && IsContinuation(s[3])
        && ValidUtf8(s[4..])
      else false
  }

  predicate IsAscii(s: Bytes)
  {
    forall i :: 0 <= i < |s| ==> s[i] as int < 0x80
  }

  /** ASCII text always decodes. */
  lemma {:induction false} AsciiIsUtf8(s: Bytes)
    requires IsAscii(s)
    ensures ValidUtf8(s)
    decreases |s|
  {
    if s != [] {
      assert IsAscii(s[1..]) by {
        forall i | 0 <= i < |s[1..]| ensures s[1..][i] as int < 0x80 {
          assert s[1..][i] == s[i + 1];
        }
      }
      AsciiIsUtf8(s[1..]);
    }
  }
}
