/**
 The text operations the backend relies on: the two pieces of Python
 `str.split` it uses (the text before the first separator, `s.split(c)[0]`,
 and the full split on a one-character separator, with `join` as its
 inverse), and the lower-case hexadecimal text of a digest (`hexdigest()`),
 with its decoding.
 */
module Strings {

  /** `s.split(c)[0]`: the part of `s` before the first `c`, or all of `s` when `c` does not occur. */
  function BeforeFirst(s: string, c: char): (r: string)
    ensures c !in r
    ensures r <= s
    ensures c in s ==> |r| < |s| && s[|r|] == c
    ensures c !in s ==> r == s
  {
    if s == [] then []
    else if s[0] == c then []
    else [s[0]] + BeforeFirst(s[1..], c)
  }

  /** No piece contains the separator. */
  predicate SeparatorFree(parts: seq<string>, sep: char) {
    forall i :: 0 <= i < |parts| ==> sep !in parts[i]
  }

  /** `sep.join(parts)` */
  function Join(parts: seq<string>, sep: char): string {
    if parts == [] then []
    else if |parts| == 1 then parts[0]
    else parts[0] + [sep] + Join(parts[1..], sep)
  }

  /** `s.split(sep)`: the maximal separator-free pieces of `s`, empty pieces included. */
  function Split(s: string, sep: char): (parts: seq<string>)
    ensures |parts| >= 1
    ensures SeparatorFree(parts, sep)
    ensures Join(parts, sep) == s
    decreases |s|
  {
    if sep in s then
      var head := BeforeFirst(s, sep);
      var rest := s[|head| + 1..];
      assert s == head + [sep] + rest;
      [head] + Split(rest, sep)
    else
      [s]
  }

  /** Splitting a join of separator-free pieces gives the pieces back. */
  lemma {:induction false} SplitJoin(parts: seq<string>, sep: char)
    requires |parts| >= 1
    requires SeparatorFree(parts, sep)
    ensures Split(Join(parts, sep), sep) == parts
    decreases |parts|
  {
    if |parts| > 1 {
      var s := Join(parts, sep);
      var tail := Join(parts[1..], sep);
      assert s == parts[0] + [sep] + tail;
      assert sep in s by { assert s[|parts[0]|] == sep; }
      PrefixBeforeSeparator(parts[0], tail, sep);
      assert s[|parts[0]| + 1..] == tail;
      SplitJoin(parts[1..], sep);
    }
  }

  /** The text before the first separator of `head + [sep] + tail` is `head`, when `head` has no separator. */
  lemma {:induction false} PrefixBeforeSeparator(head: string, tail: string, sep: char)
    requires sep !in head
    ensures BeforeFirst(head + [sep] + tail, sep) == head
    decreases |head|
  {
    var s := head + [sep] + tail;
    if head != [] {
      assert s[0] == head[0];
      assert s[1..] == head[1..] + [sep] + tail;
      PrefixBeforeSeparator(head[1..], tail, sep);
    }
  }

  /** A byte, as Python's `bytes` holds them */
  type Byte = b: int | 0 <= b < 256

  /** The digits `hexdigest()` writes: 0-9 then a-f. */
  predicate IsHexDigit(c: char) {
    '0' <= c <= '9' || 'a' <= c <= 'f'
  }

  /** The lower-case hexadecimal digit of a value below 16. */
  function HexDigit(v: nat): (c: char)
    requires v < 16
    ensures IsHexDigit(c)
  {
    if v < 10 then ('0' as int + v) as char else ('a' as int + v - 10) as char
  }

  /** The value of one hexadecimal digit. */
  function DigitValue(c: char): (v: nat)
    requires IsHexDigit(c)
    ensures v < 16 && HexDigit(v) == c
  {
    if '0' <= c <= '9' then c as int - '0' as int else c as int - 'a' as int + 10
  }

  /** `hexdigest()`: each byte as two lower-case hexadecimal digits, high half first. */
  function Hex(bytes: seq<Byte>): (r: string)
    ensures |r| == 2 * |bytes|
    ensures forall i :: 0 <= i < |r| ==> IsHexDigit(r[i])
  {
    if bytes == [] then []
    else [HexDigit(bytes[0] / 16), HexDigit(bytes[0] % 16)] + Hex(bytes[1..])
  }

  /** Lower-case hexadecimal text of whole bytes. */
  predicate IsHex(s: string) {
    |s| % 2 == 0 && forall i :: 0 <= i < |s| ==> IsHexDigit(s[i])
  }

  /** `bytes.fromhex` on lower-case text: every two digits become one byte. */
  function Unhex(s: string): (bytes: seq<Byte>)
    requires IsHex(s)
    ensures |bytes| * 2 == |s|
  {
    if s == [] then []
    else [DigitValue(s[0]) * 16 + DigitValue(s[1])] + Unhex(s[2..])
  }

  /** Decoding the hexadecimal text of any bytes gives those bytes back. */
  lemma {:induction false} UnhexHex(bytes: seq<Byte>)
    ensures IsHex(Hex(bytes))
    ensures Unhex(Hex(bytes)) == bytes
  {
    if bytes != [] {
      UnhexHex(bytes[1..]);
      var b := bytes[0];
      var h := Hex(bytes);
      assert h[2..] == Hex(bytes[1..]);
      assert DigitValue(h[0]) == b / 16 && DigitValue(h[1]) == b % 16;
    }
  }

  /** Hexadecimal text is the text of the bytes it decodes to, so no other text names the same bytes. */
  lemma {:induction false} HexUnhex(s: string)
    requires IsHex(s)
    ensures Hex(Unhex(s)) == s
  {
    if s != [] {
      assert IsHex(s[2..]);
      HexUnhex(s[2..]);
      var hi, lo := DigitValue(s[0]), DigitValue(s[1]);
      assert (hi * 16 + lo) / 16 == hi && (hi * 16 + lo) % 16 == lo;
      assert Unhex(s)[1..] == Unhex(s[2..]);
      assert s == [s[0], s[1]] + s[2..];
    }
  }
}
