/**
 * Byte strings as the scanner code handles them with Python `bytes`:
 * ASCII encoding of text, concatenation (`b"".join`), joining with a
 * separator (`b",".join`), splitting on a separator byte (`bytes.split`)
 * and the decimal rendering `str(n).encode()` of an integer.
 */
module Bytes {
  type byte = b: int | 0 <= b < 256

  const NL: byte := 10
  const ESC: byte := 27
  const COMMA: byte := 44
  const MINUS: byte := 45
  const ZERO: byte := 48
  const EQ: byte := 61

  predicate IsAscii(s: string) {
    forall i :: 0 <= i < |s| ==> s[i] as int < 128
  }

  /** Text made only of ASCII characters: `str.encode()` maps each to one byte. */
  type AsciiString = s: string | IsAscii(s) witness ""

  /**
   * `s.encode()` for ASCII text: byte k is the code of character k. Only
   * ASCII text is encoded here; for it the reduction modulo 256 is the
   * identity.
   */
  function Ascii(s: string): (r: seq<byte>)
    ensures |r| == |s|
    ensures forall i :: 0 <= i < |s| ==> r[i] == s[i] as int % 256
    ensures IsAscii(s) ==> forall i :: 0 <= i < |s| ==> r[i] == s[i] as int
  {
    seq(|s|, i requires 0 <= i < |s| => s[i] as int % 256)
  }

  /** Encoding loses nothing on ASCII text: two ASCII strings with the same bytes are equal. */
  lemma AsciiInjective(a: string, b: string)
    requires IsAscii(a) && IsAscii(b) && Ascii(a) == Ascii(b)
    ensures a == b
  {
    assert |a| == |b|;
    forall i | 0 <= i < |a|
      ensures a[i] == b[i]
    {
      assert Ascii(a)[i] == Ascii(b)[i];
    }
  }

  /** Encoding is character by character: the encoding of a concatenation is the concatenation of the encodings. */
  lemma AsciiAppend(a: string, b: string)
    ensures Ascii(a + b) == Ascii(a) + Ascii(b)
  {
  }

  /** `b"".join(parts)` */
  function Concat<T>(parts: seq<seq<T>>): seq<T> {
    if parts == [] then [] else parts[0] + Concat(parts[1..])
  }

  lemma {:induction false} ConcatAppend<T>(a: seq<seq<T>>, b: seq<seq<T>>)
    ensures Concat(a + b) == Concat(a) + Concat(b)
  {
    if a == [] {
      assert a + b == b;
    } else {
      assert (a + b)[1..] == a[1..] + b;
      ConcatAppend(a[1..], b);
    }
  }

  lemma ConcatOne<T>(x: seq<T>)
    ensures Concat([x]) == x
  {
    assert [x][1..] == [];
  }

  /** `bytes([sep]).join(parts)` */
  function Join(parts: seq<seq<byte>>, sep: byte): seq<byte> {
    if |parts| == 0 then []
    else if |parts| == 1 then parts[0]
    else parts[0] + [sep] + Join(parts[1..], sep)
  }

  /** Every part followed by `sep`: the shape of newline-terminated lines. */
  function Terminated(parts: seq<seq<byte>>, sep: byte): seq<byte> {
    if parts == [] then [] else parts[0] + [sep] + Terminated(parts[1..], sep)
  }

  lemma {:induction false} TerminatedAppend(a: seq<seq<byte>>, b: seq<seq<byte>>, sep: byte)
    ensures Terminated(a + b, sep) == Terminated(a, sep) + Terminated(b, sep)
  {
    if a == [] {
      assert a + b == b;
    } else {
      assert (a + b)[1..] == a[1..] + b;
      TerminatedAppend(a[1..], b, sep);
    }
  }

  predicate FreeOf(parts: seq<seq<byte>>, sep: byte) {
    forall k :: 0 <= k < |parts| ==> sep !in parts[k]
  }

  /**
   * `s.split(bytes([sep]))`: the pieces between occurrences of `sep`. There is
   * always at least one piece, no piece contains `sep`, and joining the pieces
   * with `sep` gives `s` back.
   */
  function Split(s: seq<byte>, sep: byte): (parts: seq<seq<byte>>)
    ensures |parts| >= 1
    ensures FreeOf(parts, sep)
    ensures Join(parts, sep) == s
  {
    if s == [] then [[]]
    else if s[0] == sep then
      var rest := Split(s[1..], sep);
      assert [s[0]] + s[1..] == s;
      [[]] + rest
    else
      var rest := Split(s[1..], sep);
      assert [s[0]] + s[1..] == s;
      [[s[0]] + rest[0]] + rest[1..]
  }

  /** Splitting at a first separator that follows a separator-free prefix. */
  lemma {:induction false} SplitAfter(x: seq<byte>, sep: byte, y: seq<byte>)
    requires sep !in x
    ensures Split(x + [sep] + y, sep) == [x] + Split(y, sep)
  {
    if x == [] {
      assert x + [sep] + y == [sep] + y;
      assert ([sep] + y)[1..] == y;
    } else {
      var s := x + [sep] + y;
      assert s[1..] == x[1..] + [sep] + y;
      SplitAfter(x[1..], sep, y);
      assert [x[0]] + x[1..] == x;
    }
  }

  /** A separator-free string is one piece. */
  lemma {:induction false} SplitFree(x: seq<byte>, sep: byte)
    requires sep !in x
    ensures Split(x, sep) == [x]
  {
    if x != [] {
      SplitFree(x[1..], sep);
      assert [x[0]] + x[1..] == x;
    }
  }

  /** Splitting undoes joining when no part contains the separator. */
  lemma {:induction false} SplitJoin(parts: seq<seq<byte>>, sep: byte)
    requires |parts| >= 1 && FreeOf(parts, sep)
    ensures Split(Join(parts, sep), sep) == parts
  {
    if |parts| == 1 {
      SplitFree(parts[0], sep);
    } else {
      SplitJoin(parts[1..], sep);
      SplitAfter(parts[0], sep, Join(parts[1..], sep));
      assert [parts[0]] + parts[1..] == parts;
    }
  }

  /** Terminated parts are the parts joined, followed by an empty last piece. */
  lemma {:induction false} TerminatedIsJoin(parts: seq<seq<byte>>, sep: byte)
    ensures Terminated(parts, sep) == Join(parts + [[]], sep)
  {
    if parts != [] {
      TerminatedIsJoin(parts[1..], sep);
      assert (parts + [[]])[1..] == parts[1..] + [[]];
    }
  }

  /** Splitting separator-terminated parts yields the parts and one empty piece. */
  lemma SplitTerminated(parts: seq<seq<byte>>, sep: byte)
    requires FreeOf(parts, sep)
    ensures Split(Terminated(parts, sep), sep) == parts + [[]]
  {
    TerminatedIsJoin(parts, sep);
    SplitJoin(parts + [[]], sep);
  }

  /** Joining `init + [last]` is terminating `init` and appending `last`. */
  lemma {:induction false} JoinLast(init: seq<seq<byte>>, last: seq<byte>, sep: byte)
    ensures Join(init + [last], sep) == Terminated(init, sep) + last
  {
    if init != [] {
      assert (init + [last])[1..] == init[1..] + [last];
      JoinLast(init[1..], last, sep);
    }
  }

  /**
   * The lines that `s.split(b"\n")` completes: every piece but the last, which
   * is the fragment after the final newline.
   */
  function CompleteLines(s: seq<byte>): seq<seq<byte>> {
    var parts := Split(s, NL);
    parts[..|parts| - 1]
  }

  /** The complete lines hold no newline and, each newline-terminated, are followed by a newline-free tail. */
  lemma CompleteLinesSplit(s: seq<byte>) returns (tail: seq<byte>)
    ensures FreeOf(CompleteLines(s), NL)
    ensures NL !in tail && s == Terminated(CompleteLines(s), NL) + tail
  {
    var parts := Split(s, NL);
    var lines := parts[..|parts| - 1];
    tail := parts[|parts| - 1];
    assert parts == lines + [tail];
    JoinLast(lines, tail, NL);
  }

  /** A separator-free tail after terminated lines adds no complete line. */
  lemma CompleteLinesOf(lines: seq<seq<byte>>, tail: seq<byte>)
    requires FreeOf(lines, NL) && NL !in tail
    ensures CompleteLines(Terminated(lines, NL) + tail) == lines
  {
    JoinLast(lines, tail, NL);
    assert FreeOf(lines + [tail], NL);
    SplitJoin(lines + [tail], NL);
  }

  /** `needle in haystack` for byte strings: the needle starts here or further on. */
  predicate Contains(haystack: seq<byte>, needle: seq<byte>)
    decreases |haystack|
  {
    |needle| <= |haystack| && (haystack[..|needle|] == needle || Contains(haystack[1..], needle))
  }

  /** `Contains` holds exactly when the needle occurs at some position. */
  lemma {:induction false} ContainsAt(haystack: seq<byte>, needle: seq<byte>)
    ensures Contains(haystack, needle) <==> exists i :: OccursAt(haystack, needle, i)
    decreases |haystack|
  {
    if haystack == [] || |haystack| < |needle| {
      if |needle| <= |haystack| {
        assert OccursAt(haystack, needle, 0);
      }
    } else {
      var rest := haystack[1..];
      ContainsAt(rest, needle);
      if Contains(haystack, needle) {
        if haystack[..|needle|] == needle {
          assert OccursAt(haystack, needle, 0);
        } else {
          var j :| OccursAt(rest, needle, j);
          assert haystack[j + 1..j + 1 + |needle|] == rest[j..j + |needle|];
          assert OccursAt(haystack, needle, j + 1);
        }
      }
      if i :| OccursAt(haystack, needle, i) {
        if i > 0 {
          assert rest[i - 1..i - 1 + |needle|] == haystack[i..i + |needle|];
          assert OccursAt(rest, needle, i - 1);
        }
      }
    }
  }

  predicate OccursAt(haystack: seq<byte>, needle: seq<byte>, i: int) {
    0 <= i <= |haystack| - |needle| && haystack[i..i + |needle|] == needle
  }

  /** Decimal digits of a natural number, most significant first. */
  function Digits(n: nat): (r: seq<byte>)
    ensures |r| >= 1
    ensures forall k :: 0 <= k < |r| ==> ZERO <= r[k] <= ZERO + 9
  {
    if n < 10 then [ZERO + n] else Digits(n / 10) + [ZERO + n % 10]
  }

  /** `str(n).encode()` for a Python int. */
  function Decimal(n: int): seq<byte> {
    if n < 0 then [MINUS] + Digits(-n) else Digits(n)
  }

  function DigitsValue(s: seq<byte>): int
    decreases |s|
  {
    if s == [] then 0 else DigitsValue(s[..|s| - 1]) * 10 + (s[|s| - 1] - ZERO)
  }

  /** `int(s)` for the strings `Decimal` produces. */
  function ParseDecimal(s: seq<byte>): int {
    if |s| > 0 && s[0] == MINUS then -DigitsValue(s[1..]) else DigitsValue(s)
  }

  lemma {:induction false} DigitsRoundTrip(n: nat)
    ensures DigitsValue(Digits(n)) == n
  {
    if n >= 10 {
      DigitsRoundTrip(n / 10);
      var d := Digits(n);
      assert d[..|d| - 1] == Digits(n / 10);
    }
  }

  /** Reading back the decimal rendering of an integer gives the integer. */
  lemma DecimalRoundTrip(n: int)
    ensures ParseDecimal(Decimal(n)) == n
  {
    if n < 0 {
      DigitsRoundTrip(-n);
      assert (([MINUS] + Digits(-n))[1..]) == Digits(-n);
    } else {
      DigitsRoundTrip(n);
    }
  }

  /** A decimal rendering holds no newline, comma or equals sign. */
  lemma DecimalPlain(n: int)
    ensures NL !in Decimal(n) && COMMA !in Decimal(n) && EQ !in Decimal(n)
  {
    var d := if n < 0 then Digits(-n) else Digits(n);
    assert forall k :: 0 <= k < |Decimal(n)| ==> Decimal(n)[k] == MINUS || ZERO <= Decimal(n)[k] <= ZERO + 9;
  }
}
