/** The few JavaScript string operations the views rely on: decimal rendering
    of a whole number, `Number.prototype.toFixed(2)` on a value held in
    hundredths, and `String.prototype.split` / `Array.prototype.join` with a
    one-character separator. */
module Text {
  import opened Wrappers

  predicate IsDigit(c: char) {
    '0' <= c <= '9'
  }

  predicate AllDigits(s: string) {
    forall i :: 0 <= i < |s| ==> IsDigit(s[i])
  }

  function DigitValue(c: char): (d: nat)
    requires IsDigit(c)
    ensures d < 10
  {
    (c as int) - ('0' as int)
  }

  function DigitChar(d: nat): (c: char)
    requires d < 10
    ensures IsDigit(c) && DigitValue(c) == d
  {
    (('0' as int) + d) as char
  }

  /** Decimal rendering of a whole number, as JavaScript prints it. */
  function NatToString(n: nat): (s: string)
    ensures 1 <= |s| && AllDigits(s)
    ensures s[0] == '0' ==> n == 0
    decreases n
  {
    if n < 10 then [DigitChar(n)] else NatToString(n / 10) + [DigitChar(n % 10)]
  }

  /** The number a string of decimal digits denotes (the empty string denotes 0). */
  function DigitsValue(s: string): nat
    requires AllDigits(s)
    decreases |s|
  {
    if s == [] then 0 else DigitsValue(s[..|s| - 1]) * 10 + DigitValue(s[|s| - 1])
  }

  /** Reading back a rendered number gives the number. */
  lemma {:induction false} NatToStringRoundTrip(n: nat)
    ensures DigitsValue(NatToString(n)) == n
    decreases n
  {
    if n >= 10 {
      NatToStringRoundTrip(n / 10);
      var s := NatToString(n);
      assert s[..|s| - 1] == NatToString(n / 10);
    }
  }

  /** `(h / 100).toFixed(2)` for an amount `h` held in hundredths. */
  function Fixed2(h: nat): (s: string)
    ensures 4 <= |s| && s[|s| - 3] == '.'
    ensures AllDigits(s[..|s| - 3]) && AllDigits(s[|s| - 2..])
  {
    NatToString(h / 100) + "." + [DigitChar(h / 10 % 10), DigitChar(h % 10)]
  }

  /** Reads a "whole.ff" text back into hundredths; None for any other shape. */
  function ParseFixed2(s: string): (r: Option<nat>)
    ensures r.Some? ==> 4 <= |s| && s[|s| - 3] == '.'
  {
    if |s| < 4 || s[|s| - 3] != '.' then None
    else
      var whole := s[..|s| - 3];
      var frac := s[|s| - 2..];
      if AllDigits(whole) && AllDigits(frac) then Some(DigitsValue(whole) * 100 + DigitsValue(frac))
      else None
  }

  /** The two-decimal text of a score determines the score. */
  lemma Fixed2RoundTrip(h: nat)
    ensures ParseFixed2(Fixed2(h)) == Some(h)
  {
    var s := Fixed2(h);
    var whole := NatToString(h / 100);
    assert s[..|s| - 3] == whole;
    NatToStringRoundTrip(h / 100);
    var frac := s[|s| - 2..];
    assert frac == [DigitChar(h / 10 % 10), DigitChar(h % 10)];
    assert frac[..1] == [DigitChar(h / 10 % 10)];
    assert frac[..1][..0] == [];
    assert DigitsValue(frac[..1]) == h / 10 % 10;
    assert frac[|frac| - 1] == DigitChar(h % 10);
    assert DigitsValue(frac) == (h / 10 % 10) * 10 + h % 10;
  }

  /** A whole number of points prints with ".00". */
  lemma Fixed2OfWhole(n: nat)
    ensures Fixed2(n * 100) == NatToString(n) + ".00"
  {
    var h := n * 100;
    assert h / 100 == n && h / 10 == n * 10 && h % 10 == 0;
    assert h / 10 % 10 == 0;
    assert [DigitChar(0), DigitChar(0)] == "00";
  }

  /** `s.split(sep)` for a one-character separator: the pieces between
      separators, always at least one (the empty string splits into [""]). */
  function Split(s: string, sep: char): (parts: seq<string>)
    ensures 1 <= |parts|
    ensures forall i :: 0 <= i < |parts| ==> sep !in parts[i]
    decreases |s|
  {
    if |s| == 0 then [""]
    else
      var rest := Split(s[1..], sep);
      if s[0] == sep then [""] + rest else [[s[0]] + rest[0]] + rest[1..]
  }

  /** A character absent from the string is absent from every piece of its split. */
  lemma {:induction false} SplitPiecesAvoid(s: string, sep: char, c: char)
    requires c !in s
    ensures forall i :: 0 <= i < |Split(s, sep)| ==> c !in Split(s, sep)[i]
    decreases |s|
  {
    if |s| > 0 {
      assert c !in s[1..];
      SplitPiecesAvoid(s[1..], sep, c);
    }
  }

  /** A string splits into a single piece exactly when it lacks the separator. */
  lemma {:induction false} SplitSingle(s: string, sep: char)
    ensures |Split(s, sep)| == 1 <==> sep !in s
    decreases |s|
  {
    if |s| > 0 {
      SplitSingle(s[1..], sep);
      assert s == [s[0]] + s[1..];
    }
  }

  /** `parts.join(sep)`. */
  function Join(parts: seq<string>, sep: char): string
    decreases |parts|
  {
    if |parts| == 0 then ""
    else if |parts| == 1 then parts[0]
    else parts[0] + [sep] + Join(parts[1..], sep)
  }

  /** A join opens with its first piece, the separator and its second piece,
      which runs to the end of the join or to the next separator. */
  lemma JoinOpensWithFirstTwo(parts: seq<string>, sep: char)
    ensures 2 <= |parts| ==>
      && |parts[0]| + 1 + |parts[1]| <= |Join(parts, sep)|
      && Join(parts, sep)[..|parts[0]| + 1 + |parts[1]|] == parts[0] + [sep] + parts[1]
    ensures 2 == |parts| ==> |parts[0]| + 1 + |parts[1]| == |Join(parts, sep)|
    ensures 2 < |parts| ==>
      && |parts[0]| + 1 + |parts[1]| < |Join(parts, sep)|
      && Join(parts, sep)[|parts[0]| + 1 + |parts[1]|] == sep
  {
    if 2 <= |parts| {
      var tail := Join(parts[1..], sep);
      if |parts| == 2 {
        assert tail == parts[1];
      } else {
        assert tail == parts[1] + [sep] + Join(parts[2..], sep) by {
          assert parts[1..][1..] == parts[2..];
        }
      }
      assert tail[..|parts[1]|] == parts[1];
      assert Join(parts, sep) == parts[0] + [sep] + tail;
    }
  }

  /** A character other than the separator that no piece holds is absent from the join. */
  lemma {:induction false} JoinAvoids(parts: seq<string>, sep: char, c: char)
    requires c != sep
    requires forall i :: 0 <= i < |parts| ==> c !in parts[i]
    ensures c !in Join(parts, sep)
    decreases |parts|
  {
    if 1 < |parts| {
      JoinAvoids(parts[1..], sep, c);
    }
  }

  /** Joining the pieces of a split restores the original string. */
  lemma {:induction false} JoinSplit(s: string, sep: char)
    ensures Join(Split(s, sep), sep) == s
    decreases |s|
  {
    if |s| > 0 {
      JoinSplit(s[1..], sep);
      var rest := Split(s[1..], sep);
      if s[0] != sep {
        var parts := [[s[0]] + rest[0]] + rest[1..];
        if |rest| == 1 {
          assert s == [s[0]] + s[1..];
        } else {
          assert parts[1..] == rest[1..];
          assert Join(rest, sep) == rest[0] + [sep] + Join(rest[1..], sep);
          assert s == [s[0]] + s[1..];
        }
      } else {
        assert s == [sep] + s[1..];
      }
    }
  }

  /** A string without the separator splits into itself alone. */
  lemma {:induction false} SplitWithoutSeparator(x: string, sep: char)
    requires sep !in x
    ensures Split(x, sep) == [x]
    decreases |x|
  {
    if |x| > 0 {
      assert x[0] != sep;
      SplitWithoutSeparator(x[1..], sep);
      assert [x[0]] + x[1..] == x;
    }
  }

  /** A separator-free head followed by the separator is cut off as the first piece. */
  lemma {:induction false} SplitAtFirstSeparator(x: string, sep: char, y: string)
    requires sep !in x
    ensures Split(x + [sep] + y, sep) == [x] + Split(y, sep)
    decreases |x|
  {
    var s := x + [sep] + y;
    if |x| == 0 {
      assert s[1..] == y;
    } else {
      assert s[1..] == x[1..] + [sep] + y;
      SplitAtFirstSeparator(x[1..], sep, y);
      assert [x[0]] + x[1..] == x;
    }
  }

  /** Splitting a join of separator-free pieces gives the pieces back. */
  lemma {:induction false} SplitJoin(parts: seq<string>, sep: char)
    requires 1 <= |parts|
    requires forall i :: 0 <= i < |parts| ==> sep !in parts[i]
    ensures Split(Join(parts, sep), sep) == parts
    decreases |parts|
  {
    if |parts| == 1 {
      SplitWithoutSeparator(parts[0], sep);
    } else {
      SplitJoin(parts[1..], sep);
      SplitAtFirstSeparator(parts[0], sep, Join(parts[1..], sep));
      assert [parts[0]] + parts[1..] == parts;
    }
  }

  /** `Array.prototype.reverse` on a sequence. */
  function Reverse<T>(s: seq<T>): (r: seq<T>)
    ensures |r| == |s|
    ensures forall i :: 0 <= i < |s| ==> r[i] == s[|s| - 1 - i]
    decreases |s|
  {
    if |s| == 0 then [] else Reverse(s[1..]) + [s[0]]
  }

  /** Reversing twice restores the order. */
  lemma ReverseReverse<T>(s: seq<T>)
    ensures Reverse(Reverse(s)) == s
  {
  }
}
