/**
 * The three QString operations the plugin relies on, restricted to what it
 * uses them for:
 *
 *  - `Split(s, sep)`: `QString::split` on a one-character separator, keeping
 *    empty parts (Qt's default);
 *  - `ToInt(s)`: `QString::toInt` in base 10: surrounding white space is
 *    ignored, an optional sign is followed by decimal digits, and anything
 *    else, or a value outside the 32-bit `int` range, gives 0;
 *  - `Decimal(n)`: `QString("%1").arg(n)` for an integer, its decimal text.
 *
 * Each comes with the partner that shows what it means: `Join` for `Split`,
 * and the round trip `ToInt(Decimal(n)) == n`.
 */
module QtText {

  const MinInt: int := -0x8000_0000
  const MaxInt: int := 0x7FFF_FFFF

  // ---------------------------------------------------------------------
  // Splitting on a separator

  /** Number of times `c` occurs in `s`. */
  function Occurrences(s: string, c: char): nat {
    multiset(s)[c]
  }

  /** `QString::split(sep)` with empty parts kept: the pieces of `s` between
      separators, one more than there are separators, none holding one. */
  function Split(s: string, sep: char): (parts: seq<string>)
    ensures |parts| == Occurrences(s, sep) + 1
    ensures forall i :: 0 <= i < |parts| ==> sep !in parts[i]
    decreases |s|
  {
    if s == [] then [""]
    else
      var rest := Split(s[1..], sep);
      assert multiset(s) == multiset{s[0]} + multiset(s[1..]) by {
        assert s == [s[0]] + s[1..];
      }
      if s[0] == sep then [""] + rest
      else [[s[0]] + rest[0]] + rest[1..]
  }

  /** The pieces glued back together with the separator between them. */
  function Join(parts: seq<string>, sep: char): string
    requires |parts| >= 1
    decreases |parts|
  {
    if |parts| == 1 then parts[0] else parts[0] + [sep] + Join(parts[1..], sep)
  }

  /** Splitting loses nothing: joining the pieces gives the text back. */
  lemma {:induction false} JoinSplit(s: string, sep: char)
    ensures Join(Split(s, sep), sep) == s
    decreases |s|
  {
    if s != [] {
      JoinSplit(s[1..], sep);
      if s[0] == sep {
        JoinAfterSeparator(s, sep);
      } else {
        JoinAfterCharacter(s, sep);
      }
    }
  }

  lemma JoinAfterSeparator(s: string, sep: char)
    requires s != [] && s[0] == sep
    requires Join(Split(s[1..], sep), sep) == s[1..]
    ensures Join(Split(s, sep), sep) == s
  {
    var rest := Split(s[1..], sep);
    var parts := [""] + rest;
    assert Split(s, sep) == parts;
    assert parts[1..] == rest;
    assert Join(parts, sep) == "" + [sep] + Join(rest, sep);
    assert [s[0]] + s[1..] == s;
  }

  lemma JoinAfterCharacter(s: string, sep: char)
    requires s != [] && s[0] != sep
    requires Join(Split(s[1..], sep), sep) == s[1..]
    ensures Join(Split(s, sep), sep) == s
  {
    var rest := Split(s[1..], sep);
    assert Split(s, sep) == [[s[0]] + rest[0]] + rest[1..];
    JoinExtendFirst(s[0], rest, sep);
    assert [s[0]] + s[1..] == s;
  }

  /** Putting a character in front of the first piece puts it in front of
      the join. */
  lemma JoinExtendFirst(c: char, parts: seq<string>, sep: char)
    requires |parts| >= 1
    ensures Join([[c] + parts[0]] + parts[1..], sep) == [c] + Join(parts, sep)
  {
    var longer := [[c] + parts[0]] + parts[1..];
    assert longer[1..] == parts[1..];
    if |parts| > 1 {
      var tail := Join(parts[1..], sep);
      assert ([c] + parts[0]) + [sep] + tail == [c] + (parts[0] + [sep] + tail);
    }
  }

  /** A text with no separator is one piece. */
  lemma {:induction false} SplitWithoutSeparator(w: string, sep: char)
    requires sep !in w
    ensures Split(w, sep) == [w]
    decreases |w|
  {
    if w != [] {
      SplitWithoutSeparator(w[1..], sep);
      assert [w[0]] + w[1..] == w;
    }
  }

  /** A separator-free prefix followed by a separator becomes the first piece. */
  lemma {:induction false} SplitAfterWord(w: string, sep: char, t: string)
    requires sep !in w
    ensures Split(w + [sep] + t, sep) == [w] + Split(t, sep)
    decreases |w|
  {
    var s := w + [sep] + t;
    if w != [] {
      assert s[1..] == w[1..] + [sep] + t;
      SplitAfterWord(w[1..], sep, t);
      assert [w[0]] + w[1..] == w;
    } else {
      assert s[1..] == t;
    }
  }

  /** Pieces without separators come back unchanged from a split of their
      join, so the i-th field of a space-separated record is what was put
      there. */
  lemma {:induction false} SplitJoin(parts: seq<string>, sep: char)
    requires |parts| >= 1
    requires forall i :: 0 <= i < |parts| ==> sep !in parts[i]
    ensures Split(Join(parts, sep), sep) == parts
    decreases |parts|
  {
    if |parts| == 1 {
      SplitWithoutSeparator(parts[0], sep);
    } else {
      SplitAfterWord(parts[0], sep, Join(parts[1..], sep));
      SplitJoin(parts[1..], sep);
      assert [parts[0]] + parts[1..] == parts;
    }
  }

  // ---------------------------------------------------------------------
  // Decimal numbers

  predicate IsSpace(c: char) {
    c == ' ' || '\t' <= c <= '\r'
  }

  predicate IsDigit(c: char) {
    '0' <= c <= '9'
  }

  function DigitValue(c: char): nat
    requires IsDigit(c)
  {
    (c as int) - ('0' as int)
  }

  function DigitChar(d: nat): (c: char)
    requires d < 10
    ensures IsDigit(c) && DigitValue(c) == d
  {
    (('0' as int) + d) as char
  }

  /** Where a left-to-right reading of a number stands: still in leading
      white space, just past a sign, inside the digits, in trailing white
      space, or past a character that makes the text not a number. */
  datatype Scan =
    | Leading
    | Signed(negative: bool)
    | InDigits(negative: bool, magnitude: nat)
    | Trailing(negative: bool, magnitude: nat)
    | Rejected

  function Step(st: Scan, c: char): Scan {
    match st
    case Leading =>
      if IsSpace(c) then Leading
      else if c == '-' then Signed(true)
      else if c == '+' then Signed(false)
      else if IsDigit(c) then InDigits(false, DigitValue(c))
      else Rejected
    case Signed(negative) =>
      if IsDigit(c) then InDigits(negative, DigitValue(c)) else Rejected
    case InDigits(negative, magnitude) =>
      if IsDigit(c) then InDigits(negative, magnitude * 10 + DigitValue(c))
      else if IsSpace(c) then Trailing(negative, magnitude)
      else Rejected
    case Trailing(negative, magnitude) =>
      if IsSpace(c) then Trailing(negative, magnitude) else Rejected
    case Rejected => Rejected
  }

  /** The reading after the characters of `s`, starting from `st`. */
  function Read(st: Scan, s: string): Scan
    decreases |s|
  {
    if s == [] then st else Read(Step(st, s[0]), s[1..])
  }

  /** Reading one more character is one more step. */
  lemma {:induction false} ReadSnoc(st: Scan, s: string, c: char)
    ensures Read(st, s + [c]) == Step(Read(st, s), c)
    decreases |s|
  {
    if s == [] {
      assert [c][1..] == [];
    } else {
      assert (s + [c])[1..] == s[1..] + [c];
      ReadSnoc(Step(st, s[0]), s[1..], c);
    }
  }

  /** Once the text is known not to be a number, nothing after changes that. */
  lemma {:induction false} RejectedStays(s: string)
    ensures Read(Rejected, s) == Rejected
    decreases |s|
  {
    if s != [] {
      RejectedStays(s[1..]);
    }
  }

  /** Text that starts with anything but white space, a sign or a digit is
      not a number, so `toInt` fails on it and yields 0. */
  lemma ToIntOfWord(s: string)
    requires s != [] && !IsSpace(s[0]) && !IsDigit(s[0]) && s[0] != '-' && s[0] != '+'
    ensures ToInt(s) == 0
  {
    assert Read(Leading, s) == Read(Rejected, s[1..]);
    RejectedStays(s[1..]);
  }

  /** `QString::toInt()` in base 10: 0 for text that is not a number or whose
      value does not fit a 32-bit `int`. */
  function ToInt(s: string): (n: int)
    ensures MinInt <= n <= MaxInt
  {
    match Read(Leading, s)
    case InDigits(negative, magnitude) => Signed32(negative, magnitude)
    case Trailing(negative, magnitude) => Signed32(negative, magnitude)
    case _ => 0
  }

  /** A sign and a magnitude as an `int`, or 0 out of range. */
  function Signed32(negative: bool, magnitude: nat): int {
    var v := if negative then -(magnitude as int) else magnitude as int;
    if MinInt <= v <= MaxInt then v else 0
  }

  /** The decimal digits of `n`, without leading zeros. */
  function NatDigits(n: nat): (s: string)
    ensures s != []
    decreases n
  {
    if n < 10 then [DigitChar(n)] else NatDigits(n / 10) + [DigitChar(n % 10)]
  }

  /** Read after a sign, or from the start, the digits give back `n`. */
  lemma {:induction false} ReadNatDigits(n: nat, negative: bool)
    ensures Read(Signed(negative), NatDigits(n)) == InDigits(negative, n)
    ensures Read(Leading, NatDigits(n)) == InDigits(false, n)
    decreases n
  {
    var s := NatDigits(n);
    if n < 10 {
      assert s[1..] == [];
    } else {
      ReadNatDigits(n / 10, negative);
      ReadSnoc(Signed(negative), NatDigits(n / 10), DigitChar(n % 10));
      ReadSnoc(Leading, NatDigits(n / 10), DigitChar(n % 10));
    }
  }

  /** `QString("%1").arg(n)`: a minus sign for a negative `n`, then the
      digits of its magnitude. */
  function Decimal(n: int): string {
    if n < 0 then "-" + NatDigits(-n) else NatDigits(n)
  }

  /** The text `"%1".arg(n)` puts on screen parses back to `n` whenever `n`
      is an `int`, and to 0 when it is not. */
  lemma ToIntDecimal(n: int)
    ensures ToInt(Decimal(n)) == if MinInt <= n <= MaxInt then n else 0
  {
    if n < 0 {
      var digits := NatDigits(-n);
      ReadNatDigits(-n, true);
      assert Decimal(n)[1..] == digits;
      assert Read(Leading, Decimal(n)) == Read(Signed(true), digits);
    } else {
      ReadNatDigits(n, false);
    }
  }
}
