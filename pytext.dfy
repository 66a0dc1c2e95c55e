// The behaviour of the Python string built-ins the game code relies on:
// str.isspace, str.lower, str.strip, str.split(sep), str.split(), str.join,
// the `in` substring test, str.isdigit, str.title and int(str).
// Case mapping is modelled for ASCII letters only.
module PyText {
  import opened Wrappers

  /** The characters for which Python's str.isspace() holds. */
  predicate IsSpace(c: char)
  {
    c == ' ' || ('\t' <= c <= '\r') || ('\U{1C}' <= c <= '\U{1F}') || c == '\U{85}' || c == '\U{A0}'
    || c == '\U{1680}' || ('\U{2000}' <= c <= '\U{200A}') || c == '\U{2028}' || c == '\U{2029}'
    || c == '\U{202F}' || c == '\U{205F}' || c == '\U{3000}'
  }

  predicate NoSpace(s: string)
  {
    forall i :: 0 <= i < |s| ==> !IsSpace(s[i])
  }

  predicate AllSpace(s: string)
  {
    forall i :: 0 <= i < |s| ==> IsSpace(s[i])
  }

  predicate IsDigit(c: char)
  {
    '0' <= c <= '9'
  }

  predicate IsUpper(c: char)
  {
    'A' <= c <= 'Z'
  }

  predicate IsLower(c: char)
  {
    'a' <= c <= 'z'
  }

  predicate IsLetter(c: char)
  {
    IsUpper(c) || IsLower(c)
  }

  function LowerChar(c: char): char
  {
    if IsUpper(c) then (c as int + 32) as char else c
  }

  function UpperChar(c: char): char
  {
    if IsLower(c) then (c as int - 32) as char else c
  }

  /** str.lower() on ASCII letters. */
  function Lower(s: string): (r: string)
    ensures |r| == |s|
    ensures forall i :: 0 <= i < |s| ==> r[i] == LowerChar(s[i])
  {
    seq(|s|, i requires 0 <= i < |s| => LowerChar(s[i]))
  }

  /** Lower-casing twice is lower-casing once. */
  lemma LowerIdempotent(s: string)
    ensures Lower(Lower(s)) == Lower(s)
  {
  }

  /** str.isdigit() on ASCII. */
  predicate IsDigits(s: string)
  {
    |s| > 0 && forall i :: 0 <= i < |s| ==> IsDigit(s[i])
  }

  // ---------------------------------------------------------------- strip

  function StripLeft(s: string): (r: string)
    ensures |r| <= |s| && r == s[|s| - |r|..]
    ensures r == [] || !IsSpace(r[0])
    ensures AllSpace(s[..|s| - |r|])
    decreases |s|
  {
    if |s| > 0 && IsSpace(s[0]) then StripLeft(s[1..]) else s
  }

  function StripRight(s: string): (r: string)
    ensures |r| <= |s| && r == s[..|r|]
    ensures r == [] || !IsSpace(r[|r| - 1])
    ensures AllSpace(s[|r|..])
    decreases |s|
  {
    if |s| > 0 && IsSpace(s[|s| - 1]) then
      var r := StripRight(s[..|s| - 1]);
      assert s[|r|..] == s[..|s| - 1][|r|..] + [s[|s| - 1]];
      r
    else s
  }

  /** str.strip(): the text between the leading and the trailing whitespace. */
  function Strip(s: string): (r: string)
    ensures r == [] || (!IsSpace(r[0]) && !IsSpace(r[|r| - 1]))
  {
    StripRight(StripLeft(s))
  }

  /** Text without whitespace is its own strip. */
  lemma StripNoSpace(s: string)
    requires NoSpace(s)
    ensures Strip(s) == s
  {
  }

  /** The strip of a string is empty exactly when the string is all whitespace. */
  lemma {:induction false} StripEmptyIffAllSpace(s: string)
    ensures Strip(s) == [] <==> AllSpace(s)
  {
    var l := StripLeft(s);
    if l == [] {
      assert s[..|s|] == s;
    } else {
      assert !IsSpace(s[|s| - |l|]);
    }
  }

  // ---------------------------------------------------------------- join

  /** sep.join(parts) */
  function Join(parts: seq<string>, sep: string): string
  {
    if parts == [] then ""
    else if |parts| == 1 then parts[0]
    else parts[0] + sep + Join(parts[1..], sep)
  }

  // ---------------------------------------------------------------- split(sep)

  /** str.split(c) for a one-character separator. */
  function SplitOn(s: string, c: char): (parts: seq<string>)
    ensures |parts| >= 1
    ensures forall p | p in parts :: c !in p
    decreases |s|
  {
    if |s| == 0 then [""]
    else
      var rest := SplitOn(s[1..], c);
      if s[0] == c then [""] + rest
      else [[s[0]] + rest[0]] + rest[1..]
  }

  /** Joining the pieces with the separator gives back the string. */
  lemma {:induction false} JoinSplitOn(s: string, c: char)
    ensures Join(SplitOn(s, c), [c]) == s
    decreases |s|
  {
    if |s| > 0 {
      var rest := SplitOn(s[1..], c);
      JoinSplitOn(s[1..], c);
      if s[0] == c {
        assert SplitOn(s, c) == [""] + rest;
        assert s == [c] + s[1..];
      } else {
        var parts := SplitOn(s, c);
        assert parts == [[s[0]] + rest[0]] + rest[1..];
        if |rest| == 1 {
          assert s == [s[0]] + s[1..];
        } else {
          assert parts[1..] == rest[1..];
          assert Join(rest, [c]) == rest[0] + [c] + Join(rest[1..], [c]);
          assert s == [s[0]] + s[1..];
        }
      }
    }
  }

  /** Every character of every piece comes from the split string. */
  lemma {:induction false} SplitOnPieceChars(s: string, c: char, p: string, x: char)
    requires p in SplitOn(s, c) && x in p
    ensures x in s
    decreases |s|
  {
    if |s| > 0 {
      var rest := SplitOn(s[1..], c);
      if s[0] == c {
        assert p in rest;
        SplitOnPieceChars(s[1..], c, p, x);
      } else if p == [s[0]] + rest[0] {
        if x != s[0] {
          assert x in rest[0];
          SplitOnPieceChars(s[1..], c, rest[0], x);
        }
      } else {
        assert p in rest[1..];
        SplitOnPieceChars(s[1..], c, p, x);
      }
    }
  }

  /** A string holding the separator splits into at least two pieces. */
  lemma {:induction false} SplitOnWithSeparator(s: string, c: char)
    requires c in s
    ensures |SplitOn(s, c)| >= 2
    decreases |s|
  {
    if s[0] != c {
      SplitOnWithSeparator(s[1..], c);
    }
  }

  /** A string without the separator is one piece. */
  lemma {:induction false} SplitOnNoSeparator(s: string, c: char)
    requires c !in s
    ensures SplitOn(s, c) == [s]
    decreases |s|
  {
    if |s| > 0 {
      SplitOnNoSeparator(s[1..], c);
      assert [s[0]] + s[1..] == s;
    }
  }

  /** Splitting at a separator splits the pieces on each side independently. */
  lemma {:induction false} SplitOnConcat(a: string, b: string, c: char)
    ensures SplitOn(a + [c] + b, c) == SplitOn(a, c) + SplitOn(b, c)
    decreases |a|
  {
    var s := a + [c] + b;
    if |a| == 0 {
      assert s[1..] == b;
    } else {
      assert s[1..] == a[1..] + [c] + b;
      SplitOnConcat(a[1..], b, c);
    }
  }

  /** One separator between two separator-free pieces splits into exactly those pieces. */
  lemma SplitOnTwo(a: string, b: string, c: char)
    requires c !in a && c !in b
    ensures SplitOn(a + [c] + b, c) == [a, b]
  {
    SplitOnConcat(a, b, c);
    SplitOnNoSeparator(a, c);
    SplitOnNoSeparator(b, c);
  }

  /** Splitting a join of separator-free pieces gives the pieces back. */
  lemma {:induction false} SplitOnJoin(parts: seq<string>, c: char)
    requires parts != []
    requires forall p | p in parts :: c !in p
    ensures SplitOn(Join(parts, [c]), c) == parts
    decreases |parts|
  {
    if |parts| == 1 {
      SplitOnNoSeparator(parts[0], c);
    } else {
      SplitOnJoin(parts[1..], c);
      SplitOnConcat(parts[0], Join(parts[1..], [c]), c);
      SplitOnNoSeparator(parts[0], c);
      assert [parts[0]] + parts[1..] == parts;
    }
  }

  // ---------------------------------------------------------------- split()

  function WordsFrom(s: string, cur: string): (words: seq<string>)
    requires NoSpace(cur)
    ensures forall w | w in words :: |w| > 0 && NoSpace(w)
    decreases |s|
  {
    if s == [] then (if cur == [] then [] else [cur])
    else if IsSpace(s[0]) then (if cur == [] then [] else [cur]) + WordsFrom(s[1..], [])
    else WordsFrom(s[1..], cur + [s[0]])
  }

  /** str.split() with no argument: the maximal runs of non-whitespace characters. */
  function Words(s: string): (words: seq<string>)
    ensures forall w | w in words :: |w| > 0 && NoSpace(w)
  {
    WordsFrom(s, [])
  }

  lemma {:induction false} WordsFromEmptyIff(s: string, cur: string)
    requires NoSpace(cur)
    ensures WordsFrom(s, cur) == [] <==> cur == [] && AllSpace(s)
    decreases |s|
  {
    if s != [] {
      if IsSpace(s[0]) {
        WordsFromEmptyIff(s[1..], []);
      } else {
        WordsFromEmptyIff(s[1..], cur + [s[0]]);
      }
    }
  }

  /** str.split() returns no words exactly when the text is all whitespace. */
  lemma WordsEmptyIffAllSpace(s: string)
    ensures Words(s) == [] <==> AllSpace(s)
  {
    WordsFromEmptyIff(s, []);
  }

  /** Lower-casing does not move word boundaries, and the first word of the lower-cased text is the first word lower-cased. */
  lemma {:induction false} WordsFromLower(s: string, cur: string)
    requires NoSpace(cur)
    ensures |WordsFrom(Lower(s), Lower(cur))| == |WordsFrom(s, cur)|
    ensures WordsFrom(s, cur) != [] ==> WordsFrom(Lower(s), Lower(cur))[0] == Lower(WordsFrom(s, cur)[0])
    decreases |s|
  {
    if s != [] {
      assert Lower(s)[1..] == Lower(s[1..]);
      if IsSpace(s[0]) {
        assert Lower([]) == [];
        WordsFromLower(s[1..], []);
      } else {
        assert Lower(cur + [s[0]]) == Lower(cur) + [Lower(s)[0]];
        WordsFromLower(s[1..], cur + [s[0]]);
      }
    }
  }

  /** The words of the lower-cased text: as many, the first one lower-cased. */
  lemma WordsOfLower(s: string)
    ensures |Words(Lower(s))| == |Words(s)|
    ensures Words(s) != [] ==> Words(Lower(s))[0] == Lower(Words(s)[0])
  {
    assert Lower([]) == [];
    WordsFromLower(s, []);
  }

  // ---------------------------------------------------------------- `in`

  /** Python's `needle in hay` for strings. */
  predicate Contains(hay: string, needle: string)
    decreases |hay|
  {
    (|needle| <= |hay| && hay[..|needle|] == needle) || (|hay| > 0 && Contains(hay[1..], needle))
  }

  predicate OccursAt(hay: string, needle: string, i: int)
  {
    0 <= i && i + |needle| <= |hay| && hay[i..i + |needle|] == needle
  }

  /** `needle in hay` holds exactly when needle occurs at some position of hay. */
  lemma {:induction false} ContainsIffOccurs(hay: string, needle: string)
    ensures Contains(hay, needle) <==> exists i :: OccursAt(hay, needle, i)
    decreases |hay|
  {
    if |hay| > 0 {
      ContainsIffOccurs(hay[1..], needle);
      if exists i :: OccursAt(hay, needle, i) {
        var i :| OccursAt(hay, needle, i);
        if i > 0 {
          assert OccursAt(hay[1..], needle, i - 1) by {
            assert hay[1..][i - 1..i - 1 + |needle|] == hay[i..i + |needle|];
          }
        } else {
          assert hay[..|needle|] == hay[0..|needle|];
        }
      }
      if Contains(hay[1..], needle) {
        var j :| OccursAt(hay[1..], needle, j);
        assert hay[1..][j..j + |needle|] == hay[j + 1..j + 1 + |needle|];
        assert OccursAt(hay, needle, j + 1);
      }
      if |needle| <= |hay| && hay[..|needle|] == needle {
        assert OccursAt(hay, needle, 0);
      }
    } else {
      if |needle| == 0 {
        assert OccursAt(hay, needle, 0);
      }
    }
  }

  // ---------------------------------------------------------------- int()

  /** No two underscores in a row. */
  predicate NoDoubleUnderscore(s: string)
    decreases |s|
  {
    |s| < 2 || (!(s[0] == '_' && s[1] == '_') && NoDoubleUnderscore(s[1..]))
  }

  /** Digits with single underscores between them, as int() accepts. */
  predicate WellFormedDigits(s: string)
  {
    |s| > 0 && IsDigit(s[0]) && IsDigit(s[|s| - 1])
    && (forall i :: 0 <= i < |s| ==> IsDigit(s[i]) || s[i] == '_')
    && NoDoubleUnderscore(s)
  }

  lemma {:induction false} DigitsAreWellFormed(s: string)
    requires IsDigits(s)
    ensures WellFormedDigits(s)
    decreases |s|
  {
    if |s| >= 2 {
      DigitsAreWellFormed(s[1..]);
    }
  }

  /** The value of a digit string, underscores ignored. */
  function DigitsValue(s: string): nat
    decreases |s|
  {
    if s == [] then 0
    else if IsDigit(s[|s| - 1]) then DigitsValue(s[..|s| - 1]) * 10 + (s[|s| - 1] as int - '0' as int)
    else DigitsValue(s[..|s| - 1])
  }

  /** Python's int(s) for a str argument in base 10: None where int() raises ValueError. */
  function ParseInt(s: string): Option<int>
  {
    var t := Strip(s);
    if |t| > 0 && t[0] == '-' then
      (if WellFormedDigits(t[1..]) then Some(-(DigitsValue(t[1..]) as int)) else None)
    else if |t| > 0 && t[0] == '+' then
      (if WellFormedDigits(t[1..]) then Some(DigitsValue(t[1..]) as int) else None)
    else if WellFormedDigits(t) then Some(DigitsValue(t) as int)
    else None
  }

  function DigitChar(d: nat): (c: char)
    requires d < 10
    ensures IsDigit(c) && c as int - '0' as int == d
  {
    ('0' as int + d) as char
  }

  /** str(n) for a non-negative integer. */
  function NatToString(n: nat): (s: string)
    ensures |s| > 0 && forall i :: 0 <= i < |s| ==> IsDigit(s[i])
    decreases n
  {
    if n < 10 then [DigitChar(n)] else NatToString(n / 10) + [DigitChar(n % 10)]
  }

  /** str(i) for any integer. */
  function IntToString(i: int): string
  {
    if i < 0 then "-" + NatToString(-i) else NatToString(i)
  }

  lemma {:induction false} DigitsValueOfNatToString(n: nat)
    ensures DigitsValue(NatToString(n)) == n
    decreases n
  {
    var s := NatToString(n);
    if n >= 10 {
      DigitsValueOfNatToString(n / 10);
      assert s[..|s| - 1] == NatToString(n / 10);
    }
  }

  /** A digit string needs no stripping and no sign, so int() reads its value. */
  lemma ParseIntOfDigits(s: string)
    requires IsDigits(s)
    ensures ParseInt(s) == Some(DigitsValue(s) as int)
  {
    assert NoSpace(s);
    StripNoSpace(s);
    DigitsAreWellFormed(s);
  }

  /** int(str(n)) == n for n >= 0. */
  lemma ParseIntOfNatToString(n: nat)
    ensures ParseInt(NatToString(n)) == Some(n)
  {
    ParseIntOfDigits(NatToString(n));
    DigitsValueOfNatToString(n);
  }

  /** A minus sign followed by a digit string reads as the negated value. */
  lemma ParseIntOfMinus(s: string)
    requires NoSpace(s) && |s| > 1 && s[0] == '-' && IsDigits(s[1..])
    ensures ParseInt(s) == Some(-(DigitsValue(s[1..]) as int))
  {
    StripNoSpace(s);
    DigitsAreWellFormed(s[1..]);
  }

  lemma MinusDigitsShape(d: string)
    requires IsDigits(d)
    ensures var s := "-" + d; NoSpace(s) && |s| > 1 && s[0] == '-' && s[1..] == d
  {
    var s := "-" + d;
    forall k | 0 <= k < |s|
      ensures !IsSpace(s[k])
    {
      if k > 0 { assert s[k] == d[k - 1]; }
    }
  }

  lemma ParseIntOfNegatedDigits(d: string)
    requires IsDigits(d)
    ensures ParseInt("-" + d) == Some(-(DigitsValue(d) as int))
  {
    MinusDigitsShape(d);
    ParseIntOfMinus("-" + d);
  }

  /** int(str(i)) == i. */
  lemma ParseIntOfIntToString(i: int)
    ensures ParseInt(IntToString(i)) == Some(i)
  {
    if i >= 0 {
      ParseIntOfNatToString(i);
    } else {
      ParseIntOfNegatedDigits(NatToString(-i));
      DigitsValueOfNatToString(-i);
    }
  }

  // ---------------------------------------------------------------- title()

  function TitleFrom(s: string, afterLetter: bool): (r: string)
    ensures |r| == |s|
    ensures forall i :: 0 <= i < |s| ==> (IsLetter(r[i]) <==> IsLetter(s[i]))
    ensures forall i :: 0 <= i < |s| && !IsLetter(s[i]) ==> r[i] == s[i]
    decreases |s|
  {
    if s == [] then []
    else
      var c := s[0];
      [if !IsLetter(c) then c else if afterLetter then LowerChar(c) else UpperChar(c)]
      + TitleFrom(s[1..], IsLetter(c))
  }

  /** str.title(): each run of letters starts upper-case and continues lower-case. */
  function Title(s: string): (r: string)
    ensures |r| == |s|
    ensures forall i :: 0 <= i < |s| && !IsLetter(s[i]) ==> r[i] == s[i]
  {
    TitleFrom(s, false)
  }

  /** Title-casing changes letters only, so it never introduces whitespace. */
  lemma TitleKeepsNoSpace(s: string)
    requires NoSpace(s)
    ensures NoSpace(Title(s))
  {
    var r := Title(s);
    forall i | 0 <= i < |r|
      ensures !IsSpace(r[i])
    {
      assert IsLetter(r[i]) <==> IsLetter(s[i]);
    }
  }
}
