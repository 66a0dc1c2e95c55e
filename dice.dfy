// Parsing of damage-dice strings ("XdY", "dY", "Y" and, in characters.py,
// "XdY+M" / "XdY-M"). Every failure is the ValueError the attack re-raises.
module Dice {
  import opened Wrappers
  import opened PyText

  datatype DiceError =
    | InvalidFormat   // not XdY, dY or a bare digit string
    | MissingSides    // "XdY" with nothing after the 'd'
    | NotAnInteger    // a component int() rejects
    | NonPositive     // a count or a number of sides <= 0

  /** count dice with sides faces each. */
  datatype DiceSpec = DiceSpec(count: int, sides: int)

  /** count dice with sides faces each, then modifier added. */
  datatype ModifiedDice = ModifiedDice(count: int, sides: int, modifier: int)

  function CheckPositive(count: int, sides: int): (r: Result<DiceSpec, DiceError>)
    ensures r.Ok? <==> count > 0 && sides > 0
    ensures r.Ok? ==> r.value == DiceSpec(count, sides)
  {
    if count <= 0 || sides <= 0 then Err(NonPositive) else Ok(DiceSpec(count, sides))
  }

  /**
   * The damage-dice parse of Character.attack in game_state.py. The text is
   * lower-cased and split on 'd'; two pieces are a count (empty meaning 1) and
   * the sides, one all-digit piece is "1dY", anything else is malformed.
   * Player.cast_spell parses its dice expressions with the same outcomes.
   */
  function ParseDice(dice: string): (r: Result<DiceSpec, DiceError>)
    ensures r.Ok? ==> r.value.count > 0 && r.value.sides > 0
  {
    var parts := SplitOn(Lower(dice), 'd');
    if |parts| == 2 then
      if parts[1] == "" then Err(MissingSides)
      else
        var count := if parts[0] == "" then Some(1) else ParseInt(parts[0]);
        var sides := ParseInt(parts[1]);
        if count.None? || sides.None? then Err(NotAnInteger)
        else CheckPositive(count.value, sides.value)
    else if |parts| == 1 && IsDigits(parts[0]) then
      match ParseInt(parts[0])
      case Some(sides) => CheckPositive(1, sides)
      case None => Err(NotAnInteger)
    else Err(InvalidFormat)
  }

  /** "XdY" written out for positive X and Y. */
  function Format(count: nat, sides: nat): string
  {
    NatToString(count) + "d" + NatToString(sides)
  }

  /** Text made of digits, '+' and '-' is unchanged by lower-casing and holds no 'd'. */
  predicate PlainDiceText(s: string)
  {
    forall i :: 0 <= i < |s| ==> IsDigit(s[i]) || s[i] == '+' || s[i] == '-'
  }

  lemma SplitPlainDice(a: string, tail: string)
    requires PlainDiceText(a) && PlainDiceText(tail)
    ensures Lower(a + "d" + tail) == a + "d" + tail
    ensures SplitOn(a + "d" + tail, 'd') == [a, tail]
  {
    var s := a + "d" + tail;
    forall i | 0 <= i < |s|
      ensures LowerChar(s[i]) == s[i]
    {
      if i < |a| { assert s[i] == a[i]; }
      else if i > |a| { assert s[i] == tail[i - |a| - 1]; }
    }
    assert 'd' !in a by {
      forall i | 0 <= i < |a|
        ensures a[i] != 'd'
      {
      }
    }
    assert 'd' !in tail by {
      forall i | 0 <= i < |tail|
        ensures tail[i] != 'd'
      {
      }
    }
    assert s == a + ['d'] + tail;
    SplitOnTwo(a, tail, 'd');
  }

  lemma DigitsArePlain(s: string)
    requires forall i :: 0 <= i < |s| ==> IsDigit(s[i])
    ensures PlainDiceText(s)
  {
  }

  /** Every well-formed "XdY" with X, Y > 0 parses back to (X, Y). */
  lemma ParseDiceOfFormat(count: nat, sides: nat)
    requires count > 0 && sides > 0
    ensures ParseDice(Format(count, sides)) == Ok(DiceSpec(count, sides))
  {
    var a, b := NatToString(count), NatToString(sides);
    DigitsArePlain(a);
    DigitsArePlain(b);
    SplitPlainDice(a, b);
    ParseIntOfNatToString(count);
    ParseIntOfNatToString(sides);
  }

  /** Single-digit dice such as "1d6" are read as written. */
  lemma ParseDiceSingleDigits(count: nat, sides: nat)
    requires 0 < count < 10 && 0 < sides < 10
    ensures ParseDice([DigitChar(count), 'd', DigitChar(sides)]) == Ok(DiceSpec(count, sides))
  {
    ParseDiceOfFormat(count, sides);
    assert Format(count, sides) == [DigitChar(count), 'd', DigitChar(sides)];
  }

  /** The dice the item database and the spellbook use. */
  lemma StandardDice()
    ensures ParseDice("1d4") == Ok(DiceSpec(1, 4))
    ensures ParseDice("1d6") == Ok(DiceSpec(1, 6))
    ensures ParseDice("1d8") == Ok(DiceSpec(1, 8))
  {
    ParseDiceSingleDigits(1, 4);
    ParseDiceSingleDigits(1, 6);
    ParseDiceSingleDigits(1, 8);
    assert [DigitChar(1), 'd', DigitChar(4)] == "1d4";
    assert [DigitChar(1), 'd', DigitChar(6)] == "1d6";
    assert [DigitChar(1), 'd', DigitChar(8)] == "1d8";
  }

  /** A bare positive number Y is read as 1dY; a bare 0 is rejected as non-positive. */
  lemma ParseDiceOfBareNumber(sides: nat)
    ensures ParseDice(NatToString(sides)) == CheckPositive(1, sides)
  {
    var s := NatToString(sides);
    assert Lower(s) == s;
    assert 'd' !in s;
    SplitOnNoSeparator(s, 'd');
    ParseIntOfNatToString(sides);
  }

  /** "dY" defaults the count to one. */
  lemma ParseDiceOfMissingCount(sides: nat)
    requires sides > 0
    ensures ParseDice("d" + NatToString(sides)) == Ok(DiceSpec(1, sides))
  {
    var b := NatToString(sides);
    DigitsArePlain(b);
    SplitPlainDice("", b);
    assert "" + "d" + b == "d" + b;
    ParseIntOfNatToString(sides);
  }

  /** "Xd" (and "d") lacks the number of sides. */
  lemma ParseDiceMissingSides(count: nat)
    ensures ParseDice(NatToString(count) + "d") == Err(MissingSides)
    ensures ParseDice("d") == Err(MissingSides)
  {
    var a := NatToString(count);
    DigitsArePlain(a);
    SplitPlainDice(a, "");
    assert a + "d" + "" == a + "d";
    SplitPlainDice("", "");
    assert "" + "d" + "" == "d";
  }

  /** The parse ignores letter case: "2D6" reads as "2d6". */
  lemma ParseDiceIgnoresCase(dice: string)
    ensures ParseDice(dice) == ParseDice(Lower(dice))
  {
    LowerIdempotent(dice);
  }

  // ---------------------------------------------------------------- characters.py

  function CheckPositiveModified(count: int, sides: int, modifier: int): (r: Result<ModifiedDice, DiceError>)
    ensures r.Ok? <==> count > 0 && sides > 0
    ensures r.Ok? ==> r.value == ModifiedDice(count, sides, modifier)
  {
    if count <= 0 || sides <= 0 then Err(NonPositive) else Ok(ModifiedDice(count, sides, modifier))
  }

  /** "Y+M" or "Y-M": only the first two pieces around the sign are read. */
  function SignedSides(count: int, sidesText: string, sign: char): Result<ModifiedDice, DiceError>
    requires sign in sidesText
  {
    SplitOnWithSeparator(sidesText, sign);
    var pieces := SplitOn(sidesText, sign);
    var sides, modifier := ParseInt(pieces[0]), ParseInt(pieces[1]);
    if sides.None? || modifier.None? then Err(NotAnInteger)
    else CheckPositiveModified(count, sides.value, if sign == '-' then -modifier.value else modifier.value)
  }

  /** The sides part "Y", "Y+M" or "Y-M"; a '+' is looked for before a '-'. */
  function SidesAndModifier(count: int, sidesText: string): Result<ModifiedDice, DiceError>
  {
    if '+' in sidesText then SignedSides(count, sidesText, '+')
    else if '-' in sidesText then SignedSides(count, sidesText, '-')
    else
      match ParseInt(sidesText)
      case None => Err(NotAnInteger)
      case Some(sides) => CheckPositiveModified(count, sides, 0)
  }

  /**
   * The damage-dice parse of Character.attack in characters.py: like ParseDice,
   * but the sides may carry a "+M" or "-M" modifier, and "Xd" fails in int().
   */
  function ParseModifiedDice(dice: string): (r: Result<ModifiedDice, DiceError>)
    ensures r.Ok? ==> r.value.count > 0 && r.value.sides > 0
  {
    var parts := SplitOn(Lower(dice), 'd');
    if |parts| == 2 then
      var count := if parts[0] == "" then Some(1) else ParseInt(parts[0]);
      if count.None? then Err(NotAnInteger) else SidesAndModifier(count.value, parts[1])
    else if |parts| == 1 && IsDigits(parts[0]) then SidesAndModifier(1, parts[0])
    else Err(InvalidFormat)
  }

  /** "Y<sign>M" with sign-free pieces that int() reads as y and m. */
  lemma SignedSidesOfPieces(count: int, b: string, m: string, sign: char, y: int, mod: int)
    requires sign == '+' || sign == '-'
    requires sign !in b && sign !in m
    requires ParseInt(b) == Some(y) && ParseInt(m) == Some(mod)
    ensures SignedSides(count, b + [sign] + m, sign) == CheckPositiveModified(count, y, if sign == '-' then -mod else mod)
  {
    SplitOnTwo(b, m, sign);
    assert (b + [sign] + m)[|b|] == sign;
  }

  /** "Y+M" and "Y-M" with sign-free pieces. */
  lemma SidesAndModifierOfPieces(count: int, b: string, m: string, sign: char, y: int, mod: int)
    requires sign == '+' || sign == '-'
    requires '+' !in b && '+' !in m && '-' !in b && '-' !in m
    requires ParseInt(b) == Some(y) && ParseInt(m) == Some(mod)
    ensures SidesAndModifier(count, b + [sign] + m) == CheckPositiveModified(count, y, if sign == '-' then -mod else mod)
  {
    var tail := b + [sign] + m;
    assert tail[|b|] == sign;
    if sign == '-' {
      assert '+' !in tail by {
        forall i | 0 <= i < |tail|
          ensures tail[i] != '+'
        {
          if i < |b| { assert tail[i] == b[i]; }
          else if i > |b| { assert tail[i] == m[i - |b| - 1]; }
        }
      }
    }
    SignedSidesOfPieces(count, b, m, sign, y, mod);
  }

  /** The characters.py parse of "X" 'd' "Y<sign>M" for digit pieces. */
  lemma ParseModifiedDiceOfPieces(a: string, b: string, m: string, sign: char, x: int, y: int, mod: int)
    requires sign == '+' || sign == '-'
    requires IsDigits(a) && IsDigits(b) && IsDigits(m)
    requires ParseInt(a) == Some(x) && ParseInt(b) == Some(y) && ParseInt(m) == Some(mod)
    ensures ParseModifiedDice(a + "d" + (b + [sign] + m)) == (if x <= 0 then Err(NonPositive) else
      CheckPositiveModified(x, y, if sign == '-' then -mod else mod))
  {
    var tail := b + [sign] + m;
    assert PlainDiceText(tail) by {
      forall i | 0 <= i < |tail|
        ensures IsDigit(tail[i]) || tail[i] == '+' || tail[i] == '-'
      {
        if i < |b| { assert tail[i] == b[i]; }
        else if i > |b| { assert tail[i] == m[i - |b| - 1]; }
      }
    }
    assert PlainDiceText(a);
    SplitPlainDice(a, tail);
    assert '+' !in b && '+' !in m && '-' !in b && '-' !in m;
    SidesAndModifierOfPieces(x, b, m, sign, y, mod);
  }

  /** "XdY+M" reads back its count, sides and modifier; "XdY-M" negates the modifier. */
  lemma ParseModifiedDiceOfFormat(count: nat, sides: nat, modifier: nat, negative: bool)
    requires count > 0 && sides > 0
    ensures ParseModifiedDice(Format(count, sides) + (if negative then "-" else "+") + NatToString(modifier))
         == Ok(ModifiedDice(count, sides, if negative then -(modifier as int) else modifier))
  {
    var a, b, m := NatToString(count), NatToString(sides), NatToString(modifier);
    var sign := if negative then '-' else '+';
    assert Format(count, sides) + (if negative then "-" else "+") + NatToString(modifier) == a + "d" + (b + [sign] + m) by {
      assert (if negative then "-" else "+") == [sign];
    }
    assert ParseInt(a) == Some(count as int) && ParseInt(b) == Some(sides as int) && ParseInt(m) == Some(modifier as int) by {
      ParseIntOfNatToString(count);
      ParseIntOfNatToString(sides);
      ParseIntOfNatToString(modifier);
    }
    ParseModifiedDiceOfPieces(a, b, m, sign, count, sides, modifier);
  }

  lemma NoCharAfterLower(dice: string, x: char)
    requires x == '+' || x == '-'
    requires x !in dice
    ensures x !in Lower(dice)
  {
  }

  /**
   * On dice text without '+' or '-', the characters.py parse accepts exactly
   * what the game_state.py parse accepts, with the same count and sides and no
   * modifier.
   */
  lemma ParsersAgreeWithoutModifier(dice: string)
    requires '+' !in dice && '-' !in dice
    ensures ParseModifiedDice(dice).Ok? <==> ParseDice(dice).Ok?
    ensures ParseDice(dice).Ok? ==>
      ParseModifiedDice(dice).value == ModifiedDice(ParseDice(dice).value.count, ParseDice(dice).value.sides, 0)
  {
    var low := Lower(dice);
    NoCharAfterLower(dice, '+');
    NoCharAfterLower(dice, '-');
    var parts := SplitOn(low, 'd');
    forall k, x | 0 <= k < |parts| && (x == '+' || x == '-')
      ensures x !in parts[k]
    {
      if x in parts[k] {
        SplitOnPieceChars(low, 'd', parts[k], x);
      }
    }
    if |parts| == 2 {
      assert '+' !in parts[1] && '-' !in parts[1];
    } else if |parts| == 1 && IsDigits(parts[0]) {
      assert '+' !in parts[0] && '-' !in parts[0];
    }
  }
}
