// The player's typed command in process_combat_turn (combat_system.py):
// "attack <target>", "cast <spell> [on <target>]", "pass", or anything else.

module Commands {
  import opened Wrappers
  import opened PyText
  import opened Tables

  /** The spell name (title-cased to match the spellbook) and the optional target name of a cast. */
  datatype CastRequest = CastRequest(spell: string, target: Option<string>)

  datatype Command =
    | NoAction                              // an empty action: the player is prompted
    | Blank                                 // a whitespace-only action: split() is empty and [0] raises IndexError
    | AttackCmd(target: Option<string>)     // None: no target word given
    | CastCmd(request: Option<CastRequest>) // None: no spell word given
    | PassCmd
    | Unknown

  /**
   * The cast request as combat_system.py:168-183 builds it: the regex runs on the second
   * word alone, which holds no whitespace, so the " on " part never matches and the
   * spell name is that single word, title-cased.
   */
  function CastRequestAsWritten(parts: seq<string>): (r: CastRequest)
    requires |parts| >= 2
    ensures r.target.None?
  {
    CastRequest(Title(Strip(parts[1])), None)
  }

  /** Every spellbook name has a space, so the single-word name built as written is never found. */
  lemma AsWrittenCastNeverFindsSpell(action: string)
    requires |Words(action)| >= 2
    ensures LookupSpell(CastRequestAsWritten(Words(action)).spell).None?
  {
    var word := Words(action)[1];
    assert word in Words(action);
    StripNoSpace(word);
    TitleKeepsNoSpace(word);
    var name := Title(word);
    assert ' ' !in name by {
      forall i | 0 <= i < |name|
        ensures name[i] != ' '
      {
        assert !IsSpace(name[i]);
      }
    }
    if LookupSpell(name).Some? {
      SpellNamesHaveSpaces(name);
    }
  }

  /** The first j >= from, j >= 1, whose word is "on" in any case and is followed by another word. */
  function OnFrom(words: seq<string>, from: nat): (r: Option<nat>)
    requires from >= 1
    ensures r.Some? ==> from <= r.value && r.value + 1 < |words| && Lower(words[r.value]) == "on"
    ensures r.Some? ==> forall j :: from <= j < r.value ==> Lower(words[j]) != "on"
    ensures r.None? ==> forall j :: from <= j && j + 1 < |words| ==> Lower(words[j]) != "on"
    decreases |words| - from
  {
    if from + 1 >= |words| then None
    else if Lower(words[from]) == "on" then Some(from)
    else OnFrom(words, from + 1)
  }

  /**
   * The intended reading of "cast <spell> [on <target>]", given the words after "cast":
   * the spell is every word before the first "on" that has a word after it (and is not the
   * first word), joined by spaces and title-cased; the target is every word after it.
   */
  function CastRequestOf(words: seq<string>): CastRequest
    requires words != []
  {
    match OnFrom(words, 1)
    case None => CastRequest(Title(Join(words, " ")), None)
    case Some(j) => CastRequest(Title(Join(words[..j], " ")), Some(Join(words[j + 1..], " ")))
  }

  /** "cast <spell words> on <target words>" gives back the spell and the target. */
  lemma CastRequestSplitsAtOn(spellWords: seq<string>, on: string, targetWords: seq<string>)
    requires spellWords != [] && targetWords != [] && Lower(on) == "on"
    requires forall i :: 1 <= i < |spellWords| ==> Lower(spellWords[i]) != "on"
    ensures CastRequestOf(spellWords + [on] + targetWords) ==
      CastRequest(Title(Join(spellWords, " ")), Some(Join(targetWords, " ")))
  {
    var words := spellWords + [on] + targetWords;
    var k := |spellWords|;
    assert words[k] == on;
    assert forall j :: 1 <= j < k ==> words[j] == spellWords[j];
    assert OnFrom(words, 1) == Some(k);
    assert words[..k] == spellWords;
    assert words[k + 1..] == targetWords;
  }

  /** "cast fire bolt on goblin": the words after "cast" name Fire Bolt and the goblin. */
  lemma CastFireBoltOnGoblin(words: seq<string>)
    requires words == ["cast", "fire", "bolt", "on", "goblin"]
    ensures CastRequestOf(words[1..]) == CastRequest("Fire Bolt", Some("goblin"))
    ensures LookupSpell(CastRequestOf(words[1..]).spell) == Some(FireBolt)
  {
    CastRequestSplitsAtOn(["fire", "bolt"], "on", ["goblin"]);
    assert ["fire", "bolt"] + ["on"] + ["goblin"] == words[1..];
    assert Join(["fire", "bolt"], " ") == "fire bolt";
    assert Join(["goblin"], " ") == "goblin";
    TitleOfFireBolt();
  }

  /** The same command as written: the spell looked up is "Fire" (which AsWrittenCastNeverFindsSpell shows is never found). */
  lemma CastFireAsWritten(words: seq<string>)
    requires words == ["cast", "fire", "bolt", "on", "goblin"]
    ensures CastRequestAsWritten(words) == CastRequest("Fire", None)
  {
    LowerLettersNoSpace(words[1]);
    StripNoSpace(words[1]);
    TitleOfWord(words[1]);
  }

  lemma LowerLettersNoSpace(word: string)
    requires forall i :: 0 <= i < |word| ==> 'a' <= word[i] <= 'z'
    ensures NoSpace(word)
  {
  }

  lemma TitleOfWord(word: string)
    requires word == "fire" || word == "bolt"
    ensures word == "fire" ==> Title(word) == "Fire"
    ensures word == "bolt" ==> Title(word) == "Bolt"
  {
    var r := Title(word);
    assert r == TitleFrom(word, false);
    assert TitleFrom(word, false)[0] == UpperChar(word[0]);
    assert TitleFrom(word, false)[1..] == TitleFrom(word[1..], true);
    assert TitleFrom(word[1..], true)[1..] == TitleFrom(word[2..], true);
    assert TitleFrom(word[2..], true)[1..] == TitleFrom(word[3..], true);
  }

  lemma TitleOfFireBolt()
    ensures Title("fire bolt") == "Fire Bolt"
  {
    var s := "fire bolt";
    assert TitleFrom(s, false)[1..] == TitleFrom(s[1..], true);
    assert TitleFrom(s[1..], true)[1..] == TitleFrom(s[2..], true);
    assert TitleFrom(s[2..], true)[1..] == TitleFrom(s[3..], true);
    assert TitleFrom(s[3..], true)[1..] == TitleFrom(s[4..], true);
    assert TitleFrom(s[4..], true)[1..] == TitleFrom(s[5..], false);
    assert TitleFrom(s[5..], false)[1..] == TitleFrom(s[6..], true);
    assert TitleFrom(s[6..], true)[1..] == TitleFrom(s[7..], true);
    assert TitleFrom(s[7..], true)[1..] == TitleFrom(s[8..], true);
  }

  /** Without such an "on" the whole text is the spell name and there is no target. */
  lemma CastRequestWithoutOn(words: seq<string>)
    requires words != []
    requires forall j :: 1 <= j && j + 1 < |words| ==> Lower(words[j]) != "on"
    ensures CastRequestOf(words) == CastRequest(Title(Join(words, " ")), None)
  {
  }

  /**
   * process_combat_turn's reading of the action: the command is the first word lower-cased,
   * the argument the second word as typed; a cast reads its request from all the words after
   * "cast" (CastRequestOf rather than CastRequestAsWritten, see the findings).
   */
  function ParseCommand(action: string): (r: Command)
    ensures r == NoAction <==> action == ""
    ensures r == Blank <==> action != "" && AllSpace(action)
  {
    WordsEmptyIffAllSpace(Lower(action));
    LowerKeepsSpaces(action);
    if action == "" then NoAction
    else
      var lowered := Words(Lower(action));
      var parts := Words(action);
      if lowered == [] then Blank
      else if lowered[0] == "attack" then (if |parts| < 2 then AttackCmd(None) else AttackCmd(Some(parts[1])))
      else if lowered[0] == "cast" then (if |parts| < 2 then CastCmd(None) else CastCmd(Some(CastRequestOf(parts[1..]))))
      else if lowered[0] == "pass" then PassCmd
      else Unknown
  }

  /** Lower-casing keeps whitespace and non-whitespace apart. */
  lemma LowerKeepsSpaces(s: string)
    ensures AllSpace(Lower(s)) <==> AllSpace(s)
  {
    forall i | 0 <= i < |s|
      ensures IsSpace(Lower(s)[i]) <==> IsSpace(s[i])
    {
    }
  }

  /**
   * The command a non-blank action names: the first word, whatever its case, picks attack, cast,
   * pass or nothing known, and the words after it, as typed, are the argument.
   */
  lemma ParseCommandByFirstWord(action: string)
    requires !AllSpace(action)
    ensures Words(action) != []
    ensures var w, c := Words(action), ParseCommand(action);
      (c.AttackCmd? <==> Lower(w[0]) == "attack")
      && (c.CastCmd? <==> Lower(w[0]) == "cast")
      && (c == PassCmd <==> Lower(w[0]) == "pass")
      && (c == Unknown <==> Lower(w[0]) != "attack" && Lower(w[0]) != "cast" && Lower(w[0]) != "pass")
      && (c.AttackCmd? ==> c.target == if |w| < 2 then None else Some(w[1]))
      && (c.CastCmd? ==> c.request == if |w| < 2 then None else Some(CastRequestOf(w[1..])))
  {
    WordsEmptyIffAllSpace(action);
    WordsOfLower(action);
    assert action != "";
  }

  /** Whatever its case, the first word picks the command, and the second word is the attack's target as typed. */
  lemma ParseAttack(target: string, action: string)
    requires Words(Lower(action)) != [] && Words(Lower(action))[0] == "attack"
    requires |Words(action)| >= 2 && Words(action)[1] == target
    ensures ParseCommand(action) == AttackCmd(Some(target))
  {
  }
}
