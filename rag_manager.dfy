// rag_manager.py: retrieve_context, the keyword lookup that picks the NPC and
// game-object records a player's input mentions. The warnings printed for
// skipped entries are not modelled; loading the data is not part of this model.

module RagManager {
  import opened Wrappers
  import opened Json
  import opened PyText

  /** The answer when no record matches. */
  const NoContext: string := "No specific context found for your input."

  /**
   * The entries `for x in data.get(key, [])` visits: a list's items, a
   * string's characters, a dict's keys; None where iterating raises
   * TypeError (null, a number, a boolean).
   */
  function Entries(data: Dict, key: string): (r: Option<seq<Json>>)
    ensures key !in Keys(data) ==> r == Some([])
  {
    match Get(data, key, JArray([]))
    case JArray(xs) => Some(xs)
    case JStr(s) => Some(seq(|s|, i requires 0 <= i < |s| => JStr([s[i]])))
    case JObject(ms) => Some(seq(|ms|, i requires 0 <= i < |ms| => JStr(ms[i].0)))
    case _ => None
  }

  /** record.get(key, "").lower() as the matching sees it; None where .lower() raises on a non-str. */
  function MatchText(record: Dict, key: string): (r: Option<string>)
    ensures key !in Keys(record) ==> r == Some("")
  {
    match Lookup(record, key)
    case None => Some("")
    case Some(v) => if v.JStr? then Some(Lower(v.s)) else None
  }

  /** A dict entry whose name and description the matching can lower-case. */
  predicate Readable(record: Dict)
  {
    MatchText(record, "name").Some? && MatchText(record, "description").Some?
  }

  /** Some keyword is a substring of the lowered name or the lowered description. */
  predicate Mentions(keywords: seq<string>, record: Dict)
    requires Readable(record)
  {
    exists k :: k in keywords
      && (Contains(MatchText(record, "name").value, k) || Contains(MatchText(record, "description").value, k))
  }

  /** record.get(key, default) for display; a present value is a str, the matching checked it. */
  function Display(record: Dict, key: string, default: string): string
  {
    match Lookup(record, key)
    case Some(JStr(s)) => s
    case _ => default
  }

  /** One line of context: "NPC: name - description" or "Object: name - description". */
  function ContextLine(kind: string, unnamed: string, record: Dict): string
  {
    kind + ": " + Display(record, "name", unnamed) + " - " + Display(record, "description", "No description")
  }

  /** What one entry adds: nothing for a non-dict, its line when mentioned; None where .lower() raises. */
  function EntryLines(entry: Json, keywords: seq<string>, kind: string, unnamed: string): (r: Option<seq<string>>)
    ensures r.Some? ==> |r.value| <= 1
  {
    if !entry.JObject? then Some([])
    else if !Readable(entry.members) then None
    else if Mentions(keywords, entry.members) then Some([ContextLine(kind, unnamed, entry.members)])
    else Some([])
  }

  /** Lines found by one part of a loop followed by those of the next; None if either part raised. */
  function Then(first: Option<seq<string>>, second: Option<seq<string>>): Option<seq<string>>
  {
    match first
    case None => None
    case Some(a) =>
      match second
      case None => None
      case Some(b) => Some(a + b)
  }

  /** The lines one loop appends, in entry order; None where the loop raises. */
  function Lines(entries: seq<Json>, keywords: seq<string>, kind: string, unnamed: string): Option<seq<string>>
  {
    if entries == [] then Some([])
    else Then(EntryLines(entries[0], keywords, kind, unnamed), Lines(entries[1..], keywords, kind, unnamed))
  }

  /** The lines of one group of records; None where iterating or matching raises. */
  function GroupLines(data: Dict, key: string, keywords: seq<string>, kind: string, unnamed: string): Option<seq<string>>
  {
    match Entries(data, key)
    case None => None
    case Some(entries) => Lines(entries, keywords, kind, unnamed)
  }

  /** The answer from both groups' lines: None if either raised, else the lines joined or the no-context message. */
  function Answer(npcLines: Option<seq<string>>, objectLines: Option<seq<string>>): Option<string>
  {
    if npcLines.None? || objectLines.None? then None
    else Some(Respond(npcLines.value + objectLines.value))
  }

  /** The lines found joined by newlines, or the no-context message when there are none. */
  function Respond(relevant: seq<string>): string
  {
    if relevant == [] then NoContext else Join(relevant, "\n")
  }

  /** The whole answer: NPC lines, then object lines, joined by newlines, or the no-context message. */
  function RetrieveContextOf(playerInput: string, data: Dict): Option<string>
  {
    var keywords := Words(Lower(playerInput));
    Answer(GroupLines(data, "npcs", keywords, "NPC", "Unnamed NPC"),
           GroupLines(data, "game_objects", keywords, "Object", "Unnamed Object"))
  }

  /** The body of either loop for one entry: the isinstance check, the two lower() calls and any(). */
  method EntryLinesOf(entry: Json, keywords: seq<string>, kind: string, unnamed: string) returns (r: Option<seq<string>>)
    ensures r == EntryLines(entry, keywords, kind, unnamed)
  {
    if !entry.JObject? {
      return Some([]);
    }
    var name := MatchText(entry.members, "name");
    var description := MatchText(entry.members, "description");
    if name.None? || description.None? {
      return None;
    }
    var hit := false;
    var k := 0;
    while k < |keywords| && !hit
      invariant 0 <= k <= |keywords|
      invariant hit <==> exists j :: 0 <= j < k && (Contains(name.value, keywords[j]) || Contains(description.value, keywords[j]))
    {
      hit := Contains(name.value, keywords[k]) || Contains(description.value, keywords[k]);
      k := k + 1;
    }
    if hit {
      return Some([ContextLine(kind, unnamed, entry.members)]);
    }
    return Some([]);
  }

  /** One of the two loops of retrieve_context, appending to the lines found so far. */
  method CollectLines(entries: seq<Json>, keywords: seq<string>, kind: string, unnamed: string, found: seq<string>)
    returns (r: Option<seq<string>>)
    ensures r == Then(Some(found), Lines(entries, keywords, kind, unnamed))
  {
    var lines := found;
    var pending := entries;
    while pending != []
      invariant Then(Some(lines), Lines(pending, keywords, kind, unnamed))
        == Then(Some(found), Lines(entries, keywords, kind, unnamed))
      decreases |pending|
    {
      var added := EntryLinesOf(pending[0], keywords, kind, unnamed);
      ThenAssoc(Some(lines), added, Lines(pending[1..], keywords, kind, unnamed));
      if added.None? {
        return None;
      }
      lines := lines + added.value;
      pending := pending[1..];
    }
    assert lines + [] == lines;
    return Some(lines);
  }

  /** One group of retrieve_context: data.get(key, []) and its loop, appending to the lines found so far. */
  method CollectGroup(data: Dict, key: string, keywords: seq<string>, kind: string, unnamed: string, found: seq<string>)
    returns (r: Option<seq<string>>)
    ensures r == Then(Some(found), GroupLines(data, key, keywords, kind, unnamed))
  {
    var entries := Entries(data, key);
    if entries.None? {
      return None;
    }
    r := CollectLines(entries.value, keywords, kind, unnamed, found);
  }

  /** retrieve_context */
  method RetrieveContext(playerInput: string, data: Dict) returns (r: Option<string>)
    ensures r == RetrieveContextOf(playerInput, data)
  {
    var keywords := Words(Lower(playerInput));
    r := ContextFor(keywords, data);
  }

  /** The two loops of retrieve_context and its answer, for the keywords split from the input. */
  method ContextFor(keywords: seq<string>, data: Dict) returns (r: Option<string>)
    ensures r == Answer(GroupLines(data, "npcs", keywords, "NPC", "Unnamed NPC"),
                        GroupLines(data, "game_objects", keywords, "Object", "Unnamed Object"))
  {
    var afterNpcs := CollectGroup(data, "npcs", keywords, "NPC", "Unnamed NPC", []);
    ThenEmpty(GroupLines(data, "npcs", keywords, "NPC", "Unnamed NPC"));
    if afterNpcs.None? {
      return None;
    }
    var relevant := CollectGroup(data, "game_objects", keywords, "Object", "Unnamed Object", afterNpcs.value);
    if relevant.None? {
      return None;
    }
    return Some(Respond(relevant.value));
  }

  /** Nothing found first leaves the second part's lines. */
  lemma ThenEmpty(second: Option<seq<string>>)
    ensures Then(Some([]), second) == second
  {
    if second.Some? {
      assert [] + second.value == second.value;
    }
  }

  lemma ThenAssoc(x: Option<seq<string>>, y: Option<seq<string>>, z: Option<seq<string>>)
    ensures Then(x, Then(y, z)) == Then(Then(x, y), z)
  {
    if x.Some? && y.Some? && z.Some? {
      assert x.value + (y.value + z.value) == (x.value + y.value) + z.value;
    }
  }

  /** Lines of two runs of entries are the lines of each, in order. */
  lemma {:induction false} LinesAppend(a: seq<Json>, b: seq<Json>, keywords: seq<string>, kind: string, unnamed: string)
    ensures Lines(a + b, keywords, kind, unnamed) == Then(Lines(a, keywords, kind, unnamed), Lines(b, keywords, kind, unnamed))
    decreases |a|
  {
    if a == [] {
      assert a + b == b;
      ThenEmpty(Lines(b, keywords, kind, unnamed));
    } else {
      assert (a + b)[0] == a[0];
      assert (a + b)[1..] == a[1..] + b;
      LinesAppend(a[1..], b, keywords, kind, unnamed);
      ThenAssoc(EntryLines(a[0], keywords, kind, unnamed), Lines(a[1..], keywords, kind, unnamed), Lines(b, keywords, kind, unnamed));
    }
  }

  /** An entry that is not a dict changes nothing, wherever it stands. */
  lemma NonDictSkipped(a: seq<Json>, x: Json, b: seq<Json>, keywords: seq<string>, kind: string, unnamed: string)
    requires !x.JObject?
    ensures Lines(a + [x] + b, keywords, kind, unnamed) == Lines(a + b, keywords, kind, unnamed)
  {
    LinesAppend(a, [x] + b, keywords, kind, unnamed);
    LinesAppend(a, b, keywords, kind, unnamed);
    assert a + [x] + b == a + ([x] + b);
    assert ([x] + b)[1..] == b;
    match Lines(b, keywords, kind, unnamed)
    case None =>
    case Some(lb) => assert [] + lb == lb;
  }

  /** A single dict record gives its line exactly when the input mentions it. */
  lemma OneRecord(record: Dict, keywords: seq<string>, kind: string, unnamed: string)
    requires Readable(record)
    ensures Lines([JObject(record)], keywords, kind, unnamed)
      == Some(if Mentions(keywords, record) then [ContextLine(kind, unnamed, record)] else [])
  {
    var entries := [JObject(record)];
    assert entries[1..] == [];
    var head := EntryLines(JObject(record), keywords, kind, unnamed).value;
    assert head + [] == head;
  }

  /** Lower-casing keeps whitespace whitespace and everything else not. */
  lemma {:induction false} AllSpaceLower(s: string)
    ensures AllSpace(Lower(s)) <==> AllSpace(s)
  {
    assert forall i :: 0 <= i < |s| ==> (IsSpace(Lower(s)[i]) <==> IsSpace(s[i]));
  }

  /** Lines found without keywords are none. */
  lemma {:induction false} NoKeywordsNoLines(entries: seq<Json>, kind: string, unnamed: string)
    ensures Lines(entries, [], kind, unnamed).Some? ==> Lines(entries, [], kind, unnamed).value == []
    decreases |entries|
  {
    if entries != [] {
      NoKeywordsNoLines(entries[1..], kind, unnamed);
    }
  }

  /** Input in which split() finds no keyword finds no context, unless a record cannot be read. */
  lemma NoWordsFindsNothing(playerInput: string, data: Dict)
    requires Words(Lower(playerInput)) == []
    ensures RetrieveContextOf(playerInput, data).Some? ==> RetrieveContextOf(playerInput, data).value == NoContext
  {
    var npcs := GroupLines(data, "npcs", [], "NPC", "Unnamed NPC");
    var objects := GroupLines(data, "game_objects", [], "Object", "Unnamed Object");
    NoKeywordsNoGroupLines(data, "npcs", "NPC", "Unnamed NPC");
    NoKeywordsNoGroupLines(data, "game_objects", "Object", "Unnamed Object");
    NoLinesNoContext(npcs, objects);
  }

  /** No lines from either group give the no-context message. */
  lemma NoLinesNoContext(npcLines: Option<seq<string>>, objectLines: Option<seq<string>>)
    requires npcLines.Some? ==> npcLines.value == []
    requires objectLines.Some? ==> objectLines.value == []
    ensures Answer(npcLines, objectLines).Some? ==> Answer(npcLines, objectLines).value == NoContext
  {
    if npcLines.Some? && objectLines.Some? {
      assert npcLines.value + objectLines.value == [];
    }
  }

  /** A group read without keywords has no lines. */
  lemma NoKeywordsNoGroupLines(data: Dict, key: string, kind: string, unnamed: string)
    ensures GroupLines(data, key, [], kind, unnamed).Some? ==> GroupLines(data, key, [], kind, unnamed).value == []
  {
    if Entries(data, key).Some? {
      NoKeywordsNoLines(Entries(data, key).value, kind, unnamed);
    }
  }

  /** Input with no words (the empty input among them) finds no context, unless a record cannot be read. */
  lemma BlankInputFindsNothing(playerInput: string, data: Dict)
    requires AllSpace(playerInput)
    ensures RetrieveContextOf(playerInput, data).Some? ==> RetrieveContextOf(playerInput, data).value == NoContext
  {
    AllSpaceLower(playerInput);
    WordsEmptyIffAllSpace(Lower(playerInput));
    NoWordsFindsNothing(playerInput, data);
  }

  /**
   * With some lines found, the answer is the NPC lines, then the object lines, joined by
   * newlines; when no line holds a newline, PyText.SplitOnJoin splits it back into them.
   */
  lemma AnswerJoinsLines(playerInput: string, data: Dict, npcLines: seq<string>, objectLines: seq<string>)
    requires GroupLines(data, "npcs", Words(Lower(playerInput)), "NPC", "Unnamed NPC") == Some(npcLines)
    requires GroupLines(data, "game_objects", Words(Lower(playerInput)), "Object", "Unnamed Object") == Some(objectLines)
    requires npcLines + objectLines != []
    ensures RetrieveContextOf(playerInput, data) == Some(Join(npcLines + objectLines, "\n"))
  {
    SomeLinesJoined(npcLines, objectLines);
  }

  /** Lines from either group give them joined by newlines. */
  lemma SomeLinesJoined(npcLines: seq<string>, objectLines: seq<string>)
    requires npcLines + objectLines != []
    ensures Answer(Some(npcLines), Some(objectLines)) == Some(Join(npcLines + objectLines, "\n"))
  {
  }
}
