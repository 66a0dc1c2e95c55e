// rag_system_simulation.py: looking up dot paths in loaded JSON documents,
// filtering documents by the values at such paths, and collecting their text
// for retrieval. load_documents (directory listing and file reading) and the
// command-line entry point are not modelled.

module RagSimulation {
  import opened Wrappers
  import opened Json
  import opened PyText

  // ------------------------------------------------------ _get_nested_value

  /** One step of a path: a key of a dict, or an in-range int() index of a list. */
  function Step(value: Json, key: string): (r: Option<Json>)
    ensures value.JObject? ==> r == Lookup(value.members, key)
    ensures value.JArray? && ParseInt(key).Some? && 0 <= ParseInt(key).value < |value.items| ==>
      r == Some(value.items[ParseInt(key).value])
    ensures value.JArray? && (ParseInt(key).None? || ParseInt(key).value < 0 || ParseInt(key).value >= |value.items|) ==>
      r.None?
    ensures !value.JObject? && !value.JArray? ==> r.None?
  {
    match value
    case JObject(ms) => Lookup(ms, key)
    case JArray(xs) =>
      (match ParseInt(key)
       case Some(idx) => if 0 <= idx < |xs| then Some(xs[idx]) else None
       case None => None)
    case _ => None
  }

  /** The value at the end of the keys, or None at the first step that misses. */
  function Walk(value: Json, keys: seq<string>): Option<Json>
    decreases |keys|
  {
    if keys == [] then Some(value)
    else
      match Step(value, keys[0])
      case Some(next) => Walk(next, keys[1..])
      case None => None
  }

  /** What _get_nested_value returns: the value at the dot path, None (JNull) on a miss. */
  function NestedValue(doc: Json, keyPath: string): Json
  {
    Walk(doc, SplitOn(keyPath, '.')).GetOr(JNull)
  }

  /** The body of _get_nested_value's loop: a dict key, or an int() index into a list. */
  method StepInto(value: Json, key: string) returns (r: Option<Json>)
    ensures r == Step(value, key)
  {
    if value.JObject? && key in Keys(value.members) {
      r := Lookup(value.members, key);
    } else if value.JArray? {
      var idx := ParseInt(key);
      if idx.None? {
        r := None;
      } else if 0 <= idx.value < |value.items| {
        r := Some(value.items[idx.value]);
      } else {
        r := None;
      }
    } else {
      r := None;
    }
  }

  /** _get_nested_value, stepping through the split path. */
  method GetNestedValue(doc: Json, keyPath: string) returns (r: Json)
    ensures r == NestedValue(doc, keyPath)
  {
    var keys := SplitOn(keyPath, '.');
    var value := doc;
    var pending := keys;
    while pending != []
      invariant Walk(doc, keys) == Walk(value, pending)
      decreases |pending|
    {
      var next := StepInto(value, pending[0]);
      if next.None? {
        return JNull;
      }
      value := next.value;
      pending := pending[1..];
    }
    return value;
  }

  /** Walking two legs in turn is walking their concatenation. */
  lemma {:induction false} WalkAppend(value: Json, p: seq<string>, q: seq<string>)
    ensures Walk(value, p + q) == (match Walk(value, p) case Some(mid) => Walk(mid, q) case None => None)
    decreases |p|
  {
    if p == [] {
      assert p + q == q;
    } else {
      assert (p + q)[0] == p[0];
      assert (p + q)[1..] == p[1..] + q;
      match Step(value, p[0])
      case Some(next) => WalkAppend(next, p[1..], q);
      case None =>
    }
  }

  /** "a.b" looks b up in what "a" finds. */
  lemma DotPathComposes(doc: Json, a: string, b: string)
    ensures NestedValue(doc, a + "." + b)
      == (match Walk(doc, SplitOn(a, '.')) case Some(mid) => Walk(mid, SplitOn(b, '.')).GetOr(JNull) case None => JNull)
  {
    assert a + "." + b == a + ['.'] + b;
    SplitOnConcat(a, b, '.');
    WalkAppend(doc, SplitOn(a, '.'), SplitOn(b, '.'));
  }

  /** A path without dots is a plain dict lookup, None when the key is absent. */
  lemma KeyPathIsLookup(ms: Dict, key: string)
    requires '.' !in key
    ensures NestedValue(JObject(ms), key) == Lookup(ms, key).GetOr(JNull)
  {
    SplitOnNoSeparator(key, '.');
    var keys := [key];
    assert keys[1..] == [];
    assert Walk(JObject(ms), keys) == (match Lookup(ms, key) case Some(v) => Walk(v, []) case None => None);
  }

  /** A decimal index reaches into a list. */
  lemma IndexPathIsItem(xs: seq<Json>, i: nat)
    requires i < |xs|
    ensures NestedValue(JArray(xs), NatToString(i)) == xs[i]
  {
    var key := NatToString(i);
    assert forall j :: 0 <= j < |key| ==> key[j] != '.';
    SplitOnNoSeparator(key, '.');
    ParseIntOfNatToString(i);
    var keys := [key];
    assert keys[1..] == [];
    assert Step(JArray(xs), key) == Some(xs[i]);
    assert Walk(JArray(xs), keys) == Walk(xs[i], []);
  }

  // ------------------------------------------------------- filter_documents

  /** The filter's path holds a value equal (Python's ==) to the expected one. */
  predicate Holds(doc: Json, filter: (string, Json))
  {
    PyEq(NestedValue(doc, filter.0), filter.1)
  }

  /** Every filter holds. */
  predicate Matches(doc: Json, filters: Dict)
  {
    forall i :: 0 <= i < |filters| ==> Holds(doc, filters[i])
  }

  /** The matching documents, in their original order. */
  function Filtered(documents: seq<Json>, filters: Dict): (r: seq<Json>)
    ensures |r| <= |documents|
  {
    if documents == [] then []
    else (if Matches(documents[0], filters) then [documents[0]] else []) + Filtered(documents[1..], filters)
  }

  /** One filter: look the path up, then compare with Python's ==. */
  method CheckFilter(doc: Json, filter: (string, Json)) returns (holds: bool)
    ensures holds <==> Holds(doc, filter)
  {
    var actual := GetNestedValue(doc, filter.0);
    holds := PyEq(actual, filter.1);
  }

  /** The inner loop: match stays true until the first filter that fails. */
  method DocumentMatches(doc: Json, filters: Dict) returns (matched: bool)
    ensures matched <==> Matches(doc, filters)
  {
    var k := 0;
    while k < |filters|
      invariant 0 <= k <= |filters|
      invariant forall i :: 0 <= i < k ==> Holds(doc, filters[i])
    {
      var holds := CheckFilter(doc, filters[k]);
      if !holds {
        return false;
      }
      k := k + 1;
    }
    return true;
  }

  /** filter_documents */
  method FilterDocuments(documents: seq<Json>, filters: Dict) returns (filtered: seq<Json>)
    ensures filtered == Filtered(documents, filters)
  {
    filtered := [];
    var pending := documents;
    while pending != []
      invariant filtered + Filtered(pending, filters) == Filtered(documents, filters)
      decreases |pending|
    {
      var doc := pending[0];
      var matched := DocumentMatches(doc, filters);
      FilteredAdvance(documents, filters, filtered, pending, matched);
      if matched {
        filtered := filtered + [doc];
      }
      pending := pending[1..];
    }
  }

  /** The first document is kept or not, then the rest are filtered. */
  lemma FilteredCons(documents: seq<Json>, filters: Dict, matched: bool)
    requires documents != []
    requires matched <==> Matches(documents[0], filters)
    ensures Filtered(documents, filters) == (if matched then [documents[0]] else []) + Filtered(documents[1..], filters)
  {
  }

  /** One step of filter_documents keeps the kept documents and the pending ones adding up. */
  lemma FilteredAdvance(documents: seq<Json>, filters: Dict, filtered: seq<Json>, pending: seq<Json>, matched: bool)
    requires pending != []
    requires matched <==> Matches(pending[0], filters)
    requires filtered + Filtered(pending, filters) == Filtered(documents, filters)
    ensures (if matched then filtered + [pending[0]] else filtered) + Filtered(pending[1..], filters)
      == Filtered(documents, filters)
  {
    var head: seq<Json> := if matched then [pending[0]] else [];
    var rest := Filtered(pending[1..], filters);
    FilteredCons(pending, filters, matched);
    ConcatAssoc(filtered, head, rest);
    assert (if matched then filtered + [pending[0]] else filtered) == filtered + head;
  }

  lemma ConcatAssoc<T>(a: seq<T>, b: seq<T>, c: seq<T>)
    ensures a + (b + c) == (a + b) + c
  {
  }

  /** a can be had from b by deleting elements. */
  predicate Subsequence(a: seq<Json>, b: seq<Json>)
    decreases |b|
  {
    if a == [] then true
    else if b == [] then false
    else (a[0] == b[0] && Subsequence(a[1..], b[1..])) || Subsequence(a, b[1..])
  }

  /** The kept documents are exactly the matching ones, in their original order. */
  lemma {:induction false} FilteredIsMatchingSubsequence(documents: seq<Json>, filters: Dict)
    ensures Subsequence(Filtered(documents, filters), documents)
    ensures forall d :: d in Filtered(documents, filters) <==> d in documents && Matches(d, filters)
    decreases |documents|
  {
    if documents != [] {
      FilteredIsMatchingSubsequence(documents[1..], filters);
      var rest := Filtered(documents[1..], filters);
      if Matches(documents[0], filters) {
        assert ([documents[0]] + rest)[1..] == rest;
      } else {
        assert [] + rest == rest;
      }
      assert forall d :: d in documents <==> d == documents[0] || d in documents[1..];
    }
  }

  /** No filters keep every document. */
  lemma {:induction false} NoFiltersKeepAll(documents: seq<Json>)
    ensures Filtered(documents, []) == documents
    decreases |documents|
  {
    if documents != [] {
      NoFiltersKeepAll(documents[1..]);
      assert [documents[0]] + documents[1..] == documents;
    }
  }

  // ----------------------------------------------- _extract_text_from_value

  function Flatten(ss: seq<seq<string>>): seq<string>
  {
    if ss == [] then [] else ss[0] + Flatten(ss[1..])
  }

  lemma {:induction false} FlattenAppend(a: seq<seq<string>>, b: seq<seq<string>>)
    ensures Flatten(a + b) == Flatten(a) + Flatten(b)
    decreases |a|
  {
    if a == [] {
      assert a + b == b;
    } else {
      assert (a + b)[0] == a[0];
      assert (a + b)[1..] == a[1..] + b;
      FlattenAppend(a[1..], b);
    }
  }

  lemma {:induction false} InFlatten(ss: seq<seq<string>>, t: string)
    ensures t in Flatten(ss) <==> exists i :: 0 <= i < |ss| && t in ss[i]
    decreases |ss|
  {
    if ss != [] {
      InFlatten(ss[1..], t);
      if exists i :: 0 <= i < |ss| && t in ss[i] {
        var i :| 0 <= i < |ss| && t in ss[i];
        if i > 0 {
          assert t in ss[1..][i - 1];
        }
      }
      if exists i :: 0 <= i < |ss[1..]| && t in ss[1..][i] {
        var i :| 0 <= i < |ss[1..]| && t in ss[1..][i];
        assert t in ss[i + 1];
      }
    }
  }

  /** _extract_text_from_value: the strings of a value, lists in order and dict values in insertion order. */
  function ExtractText(value: Json): seq<string>
    decreases value
  {
    match value
    case JStr(s) => [s]
    case JArray(xs) => Flatten(seq(|xs|, i requires 0 <= i < |xs| => ExtractText(xs[i])))
    case JObject(ms) => Flatten(seq(|ms|, i requires 0 <= i < |ms| => ExtractText(ms[i].1)))
    case _ => []
  }

  /** The string t is a leaf of the value somewhere. */
  predicate HasStringLeaf(value: Json, t: string)
    decreases value
  {
    match value
    case JStr(s) => s == t
    case JArray(xs) => exists i :: 0 <= i < |xs| && HasStringLeaf(xs[i], t)
    case JObject(ms) => exists i :: 0 <= i < |ms| && HasStringLeaf(ms[i].1, t)
    case _ => false
  }

  /** The extracted texts are exactly the string leaves; numbers, booleans and nulls give nothing. */
  lemma {:induction false} ExtractTextIsStringLeaves(value: Json, t: string)
    ensures t in ExtractText(value) <==> HasStringLeaf(value, t)
    decreases value
  {
    match value
    case JStr(s) =>
    case JArray(xs) =>
      var ss := seq(|xs|, i requires 0 <= i < |xs| => ExtractText(xs[i]));
      InFlatten(ss, t);
      forall i | 0 <= i < |xs|
        ensures t in ss[i] <==> HasStringLeaf(xs[i], t)
      {
        ExtractTextIsStringLeaves(xs[i], t);
      }
    case JObject(ms) =>
      var ss := seq(|ms|, i requires 0 <= i < |ms| => ExtractText(ms[i].1));
      InFlatten(ss, t);
      forall i | 0 <= i < |ms|
        ensures t in ss[i] <==> HasStringLeaf(ms[i].1, t)
      {
        ExtractTextIsStringLeaves(ms[i].1, t);
      }
    case _ =>
  }

  /** A list's texts are its first part's texts followed by the rest's. */
  lemma ExtractTextOfListAppend(a: seq<Json>, b: seq<Json>)
    ensures ExtractText(JArray(a + b)) == ExtractText(JArray(a)) + ExtractText(JArray(b))
  {
    var sa := seq(|a|, i requires 0 <= i < |a| => ExtractText(a[i]));
    var sb := seq(|b|, i requires 0 <= i < |b| => ExtractText(b[i]));
    var ab := a + b;
    assert seq(|ab|, i requires 0 <= i < |ab| => ExtractText(ab[i])) == sa + sb;
    FlattenAppend(sa, sb);
  }

  // --------------------------------------------------- extract_text_for_rag

  /** The texts each field contributes, in field order; a missing field contributes none. */
  function FieldTexts(document: Json, textFields: seq<string>): seq<string>
  {
    Flatten(seq(|textFields|, i requires 0 <= i < |textFields| => ExtractText(NestedValue(document, textFields[i]))))
  }

  /** One more field appends its texts. */
  lemma FieldTextsSnoc(document: Json, fields: seq<string>, f: string)
    ensures FieldTexts(document, fields + [f]) == FieldTexts(document, fields) + ExtractText(NestedValue(document, f))
  {
    var ss := seq(|fields|, j requires 0 <= j < |fields| => ExtractText(NestedValue(document, fields[j])));
    var after := fields + [f];
    assert seq(|after|, j requires 0 <= j < |after| => ExtractText(NestedValue(document, after[j])))
      == ss + [ExtractText(NestedValue(document, f))];
    FlattenAppend(ss, [ExtractText(NestedValue(document, f))]);
  }

  /** extract_text_for_rag */
  method ExtractTextForRag(document: Json, textFields: seq<string>) returns (text: string)
    ensures text == Join(FieldTexts(document, textFields), " ")
  {
    var extracted: seq<string> := [];
    var i := 0;
    while i < |textFields|
      invariant 0 <= i <= |textFields|
      invariant extracted == FieldTexts(document, textFields[..i])
    {
      var value := GetNestedValue(document, textFields[i]);
      assert textFields[..i + 1] == textFields[..i] + [textFields[i]];
      FieldTextsSnoc(document, textFields[..i], textFields[i]);
      if value != JNull {
        extracted := extracted + ExtractText(value);
      } else {
        assert ExtractText(value) == [];
      }
      i := i + 1;
    }
    assert textFields[..|textFields|] == textFields;
    text := Join(extracted, " ");
  }

  /** Fields that are all missing give the empty string. */
  lemma {:induction false} AllMissingIsEmpty(document: Json, textFields: seq<string>)
    requires forall f | f in textFields :: NestedValue(document, f) == JNull
    ensures FieldTexts(document, textFields) == []
    ensures Join(FieldTexts(document, textFields), " ") == ""
    decreases |textFields|
  {
    if textFields != [] {
      AllMissingIsEmpty(document, textFields[1..]);
      var ss := seq(|textFields|, i requires 0 <= i < |textFields| => ExtractText(NestedValue(document, textFields[i])));
      assert ss[1..] == seq(|textFields[1..]|, i requires 0 <= i < |textFields[1..]| =>
        ExtractText(NestedValue(document, textFields[1..][i])));
      assert textFields[0] in textFields;
    }
  }
}
