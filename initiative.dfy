// determine_initiative of game_state.py: one d20 per participant plus its
// initiative_bonus, then a stable sort from the highest total down.

module Initiative {
  import opened Combatants

  /** One row of initiative_rolls; pos is the participant's place in the input list. */
  datatype Entry = Entry(id: string, initiative: int, pos: nat)

  /** The rows the first loop builds, numbered from pos. */
  function EntriesFrom(participants: seq<Character>, rolls: seq<int>, pos: nat): (r: seq<Entry>)
    requires |rolls| == |participants|
    ensures |r| == |participants|
  {
    if participants == [] then []
    else ([Entry(participants[0].id, rolls[0] + participants[0].Stat("initiative_bonus", 0), pos)]
      + EntriesFrom(participants[1..], rolls[1..], pos + 1))
  }

  /** Row k holds participant k's id, its roll plus its initiative_bonus, and position pos + k. */
  lemma {:induction false} EntriesFromAt(participants: seq<Character>, rolls: seq<int>, pos: nat, k: nat)
    requires |rolls| == |participants| && k < |participants|
    ensures EntriesFrom(participants, rolls, pos)[k] ==
      Entry(participants[k].id, rolls[k] + participants[k].Stat("initiative_bonus", 0), pos + k)
  {
    if k > 0 {
      EntriesFromAt(participants[1..], rolls[1..], pos + 1, k - 1);
    }
  }

  /** Inserting a later row after every row whose total is at least its own: a stable descending insertion. */
  function Insert(sorted: seq<Entry>, e: Entry): seq<Entry>
  {
    if sorted == [] then [e]
    else if sorted[0].initiative >= e.initiative then [sorted[0]] + Insert(sorted[1..], e)
    else [e] + sorted
  }

  /** sort(key=initiative, reverse=True): the rows of rest inserted one by one, in input order. */
  function SortFrom(sorted: seq<Entry>, rest: seq<Entry>): seq<Entry>
    decreases |rest|
  {
    if rest == [] then sorted else SortFrom(Insert(sorted, rest[0]), rest[1..])
  }

  /** [entry['id'] for entry in ...] */
  function Ids(entries: seq<Entry>): (r: seq<string>)
    ensures |r| == |entries| && forall k :: 0 <= k < |r| ==> r[k] == entries[k].id
  {
    if entries == [] then [] else [entries[0].id] + Ids(entries[1..])
  }

  /** Higher totals first; equal totals in input order. */
  /** Row a comes before row b: a higher total, or the same total and an earlier input position. */
  predicate Precedes(a: Entry, b: Entry)
  {
    a.initiative > b.initiative || (a.initiative == b.initiative && a.pos < b.pos)
  }

  predicate Ordered(s: seq<Entry>)
  {
    forall i, j :: 0 <= i < j < |s| ==> Precedes(s[i], s[j])
  }

  predicate AllBefore(s: seq<Entry>, pos: nat)
  {
    forall k :: 0 <= k < |s| ==> s[k].pos < pos
  }

  /** Input positions strictly increase along the rows. */
  predicate Increasing(s: seq<Entry>)
  {
    forall i, j :: 0 <= i < j < |s| ==> s[i].pos < s[j].pos
  }

  lemma {:induction false} InsertMultiset(sorted: seq<Entry>, e: Entry)
    ensures multiset(Insert(sorted, e)) == multiset(sorted) + multiset{e}
  {
    if sorted != [] && sorted[0].initiative >= e.initiative {
      InsertMultiset(sorted[1..], e);
      assert sorted == [sorted[0]] + sorted[1..];
    }
  }

  /** Every row of an insertion is the inserted row or one of the sorted rows. */
  lemma {:induction false} InsertElements(sorted: seq<Entry>, e: Entry, x: Entry)
    requires x in Insert(sorted, e)
    ensures x == e || x in sorted
  {
    if sorted != [] && sorted[0].initiative >= e.initiative {
      if x != sorted[0] {
        InsertElements(sorted[1..], e, x);
      }
    }
  }

  /** Inserting a row that comes later in the input than every sorted row keeps the order. */
  lemma {:induction false} InsertOrdered(sorted: seq<Entry>, e: Entry)
    requires Ordered(sorted) && AllBefore(sorted, e.pos)
    ensures Ordered(Insert(sorted, e))
  {
    if sorted == [] {
      assert Insert(sorted, e) == [e];
    } else if sorted[0].initiative >= e.initiative {
      var head := sorted[0];
      var tail := sorted[1..];
      var ins := Insert(tail, e);
      InsertOrdered(tail, e);
      forall j | 0 <= j < |ins|
        ensures Precedes(head, ins[j])
      {
        var x := ins[j];
        InsertElements(tail, e, x);
        if x != e {
          var k :| 0 <= k < |tail| && tail[k] == x;
          assert sorted[k + 1] == x;
        }
      }
      OrderedCons(head, ins);
    } else {
      forall j | 0 <= j < |sorted|
        ensures Precedes(e, sorted[j])
      {
        if j > 0 {
          assert Precedes(sorted[0], sorted[j]);
        }
      }
      OrderedCons(e, sorted);
    }
  }

  /** A row that precedes every row of an ordered list can go in front of it. */
  lemma OrderedCons(head: Entry, rest: seq<Entry>)
    requires Ordered(rest)
    requires forall j :: 0 <= j < |rest| ==> Precedes(head, rest[j])
    ensures Ordered([head] + rest)
  {
    var r := [head] + rest;
    forall i, j | 0 <= i < j < |r|
      ensures Precedes(r[i], r[j])
    {
      assert r[j] == rest[j - 1];
      if i > 0 {
        assert r[i] == rest[i - 1];
      }
    }
  }

  /** Sorting the remaining rows keeps the rows sorted so far and adds the rest. */
  lemma {:induction false} SortFromMultiset(sorted: seq<Entry>, rest: seq<Entry>)
    ensures multiset(SortFrom(sorted, rest)) == multiset(sorted) + multiset(rest)
    decreases |rest|
  {
    if rest != [] {
      InsertMultiset(sorted, rest[0]);
      SortFromMultiset(Insert(sorted, rest[0]), rest[1..]);
      assert rest == [rest[0]] + rest[1..];
    }
  }

  lemma {:induction false} SortFromOrdered(sorted: seq<Entry>, rest: seq<Entry>)
    requires Ordered(sorted) && Increasing(rest)
    requires rest != [] ==> AllBefore(sorted, rest[0].pos)
    ensures Ordered(SortFrom(sorted, rest))
    decreases |rest|
  {
    if rest != [] {
      var next := Insert(sorted, rest[0]);
      InsertOrdered(sorted, rest[0]);
      if |rest| > 1 {
        InsertMultiset(sorted, rest[0]);
        forall k | 0 <= k < |next|
          ensures next[k].pos < rest[1].pos
        {
          assert next[k] in multiset(next);
          if next[k] != rest[0] {
            assert next[k] in multiset(sorted);
            var i :| 0 <= i < |sorted| && sorted[i] == next[k];
          }
        }
      }
      SortFromOrdered(next, rest[1..]);
    }
  }

  /** The rows of determine_initiative in their final order. */
  function Ranked(participants: seq<Character>, rolls: seq<int>): seq<Entry>
    requires |rolls| == |participants|
  {
    SortFrom([], EntriesFrom(participants, rolls, 0))
  }

  /**
   * The ranking holds every participant's row exactly once (its id, its roll plus its
   * initiative_bonus, its input position), higher totals first and equal totals in input order.
   */
  lemma RankedProperties(participants: seq<Character>, rolls: seq<int>)
    requires |rolls| == |participants|
    ensures multiset(Ranked(participants, rolls)) == multiset(EntriesFrom(participants, rolls, 0))
    ensures |Ranked(participants, rolls)| == |participants|
    ensures Ordered(Ranked(participants, rolls))
    ensures multiset(Ids(Ranked(participants, rolls))) == multiset(Ids(EntriesFrom(participants, rolls, 0)))
  {
    var entries := EntriesFrom(participants, rolls, 0);
    SortFromMultiset([], entries);
    forall i, j | 0 <= i < j < |entries|
      ensures entries[i].pos < entries[j].pos
    {
      EntriesFromAt(participants, rolls, 0, i);
      EntriesFromAt(participants, rolls, 0, j);
    }
    SortFromOrdered([], entries);
    assert |multiset(Ranked(participants, rolls))| == |multiset(entries)|;
    SortFromIds([], entries);
  }

  lemma {:induction false} InsertIds(sorted: seq<Entry>, e: Entry)
    ensures multiset(Ids(Insert(sorted, e))) == multiset(Ids(sorted)) + multiset{e.id}
  {
    if sorted != [] && sorted[0].initiative >= e.initiative {
      InsertIds(sorted[1..], e);
    }
  }

  lemma {:induction false} SortFromIds(sorted: seq<Entry>, rest: seq<Entry>)
    ensures multiset(Ids(SortFrom(sorted, rest))) == multiset(Ids(sorted)) + multiset(Ids(rest))
    decreases |rest|
  {
    if rest != [] {
      InsertIds(sorted, rest[0]);
      SortFromIds(Insert(sorted, rest[0]), rest[1..]);
    }
  }

  /** The first loop: one row per participant, its roll plus its initiative_bonus, in input order. */
  method RollInitiative(participants: seq<Character>, rolls: seq<int>) returns (entries: seq<Entry>)
    requires |rolls| == |participants|
    ensures entries == EntriesFrom(participants, rolls, 0)
  {
    entries := [];
    var pending, pendingRolls := participants, rolls;
    while pending != []
      invariant |pendingRolls| == |pending|
      invariant entries + EntriesFrom(pending, pendingRolls, |entries|) == EntriesFrom(participants, rolls, 0)
      decreases |pending|
    {
      var p := pending[0];
      var entry := Entry(p.id, pendingRolls[0] + p.Stat("initiative_bonus", 0), |entries|);
      ghost var later := EntriesFrom(pending[1..], pendingRolls[1..], |entries| + 1);
      assert EntriesFrom(pending, pendingRolls, |entries|) == [entry] + later;
      assert entries + ([entry] + later) == (entries + [entry]) + later;
      entries := entries + [entry];
      pending, pendingRolls := pending[1..], pendingRolls[1..];
    }
  }

  /** initiative_rolls.sort(key=initiative, reverse=True), one insertion per row. */
  method SortDescending(entries: seq<Entry>) returns (sorted: seq<Entry>)
    ensures sorted == SortFrom([], entries)
  {
    sorted := [];
    var pending := entries;
    while pending != []
      invariant SortFrom(sorted, pending) == SortFrom([], entries)
      decreases |pending|
    {
      sorted := InsertRow(sorted, pending[0]);
      pending := pending[1..];
    }
  }

  /** One stable descending insertion: the new row goes after every row whose total is at least its own. */
  method InsertRow(sorted: seq<Entry>, e: Entry) returns (r: seq<Entry>)
    ensures r == Insert(sorted, e)
  {
    var i := 0;
    while i < |sorted| && sorted[i].initiative >= e.initiative
      invariant 0 <= i <= |sorted|
      invariant forall k :: 0 <= k < i ==> sorted[k].initiative >= e.initiative
      invariant Insert(sorted, e) == sorted[..i] + Insert(sorted[i..], e)
    {
      assert sorted[i..] == [sorted[i]] + sorted[i + 1..];
      assert sorted[..i + 1] == sorted[..i] + [sorted[i]];
      i := i + 1;
    }
    r := sorted[..i] + [e] + sorted[i..];
  }

  /**
   * determine_initiative with one d20 per participant: no participants give no order;
   * otherwise the ids of the ranked rows.
   */
  method DetermineInitiative(participants: seq<Character>, rolls: seq<int>) returns (order: seq<string>)
    requires |rolls| == |participants|
    ensures order == Ids(Ranked(participants, rolls))
    ensures participants == [] ==> order == []
  {
    if participants == [] {
      return [];
    }
    var entries := RollInitiative(participants, rolls);
    var sorted := SortDescending(entries);
    order := Ids(sorted);
  }

  /** The ids of the participants, in input order. */
  function ParticipantIds(participants: seq<Character>): (r: seq<string>)
    ensures |r| == |participants|
  {
    if participants == [] then [] else [participants[0].id] + ParticipantIds(participants[1..])
  }

  lemma {:induction false} IdsOfEntries(participants: seq<Character>, rolls: seq<int>, pos: nat)
    requires |rolls| == |participants|
    ensures Ids(EntriesFrom(participants, rolls, pos)) == ParticipantIds(participants)
  {
    if participants != [] {
      IdsOfEntries(participants[1..], rolls[1..], pos + 1);
    }
  }

  /** The order names every participant exactly as often as the input does, and nothing else. */
  lemma InitiativeIsPermutation(participants: seq<Character>, rolls: seq<int>)
    requires |rolls| == |participants|
    ensures multiset(Ids(Ranked(participants, rolls))) == multiset(ParticipantIds(participants))
  {
    RankedProperties(participants, rolls);
    IdsOfEntries(participants, rolls, 0);
  }
}
