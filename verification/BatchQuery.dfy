/** The batch profile query: first-occurrence order with a cardinality shortcut. */
module BatchQuery {
  import opened Results

  type Id = nat

  datatype Row<T> = Row(id: Id, content: T)

  datatype BatchError = SettingsNotFound | MissingKey

  /** `list(dict.fromkeys(ids))`. */
  function Dedup(ids: seq<Id>): (r: seq<Id>) {
    if ids == [] then [] else
      var before, last := Dedup(ids[..|ids| - 1]), ids[|ids| - 1];
      if last in before then before else before + [last]
  }

  function Keep(ids: seq<Id>, present: set<Id>): seq<Id> {
    if ids == [] then []
    else if ids[0] in present then [ids[0]] + Keep(ids[1..], present)
    else Keep(ids[1..], present)
  }

  function IdsOf<T>(rows: seq<Row<T>>): set<Id> {
    set i | 0 <= i < |rows| :: rows[i].id
  }

  function ById<T>(rows: seq<Row<T>>): (m: map<Id, T>)
    ensures m.Keys == IdsOf(rows)
    ensures forall id :: id in m ==> Row(id, m[id]) in rows
  {
    if rows == [] then map[] else
      var init, last := rows[..|rows| - 1], rows[|rows| - 1];
      assert rows == init + [last];
      ById(init)[last.id := last.content]
  }

  /** What a reader returns for some ids: each stored row once, in any order. */
  predicate Reads<T(==)>(rows: seq<Row<T>>, table: map<Id, T>, ids: seq<Id>) {
    && (forall i, j :: 0 <= i < j < |rows| ==> rows[i].id != rows[j].id)
    && (forall r :: r in rows ==> r.id in table && r.id in ids && r.content == table[r.id])
    && (forall id :: id in ids && id in table ==> Row(id, table[id]) in rows)
  }

  /** The ids that go on: all of them when the counts agree, else those that were found. */
  function FoundIds<P>(ids: seq<Id>, profiles: seq<Row<P>>): seq<Id> {
    if |profiles| == |ids| then ids else Keep(ids, ById(profiles).Keys)
  }

  /** Each found profile with its settings; a failing subscript is a KeyError. */
  function Answers<P, S>(found: seq<Id>, profiles: map<Id, P>, settings: map<Id, S>): Result<seq<(P, S)>, BatchError> {
    if found == [] then Ok([])
    else if found[0] !in profiles || found[0] !in settings then Err(MissingKey)
    else
      var rest := Answers(found[1..], profiles, settings);
      if rest.Err? then rest else Ok([(profiles[found[0]], settings[found[0]])] + rest.value)
  }

  /** The handler, given what the two readers returned. */
  function Handle<P, S>(ids: seq<Id>, profiles: seq<Row<P>>, settings: seq<Row<S>>): Result<seq<(P, S)>, BatchError> {
    if profiles == [] then Ok([]) else
      var found := FoundIds(ids, profiles);
      if |ById(settings)| != |found| then Err(SettingsNotFound)
      else Answers(found, ById(profiles), ById(settings))
  }

  predicate Distinct(ids: seq<Id>) {
    forall i, j :: 0 <= i < j < |ids| ==> ids[i] != ids[j]
  }

  /** Deduplication keeps every id once. */
  lemma {:induction false} DedupIsDistinct(ids: seq<Id>)
    ensures Distinct(Dedup(ids))
    ensures forall id :: id in Dedup(ids) <==> id in ids
  {
    if ids != [] {
      DedupIsDistinct(ids[..|ids| - 1]);
      assert ids == ids[..|ids| - 1] + [ids[|ids| - 1]];
    }
  }

  /** Where an id occurs first; past the end if it does not occur. */
  function FirstIndex(ids: seq<Id>, id: Id): (i: nat)
    ensures i <= |ids| && (i < |ids| <==> id in ids) && (i < |ids| ==> ids[i] == id)
    ensures forall j :: 0 <= j < i ==> ids[j] != id
  {
    if ids == [] then 0 else if ids[0] == id then 0 else 1 + FirstIndex(ids[1..], id)
  }

  lemma FirstIndexOfPrefix(init: seq<Id>, last: Id, id: Id)
    ensures id in init ==> FirstIndex(init + [last], id) == FirstIndex(init, id)
    ensures id !in init ==> FirstIndex(init + [last], id) >= |init|
  {
    var i, k := FirstIndex(init, id), FirstIndex(init + [last], id);
    assert forall j :: 0 <= j < |init| ==> (init + [last])[j] == init[j];
  }

  /** And it keeps the order of first occurrence. */
  lemma {:induction false} DedupKeepsFirstOrder(ids: seq<Id>, i: nat, j: nat)
    requires i < j < |Dedup(ids)|
    ensures FirstIndex(ids, Dedup(ids)[i]) < FirstIndex(ids, Dedup(ids)[j]) < |ids|
  {
    DedupIsDistinct(ids);
    var init, last := ids[..|ids| - 1], ids[|ids| - 1];
    assert ids == init + [last];
    DedupIsDistinct(init);
    if j < |Dedup(init)| {
      DedupKeepsFirstOrder(init, i, j);
    }
    FirstIndexOfPrefix(init, last, Dedup(ids)[i]);
    FirstIndexOfPrefix(init, last, Dedup(ids)[j]);
  }

  function IdSet(ids: seq<Id>): (s: set<Id>)
    ensures forall id :: id in s <==> id in ids
  {
    set id | id in ids
  }

  lemma {:induction false} DistinctCount(ids: seq<Id>)
    requires Distinct(ids)
    ensures |IdSet(ids)| == |ids|
  {
    if ids != [] {
      var init, last := ids[..|ids| - 1], ids[|ids| - 1];
      assert ids == init + [last];
      DistinctCount(init);
      assert IdSet(ids) == IdSet(init) + {last};
    }
  }

  lemma {:induction false} RowCount<T>(rows: seq<Row<T>>)
    requires forall i, j :: 0 <= i < j < |rows| ==> rows[i].id != rows[j].id
    ensures |IdsOf(rows)| == |rows| && |ById(rows)| == |rows|
  {
    IdCount(rows);
    assert ById(rows).Keys == IdsOf(rows);
    assert |ById(rows)| == |ById(rows).Keys|;
  }

  lemma {:induction false} IdCount<T>(rows: seq<Row<T>>)
    requires forall i, j :: 0 <= i < j < |rows| ==> rows[i].id != rows[j].id
    ensures |IdsOf(rows)| == |rows|
  {
    if rows != [] {
      var init, last := rows[..|rows| - 1], rows[|rows| - 1];
      IdCount(init);
      assert IdsOf(rows) == IdsOf(init) + {last.id};
    }
  }

  lemma KeepAll(ids: seq<Id>, present: set<Id>)
    requires forall id :: id in ids ==> id in present
    ensures Keep(ids, present) == ids
  {
    if ids != [] {
      KeepAll(ids[1..], present);
    }
  }

  lemma {:induction false} KeepIsFilter(ids: seq<Id>, present: set<Id>)
    requires Distinct(ids)
    ensures Distinct(Keep(ids, present))
    ensures forall id :: id in Keep(ids, present) <==> id in ids && id in present
  {
    if ids != [] {
      KeepIsFilter(ids[1..], present);
      assert ids == [ids[0]] + ids[1..];
    }
  }

  lemma SubsetOfSameSize(a: set<Id>, b: set<Id>)
    requires a <= b && |a| == |b|
    ensures a == b
  {
    assert |b - a| == |b| - |a|;
  }

  lemma KeepDependsOnMembership(ids: seq<Id>, a: set<Id>, b: set<Id>)
    requires forall id :: id in ids ==> (id in a <==> id in b)
    ensures Keep(ids, a) == Keep(ids, b)
  {
    if ids != [] {
      KeepDependsOnMembership(ids[1..], a, b);
    }
  }

  /** With or without the shortcut, the found ids are the requested ids that exist, in request order. */
  lemma {:induction false} ShortcutIsTheFilter<P>(ids: seq<Id>, table: map<Id, P>, profiles: seq<Row<P>>)
    requires Distinct(ids) && Reads(profiles, table, ids)
    ensures FoundIds(ids, profiles) == Keep(ids, table.Keys)
    ensures IdsOf(profiles) == IdSet(ids) * table.Keys
  {
    forall id | id in ids && id in table ensures id in IdsOf(profiles) {
      var i :| 0 <= i < |profiles| && profiles[i] == Row(id, table[id]);
    }
    assert IdsOf(profiles) == IdSet(ids) * table.Keys;
    KeepDependsOnMembership(ids, ById(profiles).Keys, table.Keys);
    if |profiles| == |ids| {
      RowCount(profiles);
      DistinctCount(ids);
      SubsetOfSameSize(IdsOf(profiles), IdSet(ids));
      KeepAll(ids, table.Keys);
    }
  }

  lemma ReadsById<T>(rows: seq<Row<T>>, table: map<Id, T>, ids: seq<Id>)
    requires Reads(rows, table, ids)
    ensures forall id :: id in IdsOf(rows) ==> id in table && ById(rows)[id] == table[id]
  {
    forall id | id in IdsOf(rows) ensures id in table && ById(rows)[id] == table[id] {
      assert Row(id, ById(rows)[id]) in rows;
    }
  }

  /** The pairs of the stored profiles and settings of some ids. */
  function Pairs<P, S>(ids: seq<Id>, profiles: map<Id, P>, settings: map<Id, S>): seq<(P, S)>
    requires forall id :: id in ids ==> id in profiles && id in settings
  {
    seq(|ids|, i requires 0 <= i < |ids| => (profiles[ids[i]], settings[ids[i]]))
  }

  lemma {:induction false} AnswersArePairs<P, S>(found: seq<Id>, profiles: map<Id, P>, settings: map<Id, S>,
                                                 p: map<Id, P>, s: map<Id, S>)
    requires forall id :: id in found ==> id in p && id in profiles && p[id] == profiles[id]
    requires forall id :: id in found ==> id in s && id in settings && s[id] == settings[id]
    ensures Answers(found, p, s) == Ok(Pairs(found, profiles, settings))
  {
    if found != [] {
      AnswersArePairs(found[1..], profiles, settings, p, s);
      assert Pairs(found, profiles, settings) == [(p[found[0]], s[found[0]])] + Pairs(found[1..], profiles, settings);
    }
  }

  /** The counts agree exactly when every found profile has settings. */
  lemma CountsTellMissingSettings<S>(found: seq<Id>, settings: map<Id, S>, rows: seq<Row<S>>)
    requires Distinct(found) && Reads(rows, settings, found)
    ensures |ById(rows)| == |found| <==> forall id :: id in found ==> id in settings
  {
    ShortcutIsTheFilter(found, settings, rows);
    RowCount(rows);
    DistinctCount(found);
    if |IdsOf(rows)| == |found| {
      SubsetOfSameSize(IdsOf(rows), IdSet(found));
    } else {
      assert IdsOf(rows) != IdSet(found);
    }
  }

  lemma NoRowsNothingFound<P>(ids: seq<Id>, table: map<Id, P>, rows: seq<Row<P>>)
    requires Distinct(ids) && Reads(rows, table, ids)
    ensures rows == [] <==> Keep(ids, table.Keys) == []
  {
    ShortcutIsTheFilter(ids, table, rows);
    KeepIsFilter(ids, table.Keys);
    if rows == [] {
      assert forall id :: id in Keep(ids, table.Keys) ==> id in IdsOf(rows);
    } else {
      assert rows[0].id in IdsOf(rows);
    }
  }

  /**
   For every request list and whatever order the storage returns rows in: the answer is the requested profiles
   that exist, in order of first occurrence, each with its settings; and the count comparison reports missing
   settings exactly when some found profile has none. No subscript ever fails.
   */
  lemma {:induction false} BatchIsTheOrderedFilter<P, S>(request: seq<Id>, profiles: map<Id, P>, settings: map<Id, S>,
                                      profileRows: seq<Row<P>>, settingsRows: seq<Row<S>>)
    requires Reads(profileRows, profiles, Dedup(request))
    requires Reads(settingsRows, settings, FoundIds(Dedup(request), profileRows))
    ensures var found := Keep(Dedup(request), profiles.Keys);
            && (forall id :: id in found ==> id in profiles)
            && Handle(Dedup(request), profileRows, settingsRows) ==
               if forall id :: id in found ==> id in settings then Ok(Pairs(found, profiles, settings))
               else Err(SettingsNotFound)
  {
    var ids := Dedup(request);
    DedupIsDistinct(request);
    ShortcutIsTheFilter(ids, profiles, profileRows);
    NoRowsNothingFound(ids, profiles, profileRows);
    var found := Keep(ids, profiles.Keys);
    KeepIsFilter(ids, profiles.Keys);
    CountsTellMissingSettings(found, settings, settingsRows);
    if forall id :: id in found ==> id in settings {
      FoundHaveRows(ids, profiles, profileRows, found);
      ShortcutIsTheFilter(found, settings, settingsRows);
      FoundHaveRows(found, settings, settingsRows, found);
      AnswersArePairs(found, profiles, settings, ById(profileRows), ById(settingsRows));
    }
  }

  lemma FoundHaveRows<T>(ids: seq<Id>, table: map<Id, T>, rows: seq<Row<T>>, found: seq<Id>)
    requires Distinct(ids) && Reads(rows, table, ids)
    requires forall id :: id in found ==> id in ids && id in table
    ensures forall id :: id in found ==> id in ById(rows) && ById(rows)[id] == table[id]
  {
    ShortcutIsTheFilter(ids, table, rows);
    ReadsById(rows, table, ids);
  }
}
