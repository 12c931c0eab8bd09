/** Rebuilding the list on screen from a fetch without dropping what this browser is still writing. */
module MergeItems {
  import opened Wrappers
  import opened Rows

  /** A row on screen; `fields` are the optional fields it has, by name. */
  datatype Shown = Shown(id: Id, createdAt: int, ephemeral: Option<bool>, fields: map<Id, Id>)

  // ---- a JavaScript Map from ids to rows: its values in insertion order

  predicate Distinct(rows: seq<Shown>) { forall i, j | 0 <= i < j < |rows| :: rows[i].id != rows[j].id }

  function Lookup(rows: seq<Shown>, id: Id): (found: Option<Shown>)
    ensures found.Some? ==> found.value in rows && found.value.id == id
    ensures found.None? ==> forall row | row in rows :: row.id != id
  {
    var at := FirstIndex(rows, (row: Shown) => row.id == id);
    if at < |rows| then Some(rows[at]) else None
  }

  /** Setting a present key keeps its place; a new key goes last. */
  function MapSet(rows: seq<Shown>, row: Shown): seq<Shown> {
    var at := FirstIndex(rows, (entry: Shown) => entry.id == row.id);
    if at < |rows| then rows[at := row] else rows + [row]
  }

  lemma LookupIn(rows: seq<Shown>, row: Shown)
    requires Distinct(rows) && row in rows
    ensures Lookup(rows, row.id) == Some(row)
  {
  }

  lemma MapSetAt(rows: seq<Shown>, row: Shown, id: Id)
    requires Distinct(rows)
    ensures Distinct(MapSet(rows, row))
    ensures Lookup(MapSet(rows, row), id) == if id == row.id then Some(row) else Lookup(rows, id)
  {
    var set' := MapSet(rows, row);
    var at := FirstIndex(rows, (entry: Shown) => entry.id == row.id);
    assert at < |set'| && set'[at] == row && row in set';
    assert Distinct(set');
    if id == row.id {
      LookupIn(set', row);
    } else if Lookup(rows, id).Some? {
      var k := FirstIndex(rows, (entry: Shown) => entry.id == id);
      assert set'[k] == rows[k];
      LookupIn(set', rows[k]);
    } else {
      assert forall k | 0 <= k < |set'| :: set'[k] == row || set'[k] in rows;
    }
  }

  // ---- newest first

  predicate NewestFirst(rows: seq<Shown>) { forall i, j | 0 <= i < j < |rows| :: rows[i].createdAt >= rows[j].createdAt }

  function Insert(row: Shown, sorted: seq<Shown>): seq<Shown> {
    if sorted == [] || sorted[0].createdAt <= row.createdAt then [row] + sorted
    else [sorted[0]] + Insert(row, sorted[1..])
  }

  /** `sort((a, b) => b.createdAt - a.createdAt)`: stable, newest first. */
  function SortNewest(rows: seq<Shown>): seq<Shown> {
    if rows == [] then [] else Insert(rows[0], SortNewest(rows[1..]))
  }

  function AtTime(t: int): Shown -> bool { (row: Shown) => row.createdAt == t }

  /** The rows of one creation time, in order. */
  function Within(rows: seq<Shown>, t: int): seq<Shown> { Filter(rows, AtTime(t)) }

  lemma {:induction false} InsertMembers(row: Shown, sorted: seq<Shown>)
    ensures multiset(Insert(row, sorted)) == multiset(sorted) + multiset{row}
  {
    if !(sorted == [] || sorted[0].createdAt <= row.createdAt) {
      InsertMembers(row, sorted[1..]);
      assert sorted == [sorted[0]] + sorted[1..];
    }
  }

  lemma {:induction false} InsertSorts(row: Shown, sorted: seq<Shown>)
    requires NewestFirst(sorted)
    ensures NewestFirst(Insert(row, sorted))
  {
    if !(sorted == [] || sorted[0].createdAt <= row.createdAt) {
      InsertSorts(row, sorted[1..]);
      var rest := Insert(row, sorted[1..]);
      InsertMembers(row, sorted[1..]);
      forall k | 0 <= k < |rest| ensures rest[k].createdAt <= sorted[0].createdAt {
        assert rest[k] in multiset(rest);
      }
    }
  }

  lemma {:induction false} InsertWithin(row: Shown, sorted: seq<Shown>, t: int)
    requires NewestFirst(sorted)
    ensures Within(Insert(row, sorted), t) == (if row.createdAt == t then [row] else []) + Within(sorted, t)
  {
    if sorted == [] || sorted[0].createdAt <= row.createdAt {
      assert ([row] + sorted)[1..] == sorted;
    } else {
      InsertWithin(row, sorted[1..], t);
      assert ([sorted[0]] + Insert(row, sorted[1..]))[1..] == Insert(row, sorted[1..]);
    }
  }

  lemma {:induction false} SortSorts(rows: seq<Shown>)
    ensures NewestFirst(SortNewest(rows)) && multiset(SortNewest(rows)) == multiset(rows)
  {
    if rows != [] {
      SortSorts(rows[1..]);
      InsertSorts(rows[0], SortNewest(rows[1..]));
      InsertMembers(rows[0], SortNewest(rows[1..]));
      assert rows == [rows[0]] + rows[1..];
    }
  }

  lemma {:induction false} SortIsStable(rows: seq<Shown>, t: int)
    ensures Within(SortNewest(rows), t) == Within(rows, t)
  {
    if rows != [] {
      SortIsStable(rows[1..], t);
      SortSorts(rows[1..]);
      InsertWithin(rows[0], SortNewest(rows[1..]), t);
    }
  }

  /** There is one newest-first order with given rows at each time, so the sort's result is fixed by stability. */
  lemma {:induction false} SortIsUnique(a: seq<Shown>, b: seq<Shown>)
    requires NewestFirst(a) && NewestFirst(b) && forall t :: Within(a, t) == Within(b, t)
    ensures a == b
    decreases |a| + |b|
  {
    if a != [] {
      assert Within(a, a[0].createdAt)[0] == a[0];
      FilterMembers(b, AtTime(a[0].createdAt));
      assert a[0] in Within(b, a[0].createdAt);
    }
    if b != [] {
      assert Within(b, b[0].createdAt)[0] == b[0];
      FilterMembers(a, AtTime(b[0].createdAt));
      assert b[0] in Within(a, b[0].createdAt);
    }
    if a != [] {
      HeadsAgree(a, b);
      forall t ensures Within(a[1..], t) == Within(b[1..], t) {
        assert Within(a, t) == Within(b, t);
        if t == a[0].createdAt {
          assert Within(a, t)[1..] == Within(a[1..], t) && Within(b, t)[1..] == Within(b[1..], t);
        }
      }
      SortIsUnique(a[1..], b[1..]);
      assert a == [a[0]] + a[1..] && b == [b[0]] + b[1..];
    }
  }

  lemma HeadsAgree(a: seq<Shown>, b: seq<Shown>)
    requires NewestFirst(a) && NewestFirst(b) && a != [] && b != [] && forall t :: Within(a, t) == Within(b, t)
    ensures a[0] == b[0]
  {
    var s, t := a[0].createdAt, b[0].createdAt;
    assert Within(a, s)[0] == a[0] && Within(b, t)[0] == b[0];
    FilterMembers(b, AtTime(s));
    FilterMembers(a, AtTime(t));
    assert a[0] in Within(b, s) && b[0] in Within(a, t);
  }

  // ---- the merge

  function AddOpened(rows: seq<Shown>, fetched: seq<Shown>, tombstones: set<Id>, from: nat): seq<Shown>
    requires from <= |fetched|
    decreases |fetched| - from
  {
    if from == |fetched| then rows
    else
      var row := fetched[from];
      AddOpened(if row.id in tombstones then rows else MapSet(rows, row), fetched, tombstones, from + 1)
  }

  predicate InFlight(row: Shown, pending: set<Id>) { row.ephemeral == Some(true) || row.id in pending }

  function AddCurrent(rows: seq<Shown>, current: seq<Shown>, tombstones: set<Id>, pending: set<Id>, from: nat): seq<Shown>
    requires from <= |current|
    decreases |current| - from
  {
    if from == |current| then rows
    else
      var row := current[from];
      var keep := row.id !in tombstones && Lookup(rows, row.id).None? && InFlight(row, pending);
      AddCurrent(if keep then rows + [row] else rows, current, tombstones, pending, from + 1)
  }

  function Merged(current: seq<Shown>, fetched: seq<Shown>, tombstones: set<Id>, pending: set<Id>): seq<Shown> {
    AddCurrent(AddOpened([], fetched, tombstones, 0), current, tombstones, pending, 0)
  }

  method MergeRemoteItems(current: seq<Shown>, fetched: seq<Shown>, tombstones: set<Id>, pending: set<Id>) returns (rows: seq<Shown>)
    ensures rows == SortNewest(Merged(current, fetched, tombstones, pending))
  {
    rows := [];
    for i := 0 to |fetched|
      invariant AddOpened(rows, fetched, tombstones, i) == AddOpened([], fetched, tombstones, 0)
    {
      if fetched[i].id !in tombstones {
        rows := MapSet(rows, fetched[i]);
      }
    }
    for i := 0 to |current|
      invariant AddCurrent(rows, current, tombstones, pending, i) == Merged(current, fetched, tombstones, pending)
    {
      var row := current[i];
      if row.id in tombstones || Lookup(rows, row.id).Some? {
        continue;
      }
      if row.ephemeral == Some(true) || row.id in pending {
        rows := rows + [row];
      }
    }
    rows := SortNewest(rows);
  }

  /** The last fetched row of an id. */
  function LastOf(rows: seq<Shown>, id: Id): (last: Option<Shown>)
    ensures last.Some? ==> last.value in rows && last.value.id == id
    ensures last.None? ==> forall row | row in rows :: row.id != id
  {
    if rows == [] then None
    else
      var rest := LastOf(rows[1..], id);
      assert rows == [rows[0]] + rows[1..];
      if rest.Some? then rest else if rows[0].id == id then Some(rows[0]) else None
  }

  /** The first row of an id that is in flight. */
  function FirstInFlight(rows: seq<Shown>, pending: set<Id>, id: Id): Option<Shown> {
    var at := FirstIndex(rows, (row: Shown) => row.id == id && (row.ephemeral == Some(true) || row.id in pending));
    if at < |rows| then Some(rows[at]) else None
  }

  lemma {:induction false} AddOpenedAt(rows: seq<Shown>, fetched: seq<Shown>, tombstones: set<Id>, from: nat, id: Id)
    requires Distinct(rows) && from <= |fetched|
    ensures var after, last := AddOpened(rows, fetched, tombstones, from), LastOf(fetched[from..], id);
            && Distinct(after)
            && Lookup(after, id) == if id in tombstones || last.None? then Lookup(rows, id) else last
    decreases |fetched| - from
  {
    if from < |fetched| {
      var row := fetched[from];
      assert fetched[from..][1..] == fetched[from + 1..] && fetched[from..][0] == row;
      MapSetAt(rows, row, id);
      AddOpenedAt(if row.id in tombstones then rows else MapSet(rows, row), fetched, tombstones, from + 1, id);
    }
  }

  lemma AppendAt(rows: seq<Shown>, row: Shown, id: Id)
    requires Distinct(rows) && Lookup(rows, row.id).None?
    ensures Distinct(rows + [row])
    ensures Lookup(rows + [row], id) == if id == row.id then Some(row) else Lookup(rows, id)
  {
    MapSetAt(rows, row, id);
    assert MapSet(rows, row) == rows + [row];
  }

  lemma FirstInFlightFrom(current: seq<Shown>, pending: set<Id>, from: nat, id: Id)
    requires from < |current|
    ensures FirstInFlight(current[from..], pending, id) ==
            if current[from].id == id && InFlight(current[from], pending) then Some(current[from])
            else FirstInFlight(current[from + 1..], pending, id)
  {
    assert current[from..][1..] == current[from + 1..] && current[from..][0] == current[from];
  }

  lemma {:induction false} AddCurrentAt(rows: seq<Shown>, current: seq<Shown>, tombstones: set<Id>, pending: set<Id>, from: nat, id: Id)
    requires Distinct(rows) && from <= |current|
    ensures var after := AddCurrent(rows, current, tombstones, pending, from);
            && Distinct(after)
            && Lookup(after, id) == if Lookup(rows, id).Some? || id in tombstones then Lookup(rows, id)
                                    else FirstInFlight(current[from..], pending, id)
    decreases |current| - from
  {
    if from < |current| {
      var row := current[from];
      FirstInFlightFrom(current, pending, from, id);
      hide FirstInFlight, Lookup, Distinct;
      var keep := row.id !in tombstones && Lookup(rows, row.id).None? && InFlight(row, pending);
      if keep {
        AppendAt(rows, row, id);
      }
      AddCurrentAt(if keep then rows + [row] else rows, current, tombstones, pending, from + 1, id);
    }
  }

  /**
   * Exactly what is shown after a merge: per id at most one row, tombstoned ids none, else the last fetched row, else
   * the first current row that is ephemeral or pending; newest first.
   */
  lemma MergeExactly(current: seq<Shown>, fetched: seq<Shown>, tombstones: set<Id>, pending: set<Id>, row: Shown)
    ensures var shown := SortNewest(Merged(current, fetched, tombstones, pending));
            && Distinct(shown) && NewestFirst(shown)
            && (row in shown <==>
                  row.id !in tombstones
                  && Some(row) == if LastOf(fetched, row.id).Some? then LastOf(fetched, row.id)
                                  else FirstInFlight(current, pending, row.id))
  {
    var merged := Merged(current, fetched, tombstones, pending);
    AddOpenedAt([], fetched, tombstones, 0, row.id);
    AddCurrentAt(AddOpened([], fetched, tombstones, 0), current, tombstones, pending, 0, row.id);
    assert fetched[0..] == fetched && current[0..] == current;
    SortSorts(merged);
    DistinctByCount(merged, SortNewest(merged));
    assert row in SortNewest(merged) <==> row in multiset(merged);
    if row in merged {
      LookupIn(merged, row);
    }
  }

  lemma DistinctByCount(a: seq<Shown>, b: seq<Shown>)
    requires Distinct(a) && multiset(a) == multiset(b)
    ensures Distinct(b)
  {
    forall i, j | 0 <= i < j < |b| && b[i].id == b[j].id ensures false {
      assert b[i] in multiset(a) && b[j] in multiset(a);
      LookupIn(a, b[i]);
      LookupIn(a, b[j]);
      assert b == b[..i] + [b[i]] + b[i + 1..j] + [b[j]] + b[j + 1..];
      assert multiset(b)[b[i]] >= 2;
      CountedOnce(a, b[i]);
    }
  }

  lemma {:induction false} CountedOnce(rows: seq<Shown>, row: Shown)
    requires Distinct(rows)
    ensures multiset(rows)[row] <= 1
  {
    if rows != [] {
      assert rows == [rows[0]] + rows[1..];
      CountedOnce(rows[1..], row);
      assert rows[0] !in rows[1..] by {
        assert forall k | 0 <= k < |rows[1..]| :: rows[1..][k] == rows[k + 1] && rows[k + 1].id != rows[0].id;
      }
      assert multiset(rows) == multiset{rows[0]} + multiset(rows[1..]) && rows[0] !in multiset(rows[1..]);
    }
  }

  // ---- merging the same fetch again

  predicate Extra(base: seq<Shown>, row: Shown, tombstones: set<Id>, pending: set<Id>) {
    row.id !in tombstones && Lookup(base, row.id).None? && InFlight(row, pending)
  }

  function Extras(base: seq<Shown>, tombstones: set<Id>, pending: set<Id>): Shown -> bool {
    (row: Shown) => Extra(base, row, tombstones, pending)
  }

  lemma {:induction false} AddCurrentExtends(base: seq<Shown>, rows: seq<Shown>, current: seq<Shown>, tombstones: set<Id>, pending: set<Id>, from: nat)
    requires from <= |current| && |base| <= |rows| && rows[..|base|] == base
    requires forall k | |base| <= k < |rows| :: Extra(base, rows[k], tombstones, pending)
    ensures var after := AddCurrent(rows, current, tombstones, pending, from);
            |base| <= |after| && after[..|base|] == base
            && forall k | |base| <= k < |after| :: Extra(base, after[k], tombstones, pending)
    decreases |current| - from
  {
    if from < |current| {
      var row := current[from];
      var keep := row.id !in tombstones && Lookup(rows, row.id).None? && InFlight(row, pending);
      if keep {
        assert forall entry | entry in base :: entry in rows;
      }
      AddCurrentExtends(base, if keep then rows + [row] else rows, current, tombstones, pending, from + 1);
    }
  }

  lemma FilterFrom(rows: seq<Shown>, keep: Shown -> bool, from: nat)
    requires from < |rows|
    ensures Filter(rows[from..], keep) == (if keep(rows[from]) then [rows[from]] else []) + Filter(rows[from + 1..], keep)
  {
    assert rows[from..][1..] == rows[from + 1..] && rows[from..][0] == rows[from];
  }

  lemma {:induction false} AddCurrentFilters(base: seq<Shown>, rows: seq<Shown>, current: seq<Shown>, tombstones: set<Id>, pending: set<Id>, from: nat)
    requires from <= |current| && Distinct(current) && Distinct(rows)
    requires forall k | from <= k < |current| :: Lookup(rows, current[k].id).None? <==> Lookup(base, current[k].id).None?
    ensures AddCurrent(rows, current, tombstones, pending, from)
            == rows + Filter(current[from..], Extras(base, tombstones, pending))
    decreases |current| - from
  {
    if from < |current| {
      var row := current[from];
      var extra := Extras(base, tombstones, pending);
      FilterFrom(current, extra, from);
      assert Lookup(rows, current[from].id).None? <==> Lookup(base, current[from].id).None?;
      hide Filter, Lookup;
      if Extra(base, row, tombstones, pending) {
        forall k | from < k < |current| ensures Lookup(rows + [row], current[k].id) == Lookup(rows, current[k].id) {
          AppendAt(rows, row, current[k].id);
        }
        AppendAt(rows, row, row.id);
        assert forall k | from < k < |current| :: current[k].id != row.id;
        AddCurrentFilters(base, rows + [row], current, tombstones, pending, from + 1);
        assert (rows + [row]) + Filter(current[from + 1..], extra) == rows + ([row] + Filter(current[from + 1..], extra));
      } else {
        AddCurrentFilters(base, rows, current, tombstones, pending, from + 1);
      }
    }
  }

  lemma WithinOfExtras(base: seq<Shown>, extras: seq<Shown>, sorted: seq<Shown>, tombstones: set<Id>, pending: set<Id>, t: int)
    requires forall row | row in extras :: Extra(base, row, tombstones, pending)
    requires Within(sorted, t) == Within(base + extras, t)
    ensures Within(Filter(sorted, Extras(base, tombstones, pending)), t) == Within(extras, t)
  {
    var extra := Extras(base, tombstones, pending);
    var atT := (row: Shown) => row.createdAt == t;
    FilterCommutes(sorted, extra, atT);
    assert Filter(Filter(sorted, extra), atT) == Filter(Within(sorted, t), extra);
    FilterAppend(base, extras, atT);
    FilterAppend(Within(base, t), Within(extras, t), extra);
    FilterMembers(base, atT);
    FilterMembers(extras, atT);
    FilterNone(Within(base, t), extra);
    FilterAll(Within(extras, t), extra);
  }

  /** Merging the same fetch into the result again changes nothing. */
  lemma MergeTwice(current: seq<Shown>, fetched: seq<Shown>, tombstones: set<Id>, pending: set<Id>)
    ensures var shown := SortNewest(Merged(current, fetched, tombstones, pending));
            SortNewest(Merged(shown, fetched, tombstones, pending)) == shown
  {
    hide Distinct, Filter, AddCurrent, AddOpened, SortNewest;
    var base := AddOpened([], fetched, tombstones, 0);
    var first := Merged(current, fetched, tombstones, pending);
    var shown := SortNewest(first);
    var again := Merged(shown, fetched, tombstones, pending);
    MergeDistinct(current, fetched, tombstones, pending);
    AddCurrentExtends(base, base, current, tombstones, pending, 0);
    var extras := first[|base|..];
    assert first == base + extras;
    assert forall row | row in extras :: Extra(base, row, tombstones, pending);
    AddCurrentFilters(base, base, shown, tombstones, pending, 0);
    assert shown[0..] == shown;
    var kept := Filter(shown, Extras(base, tombstones, pending));
    assert again == base + kept;
    forall t ensures Within(SortNewest(again), t) == Within(shown, t) {
      SortIsStable(first, t);
      SortIsStable(again, t);
      WithinOfExtras(base, extras, shown, tombstones, pending, t);
      FilterAppend(base, extras, AtTime(t));
      FilterAppend(base, kept, AtTime(t));
    }
    SortSorts(first);
    SortSorts(again);
    SortIsUnique(SortNewest(again), shown);
  }

  lemma MergeDistinct(current: seq<Shown>, fetched: seq<Shown>, tombstones: set<Id>, pending: set<Id>)
    ensures Distinct(AddOpened([], fetched, tombstones, 0))
    ensures Distinct(SortNewest(Merged(current, fetched, tombstones, pending)))
  {
    var merged := Merged(current, fetched, tombstones, pending);
    AddOpenedAt([], fetched, tombstones, 0, 0);
    AddCurrentAt(AddOpened([], fetched, tombstones, 0), current, tombstones, pending, 0, 0);
    SortSorts(merged);
    DistinctByCount(merged, SortNewest(merged));
  }

  // ---- one row, and the pending set

  /** `{ ...entry, ...row }`: what the new row does not have stays as it was. */
  function Spread(entry: Shown, row: Shown): Shown {
    Shown(row.id, row.createdAt, if row.ephemeral.Some? then row.ephemeral else entry.ephemeral, entry.fields + row.fields)
  }

  function Replaced(current: seq<Shown>, row: Shown): seq<Shown> {
    Map(current, (entry: Shown) => if entry.id == row.id then Spread(entry, row) else entry)
  }

  function ReplaceAndSort(current: seq<Shown>, row: Shown): seq<Shown> {
    SortNewest(if Lookup(current, row.id).Some? then Replaced(current, row) else [row] + current)
  }

  lemma ReplacedMembers(current: seq<Shown>, row: Shown, other: Shown)
    requires Distinct(current) && Lookup(current, row.id).Some?
    ensures Distinct(Replaced(current, row))
    ensures other in Replaced(current, row)
            <==> other == Spread(Lookup(current, row.id).value, row) || (other.id != row.id && other in current)
  {
    var replaced, k := Replaced(current, row), FirstIndex(current, (entry: Shown) => entry.id == row.id);
    assert forall i | 0 <= i < |current| && current[i].id == row.id :: i == k;
    assert replaced[k] == Spread(current[k], row);
    if other in current && other.id != row.id {
      var i :| 0 <= i < |current| && current[i] == other;
      assert replaced[i] == other;
    }
  }

  lemma SortedMembers(rows: seq<Shown>, other: Shown)
    requires Distinct(rows)
    ensures Distinct(SortNewest(rows)) && NewestFirst(SortNewest(rows)) && (other in SortNewest(rows) <==> other in rows)
  {
    SortSorts(rows);
    DistinctByCount(rows, SortNewest(rows));
    hide SortNewest;
    assert other in SortNewest(rows) <==> other in multiset(SortNewest(rows));
  }

  /**
   * The new row is spread over the one of its id, keeping the fields it does not have itself, or joins; everything else
   * stays; newest first.
   */
  lemma ReplaceExactly(current: seq<Shown>, row: Shown, other: Shown)
    requires Distinct(current)
    ensures var after, was := ReplaceAndSort(current, row), Lookup(current, row.id);
            var placed := if was.Some? then Spread(was.value, row) else row;
            && Distinct(after) && NewestFirst(after)
            && (other in after <==> other == placed || (other.id != row.id && other in current))
            && placed.id == row.id && placed.createdAt == row.createdAt
            && (was.Some? ==>
                  && placed.ephemeral == (if row.ephemeral.Some? then row.ephemeral else was.value.ephemeral)
                  && forall f :: (f in placed.fields <==> f in row.fields || f in was.value.fields)
                       && (f in placed.fields ==> placed.fields[f] == if f in row.fields then row.fields[f] else was.value.fields[f]))
  {
    hide SortNewest, Replaced;
    if Lookup(current, row.id).Some? {
      ReplacedMembers(current, row, other);
      SortedMembers(Replaced(current, row), other);
    } else {
      SortedMembers([row] + current, other);
    }
  }

  method NextPendingIds(previous: seq<Id>, shownIds: seq<Id>, cachedUnsynced: seq<Id>) returns (next: set<Id>)
    ensures forall id :: id in next <==> id in cachedUnsynced || (id in previous && id in shownIds)
  {
    var shown := set id | id in shownIds;
    next := set id | id in cachedUnsynced;
    for i := 0 to |previous|
      invariant forall id :: id in next <==> id in cachedUnsynced || (id in previous[..i] && id in shownIds)
    {
      if previous[i] in shown {
        next := next + {previous[i]};
      }
    }
    assert previous[..|previous|] == previous;
  }

  /** A refresh that rebuilds the pending set keeps on screen every row being written, unless fetched or tombstoned. */
  lemma InFlightStaysOnScreen(current: seq<Shown>, fetched: seq<Shown>, tombstones: set<Id>, previous: set<Id>, cachedUnsynced: set<Id>, row: Shown)
    requires Distinct(current) && row in current && row.id !in tombstones
    requires row.id in previous || row.id in cachedUnsynced || row.ephemeral == Some(true)
    ensures var pending := cachedUnsynced + (set id | id in previous && Lookup(current, id).Some?);
            var shown := SortNewest(Merged(current, fetched, tombstones, pending));
            Lookup(shown, row.id) == if LastOf(fetched, row.id).Some? then LastOf(fetched, row.id) else Some(row)
  {
    var pending := cachedUnsynced + (set id | id in previous && Lookup(current, id).Some?);
    var expected := if LastOf(fetched, row.id).Some? then LastOf(fetched, row.id).value else row;
    LookupIn(current, row);
    assert FirstInFlight(current, pending, row.id) == Some(row);
    MergeExactly(current, fetched, tombstones, pending, expected);
    LookupIn(SortNewest(Merged(current, fetched, tombstones, pending)), expected);
  }
}
