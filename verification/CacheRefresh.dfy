/** Bringing the cache in line with the server's list without losing local work. */
module CacheRefresh {
  import opened Wrappers
  import opened Rows
  import opened Outbox

  /** One listed item. `ciphertext` is None where it is absent or empty. */
  datatype Remote = Remote(id: Id, kind: Kind, ciphertext: Option<Id>, byteSize: Option<nat>, createdAt: int, expiresAt: int)

  predicate Usable(item: Remote) { IsNote(item.kind) && item.ciphertext.Some? }

  function AsSynced(item: Remote): Row
    requires Usable(item)
  {
    var byteSize := if item.byteSize.Some? then item.byteSize.value else 0;
    Row(item.id, Content(item.kind, item.ciphertext.value, byteSize), item.createdAt, item.expiresAt, Synced)
  }

  predicate Protected(rows: map<Id, Row>, id: Id) { id in rows && LocalWork(rows[id]) }

  function RemoteIds(remote: seq<Remote>): set<Id> { set item | item in remote :: item.id }

  function DropAbsent(rows: map<Id, Row>, ids: set<Id>): map<Id, Row> {
    map id | id in rows && (LocalWork(rows[id]) || id in ids) :: rows[id]
  }

  /** `rows` after the items from one position on were put; `cached` is the snapshot the walk decides by. */
  function PutRemote(cached: map<Id, Row>, rows: map<Id, Row>, remote: seq<Remote>, from: nat): map<Id, Row>
    requires from <= |remote|
    decreases |remote| - from
  {
    if from == |remote| then rows
    else
      var item := remote[from];
      var put := Usable(item) && !Protected(cached, item.id);
      PutRemote(cached, if put then rows[item.id := AsSynced(item)] else rows, remote, from + 1)
  }

  function UpsertSynced(rows: map<Id, Row>, remote: seq<Remote>): map<Id, Row> {
    PutRemote(rows, DropAbsent(rows, RemoteIds(remote)), remote, 0)
  }

  method UpsertSyncedFromRemote(cache: ItemCache, order: seq<Id>, remote: seq<Remote>)
    requires Lists(order, cache.rows)
    modifies cache`rows
    ensures cache.rows == UpsertSynced(old(cache.rows), remote)
  {
    var remoteIds := RemoteIds(remote);
    var cached := cache.rows;
    for i := 0 to |order|
      invariant cache.rows.Keys <= cached.Keys && forall id | id in cache.rows :: cache.rows[id] == cached[id]
      invariant forall j | 0 <= j < |order| ::
                  order[j] in cache.rows <==> i <= j || LocalWork(cached[order[j]]) || order[j] in remoteIds
    {
      var id := order[i];
      if cached[id].state.Synced? && id !in remoteIds {
        cache.rows := cache.rows - {id};
      }
    }
    assert cache.rows == DropAbsent(cached, remoteIds);
    for i := 0 to |remote|
      invariant PutRemote(cached, cache.rows, remote, i) == UpsertSynced(cached, remote)
    {
      var item := remote[i];
      if !IsNote(item.kind) || item.ciphertext.None? {
        continue;
      }
      if item.id in cached && !cached[item.id].state.Synced? {
        continue;
      }
      cache.rows := cache.rows[item.id := AsSynced(item)];
    }
  }

  /** The last usable entry for an id in a list. */
  function LastUsable(remote: seq<Remote>, id: Id): (last: Option<Remote>)
    ensures last.Some? ==> last.value in remote && Usable(last.value) && last.value.id == id
    ensures last.None? ==> forall item | item in remote && (item.kind.Text? || item.kind.Link?) && item.ciphertext.Some? :: item.id != id
  {
    if remote == [] then None
    else
      var end := remote[|remote| - 1];
      assert remote == remote[..|remote| - 1] + [end];
      if Usable(end) && end.id == id then Some(end) else LastUsable(remote[..|remote| - 1], id)
  }

  lemma {:induction false} LastUsableFrom(remote: seq<Remote>, from: nat, id: Id)
    requires from < |remote|
    ensures LastUsable(remote[from..], id) ==
            if LastUsable(remote[from + 1..], id).Some? then LastUsable(remote[from + 1..], id)
            else if Usable(remote[from]) && remote[from].id == id then Some(remote[from]) else None
    decreases |remote|
  {
    var front, tail, end := remote[..|remote| - 1], remote[from..], remote[|remote| - 1];
    assert tail[..|tail| - 1] == front[from..] && tail[|tail| - 1] == end;
    if from + 1 < |remote| {
      assert remote[from + 1..][..|tail| - 2] == front[from + 1..];
      LastUsableFrom(front, from, id);
    }
  }

  lemma {:induction false} PutRemoteAt(cached: map<Id, Row>, rows: map<Id, Row>, remote: seq<Remote>, from: nat, id: Id)
    requires from <= |remote|
    ensures var after, last := PutRemote(cached, rows, remote, from), LastUsable(remote[from..], id);
            if Protected(cached, id) || last.None? then (id in after <==> id in rows) && (id in rows ==> after[id] == rows[id])
            else id in after && after[id] == AsSynced(last.value)
    decreases |remote| - from
  {
    if from < |remote| {
      var item := remote[from];
      var put := Usable(item) && !Protected(cached, item.id);
      PutRemoteAt(cached, if put then rows[item.id := AsSynced(item)] else rows, remote, from + 1, id);
      LastUsableFrom(remote, from, id);
    }
  }

  /**
   * Row by row, exactly: local work is untouched; any other id gets the last usable entry of the list; without one, a
   * synced row stays if the list names its id and goes if it does not.
   */
  lemma UpsertExactly(rows: map<Id, Row>, remote: seq<Remote>, id: Id)
    ensures var after, last := UpsertSynced(rows, remote), LastUsable(remote, id);
            && (Protected(rows, id) ==> id in after && after[id] == rows[id])
            && (!Protected(rows, id) && last.Some? ==>
                  var item := last.value;
                  && (item.kind.Text? || item.kind.Link?) && item.ciphertext.Some? && id in after
                  && after[id] == Row(id, Content(item.kind, item.ciphertext.value, if item.byteSize.Some? then item.byteSize.value else 0),
                                      item.createdAt, item.expiresAt, Synced))
            && (!Protected(rows, id) && last.None? ==>
                  && (id in after <==> id in rows && id in RemoteIds(remote))
                  && (id in after ==> after[id] == rows[id]))
  {
    PutRemoteAt(rows, DropAbsent(rows, RemoteIds(remote)), remote, 0, id);
    assert remote[0..] == remote;
  }

  function Kept(rows: map<Id, Row>, now: int, keepExpired: bool): map<Id, Row> {
    map id | id in rows && (keepExpired || rows[id].expiresAt > now) :: rows[id]
  }

  lemma KeepIds(rows: map<Id, Row>, order: seq<Id>, now: int)
    requires Lists(order, rows) && forall id | id in rows :: rows[id].id == id
    ensures forall id | id in rows ::
              id in (set row | row in Filter(Listed(rows, order), (row: Row) => row.expiresAt > now) :: row.id) <==> rows[id].expiresAt > now
  {
    var all, live := Listed(rows, order), (row: Row) => row.expiresAt > now;
    FilterMembers(all, live);
    forall id | id in rows && rows[id].expiresAt > now ensures rows[id] in Filter(all, live) {
      var k :| 0 <= k < |order| && order[k] == id;
      assert all[k] == rows[id];
    }
    forall row | row in all ensures row.id in rows && rows[row.id] == row {
      var k :| 0 <= k < |all| && all[k] == row;
      assert order[k] in order;
    }
  }

  method PruneExpiredCachedItems(cache: ItemCache, order: seq<Id>, now: int, keepExpired: bool) returns (keep: seq<Row>)
    requires Lists(order, cache.rows) && forall id | id in cache.rows :: cache.rows[id].id == id
    modifies cache`rows
    ensures cache.rows == Kept(old(cache.rows), now, keepExpired)
    ensures forall id :: id in cache.rows <==> id in old(cache.rows) && (keepExpired || now < old(cache.rows)[id].expiresAt)
    ensures keep == Filter(Listed(old(cache.rows), order), (row: Row) => keepExpired || row.expiresAt > now)
  {
    hide Filter;
    var all := Listed(cache.rows, order);
    if keepExpired {
      FilterAll(all, (row: Row) => keepExpired || row.expiresAt > now);
      assert cache.rows == Kept(cache.rows, now, keepExpired);
      return all;
    }
    keep := Filter(all, (row: Row) => row.expiresAt > now);
    FilterAgrees(all, (row: Row) => row.expiresAt > now, (row: Row) => keepExpired || row.expiresAt > now);
    var keepIds := set row | row in keep :: row.id;
    KeepIds(cache.rows, order, now);
    var cached := cache.rows;
    for i := 0 to |order|
      invariant cache.rows.Keys <= cached.Keys && forall id | id in cache.rows :: cache.rows[id] == cached[id]
      invariant forall j | 0 <= j < |order| :: order[j] in cache.rows <==> i <= j || order[j] in keepIds
    {
      if all[i].id !in keepIds {
        cache.rows := cache.rows - {order[i]};
      }
    }
  }

  /** A refresh and the prune after it lose a row with local work exactly when it has expired and expired rows go. */
  lemma LocalWorkSurvives(rows: map<Id, Row>, remote: seq<Remote>, now: int, keepExpired: bool, id: Id)
    requires Protected(rows, id)
    ensures var after := Kept(UpsertSynced(rows, remote), now, keepExpired);
            (id in after && after[id] == rows[id]) <==> keepExpired || rows[id].expiresAt > now
  {
    UpsertExactly(rows, remote, id);
  }

  /** The same list again changes nothing. */
  lemma UpsertTwice(rows: map<Id, Row>, remote: seq<Remote>)
    ensures UpsertSynced(UpsertSynced(rows, remote), remote) == UpsertSynced(rows, remote)
  {
    var once := UpsertSynced(rows, remote);
    forall id ensures id in UpsertSynced(once, remote) <==> id in once
              ensures id in once ==> UpsertSynced(once, remote)[id] == once[id] {
      UpsertExactly(rows, remote, id);
      UpsertExactly(once, remote, id);
      var last := LastUsable(remote, id);
      assert last.Some? ==> id in RemoteIds(remote);
    }
  }
}
