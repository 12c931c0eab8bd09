/** The offline outbox: cached rows, the server's notes, and the requests between them that the network may lose. */
module Outbox {
  import opened Wrappers
  import opened Rows

  const NOT_FOUND := 404

  datatype RowState = Queued | Held | Synced | Dirty

  /** What a row and a note must agree on. `body` stands for the ciphertext, metadata and iv. */
  datatype Content = Content(kind: Kind, body: Id, byteSize: nat)

  datatype Row = Row(id: Id, content: Content, createdAt: int, expiresAt: int, state: RowState)

  datatype Note = Note(content: Content, expiresAt: int)

  /** What becomes of one request. A lost request and a lost reply look the same to the client: status 0. */
  datatype Fate = Answered | Refused(code: nat) | LostRequest | LostReply

  datatype Reply = Sent | Offline | Failed(code: nat)

  /**
   * Both sides. The last four fields are bookkeeping for the statements below: how often each id was created and
   * removed on the server, which creates got no answer, and which ids were changed on one side only.
   */
  datatype World = World(rows: map<Id, Row>, syncEnabled: bool, notes: map<Id, Note>,
                         created: multiset<Id>, removed: multiset<Id>, unanswered: set<Id>, stale: set<Id>)

  // ---- decisions

  datatype PersistIntent = GoLive | Hold | Queue | PostNow

  datatype EditIntent = EditLive | Rewrite | MarkDirty | PatchNow

  function PersistIntentOf(ephemeral: bool, syncEnabled: bool, online: bool): PersistIntent {
    if ephemeral then GoLive else if !syncEnabled then Hold else if online then PostNow else Queue
  }

  function EditIntentOf(ephemeral: bool, posted: bool, syncEnabled: bool, online: bool): EditIntent {
    if ephemeral then EditLive else if !posted then Rewrite else if !syncEnabled || !online then MarkDirty else PatchNow
  }

  predicate LocalWork(row: Row) { !row.state.Synced? }

  predicate Unposted(row: Row) { row.state.Queued? || row.state.Held? }

  function Release(row: Row): Row { if row.state.Held? then row.(state := Queued) else row }

  // ---- one request

  /** A second create for an id is ignored. */
  function ServerCreate(w: World, id: Id, note: Note): World {
    if id in w.notes then w
    else w.(notes := w.notes[id := note], created := w.created + multiset{id}, stale := w.stale - {id})
  }

  function ServerUpdate(w: World, id: Id, c: Content): World {
    if id in w.notes then w.(notes := w.notes[id := w.notes[id].(content := c)]) else w
  }

  function MarkSynced(w: World, row: Row): World { w.(rows := w.rows[row.id := row.(state := Synced)]) }

  function PatchRow(w: World, row: Row, fate: Fate): (World, Reply) {
    match fate
    case LostRequest => (w, Offline)
    case Refused(code) => (w, Failed(code))
    case LostReply => (ServerUpdate(w, row.id, row.content), Offline)
    case Answered =>
      if row.id !in w.notes then (w, Failed(NOT_FOUND))
      else
        var served := ServerUpdate(w, row.id, row.content);
        (MarkSynced(served.(stale := served.stale - {row.id}), row), Sent)
  }

  function CreateRow(w: World, row: Row, fate: Fate): (World, Reply) {
    var note := Note(row.content, row.expiresAt);
    match fate
    case LostRequest => (w.(unanswered := w.unanswered + {row.id}), Offline)
    case Refused(code) => (w, Failed(code))
    case LostReply => (ServerCreate(w.(unanswered := w.unanswered + {row.id}), row.id, note), Offline)
    case Answered => (MarkSynced(ServerCreate(w, row.id, note), row), Sent)
  }

  /** `postCached`: a dirty row is patched, any other is created. */
  function Post(w: World, row: Row, fate: Fate): (World, Reply) {
    if row.state.Dirty? then PatchRow(w, row, fate) else CreateRow(w, row, fate)
  }

  // ---- flushing

  datatype FlushResult = FlushResult(flushed: nat, error: Option<nat>)

  /** The error code `"offline"`. */
  const OFFLINE_ERROR := 0

  /** The order `getAll` lists the rows in: each id once. */
  ghost predicate Lists(order: seq<Id>, rows: map<Id, Row>) {
    && (forall id :: id in order <==> id in rows)
    && (forall i, j | 0 <= i < j < |order| :: order[i] != order[j])
  }

  function Listed(rows: map<Id, Row>, order: seq<Id>): (listed: seq<Row>)
    requires forall id | id in order :: id in rows
    ensures |listed| == |order| && forall i | 0 <= i < |order| :: listed[i] == rows[order[i]]
  {
    seq(|order|, i requires 0 <= i < |order| => rows[order[i]])
  }

  /** Rows from one position on: offline stops the walk, any other error is remembered and the walk goes on. */
  function FlushRows(w: World, todo: seq<Row>, fate: nat -> Fate, from: nat, r: FlushResult, whenOffline: Option<nat>): (World, FlushResult)
    requires from <= |todo|
    decreases |todo| - from
  {
    if from == |todo| then (w, r)
    else
      var (w', reply) := Post(w, todo[from], fate(from));
      match reply
      case Sent => FlushRows(w', todo, fate, from + 1, r.(flushed := r.flushed + 1), whenOffline)
      case Offline => (w', if whenOffline.Some? then r.(error := whenOffline) else r)
      case Failed(code) => FlushRows(w', todo, fate, from + 1, r.(error := Some(code)), whenOffline)
  }

  function FlushQueued(w: World, order: seq<Id>, online: bool, fate: nat -> Fate): (World, FlushResult)
    requires forall id | id in order :: id in w.rows
  {
    if !w.syncEnabled || !online then (w, FlushResult(0, None))
    else
      var todo := Filter(Listed(w.rows, order), (row: Row) => row.state.Queued? || row.state.Dirty?);
      FlushRows(w, todo, fate, 0, FlushResult(0, None), None)
  }

  function SyncAll(w: World, order: seq<Id>, online: bool, fate: nat -> Fate): (World, FlushResult)
    requires forall id | id in order :: id in w.rows
  {
    if !online then (w, FlushResult(0, Some(OFFLINE_ERROR)))
    else FlushRows(w, Filter(Listed(w.rows, order), LocalWork), fate, 0, FlushResult(0, None), Some(OFFLINE_ERROR))
  }

  function SyncOne(w: World, id: Id, online: bool, fate: Fate): (World, Reply) {
    if id !in w.rows || w.rows[id].state.Synced? then (w, Sent)
    else if !online then (w, Offline)
    else Post(w, w.rows[id], fate)
  }

  function ReleaseAll(w: World): World { w.(rows := map id | id in w.rows :: Release(w.rows[id])) }

  function SetSync(w: World, enabled: bool, order: seq<Id>, online: bool, fate: nat -> Fate): (World, FlushResult)
    requires forall id | id in order :: id in w.rows
  {
    var switched := w.(syncEnabled := enabled);
    if !enabled then (switched, FlushResult(0, None)) else FlushQueued(ReleaseAll(switched), order, online, fate)
  }

  // ---- the same as code over the two stores

  class ItemCache {
    var rows: map<Id, Row>
    var syncEnabled: bool
    ghost var unanswered: set<Id>
    ghost var stale: set<Id>

    constructor ()
      ensures rows == map[] && syncEnabled && unanswered == {} && stale == {}
    {
      rows, syncEnabled, unanswered, stale := map[], true, {}, {};
    }
  }

  class NoteServer {
    var notes: map<Id, Note>
    ghost var created: multiset<Id>
    ghost var removed: multiset<Id>

    constructor ()
      ensures notes == map[] && created == multiset{} && removed == multiset{}
    {
      notes, created, removed := map[], multiset{}, multiset{};
    }

    /** Handles one create for the given client's row. */
    method HandleCreate(cache: ItemCache, id: Id, note: Note)
      modifies this`notes, this`created, cache`stale
      ensures View(cache, this) == ServerCreate(old(View(cache, this)), id, note)
    {
      if id !in notes {
        notes := notes[id := note];
        created := created + multiset{id};
        cache.stale := cache.stale - {id};
      }
    }

    method HandleUpdate(cache: ItemCache, id: Id, c: Content) returns (found: bool)
      modifies this`notes
      ensures View(cache, this) == ServerUpdate(old(View(cache, this)), id, c)
      ensures found == (id in old(notes))
    {
      found := id in notes;
      if found {
        notes := notes[id := notes[id].(content := c)];
      }
    }
  }

  ghost function View(cache: ItemCache, server: NoteServer): World
    reads cache, server
  {
    World(cache.rows, cache.syncEnabled, server.notes, server.created, server.removed, cache.unanswered, cache.stale)
  }

  method PostCached(cache: ItemCache, server: NoteServer, row: Row, fate: Fate) returns (reply: Reply)
    modifies cache, server
    ensures (View(cache, server), reply) == Post(old(View(cache, server)), row, fate)
  {
    match fate
    case Refused(code) =>
      return Failed(code);
    case LostRequest =>
      if !row.state.Dirty? {
        cache.unanswered := cache.unanswered + {row.id};
      }
      return Offline;
    case LostReply =>
      if row.state.Dirty? {
        var _ := server.HandleUpdate(cache, row.id, row.content);
      } else {
        cache.unanswered := cache.unanswered + {row.id};
        server.HandleCreate(cache, row.id, Note(row.content, row.expiresAt));
      }
      return Offline;
    case Answered =>
      if row.state.Dirty? {
        var found := server.HandleUpdate(cache, row.id, row.content);
        if !found {
          return Failed(NOT_FOUND);
        }
        cache.stale := cache.stale - {row.id};
      } else {
        server.HandleCreate(cache, row.id, Note(row.content, row.expiresAt));
      }
      cache.rows := cache.rows[row.id := row.(state := Synced)];
      return Sent;
  }

  method FlushQueuedItems(cache: ItemCache, server: NoteServer, order: seq<Id>, online: bool, fate: nat -> Fate)
    returns (r: FlushResult)
    requires Lists(order, cache.rows)
    modifies cache, server
    ensures (View(cache, server), r) == FlushQueued(old(View(cache, server)), order, online, fate)
  {
    r := FlushResult(0, None);
    if !cache.syncEnabled || !online {
      return;
    }
    var todo := Filter(Listed(cache.rows, order), (row: Row) => row.state.Queued? || row.state.Dirty?);
    ghost var result := FlushRows(View(cache, server), todo, fate, 0, r, None);
    for i := 0 to |todo|
      invariant FlushRows(View(cache, server), todo, fate, i, r, None) == result
    {
      var reply := PostCached(cache, server, todo[i], fate(i));
      match reply
      case Sent => r := r.(flushed := r.flushed + 1);
      case Offline => return;
      case Failed(code) => r := r.(error := Some(code));
    }
  }

  method SyncAllUnsynced(cache: ItemCache, server: NoteServer, order: seq<Id>, online: bool, fate: nat -> Fate)
    returns (r: FlushResult)
    requires Lists(order, cache.rows)
    modifies cache, server
    ensures (View(cache, server), r) == SyncAll(old(View(cache, server)), order, online, fate)
  {
    r := FlushResult(0, None);
    if !online {
      return r.(error := Some(OFFLINE_ERROR));
    }
    var todo := Filter(Listed(cache.rows, order), LocalWork);
    ghost var result := FlushRows(View(cache, server), todo, fate, 0, r, Some(OFFLINE_ERROR));
    for i := 0 to |todo|
      invariant FlushRows(View(cache, server), todo, fate, i, r, Some(OFFLINE_ERROR)) == result
    {
      var reply := PostCached(cache, server, todo[i], fate(i));
      match reply
      case Sent => r := r.(flushed := r.flushed + 1);
      case Offline => return r.(error := Some(OFFLINE_ERROR));
      case Failed(code) => r := r.(error := Some(code));
    }
  }

  method SyncCachedItem(cache: ItemCache, server: NoteServer, id: Id, online: bool, fate: Fate) returns (reply: Reply)
    modifies cache, server
    ensures (View(cache, server), reply) == SyncOne(old(View(cache, server)), id, online, fate)
  {
    if id !in cache.rows || cache.rows[id].state.Synced? {
      return Sent;
    }
    if !online {
      return Offline;
    }
    reply := PostCached(cache, server, cache.rows[id], fate);
  }

  method SetSyncEnabled(cache: ItemCache, server: NoteServer, enabled: bool, order: seq<Id>, online: bool, fate: nat -> Fate)
    returns (r: FlushResult)
    requires Lists(order, cache.rows) && forall id | id in cache.rows :: cache.rows[id].id == id
    modifies cache, server
    ensures (View(cache, server), r) == SetSync(old(View(cache, server)), enabled, order, online, fate)
  {
    cache.syncEnabled := enabled;
    if !enabled {
      return FlushResult(0, None);
    }
    var released := Map(Listed(cache.rows, order), Release);
    for i := 0 to |released|
      invariant cache.rows.Keys == old(cache.rows).Keys && cache.syncEnabled == enabled
      invariant cache.unanswered == old(cache.unanswered) && cache.stale == old(cache.stale)
      invariant unchanged(server)
      invariant forall k | 0 <= k < |order| ::
                  cache.rows[order[k]] == if k < i then Release(old(cache.rows)[order[k]]) else old(cache.rows)[order[k]]
    {
      assert released[i].id == order[i];
      cache.rows := cache.rows[released[i].id := released[i]];
    }
    assert cache.rows == ReleaseAll(old(View(cache, server))).rows;
    r := FlushQueuedItems(cache, server, order, online, fate);
  }
}
