/** Whole runs of one client against the server, with any requests and replies lost, beside other devices. */
module OutboxRuns {
  import opened Wrappers
  import opened Rows
  import opened Outbox
  import opened CacheRefresh

  datatype Step =
    | Send(id: Id, c: Content, createdAt: int, expiresAt: int, ephemeral: bool, online: bool, fate: Fate)
    | Edit(id: Id, c: Content, createdAt: int, expiresAt: int, ephemeral: bool, online: bool, fate: Fate)
    | Forget(id: Id, fate: Fate)
    | Flush(order: seq<Id>, online: bool, fates: nat -> Fate)
    | FlushAll(order: seq<Id>, online: bool, fates: nat -> Fate)
    | FlushOne(id: Id, online: bool, fate: Fate)
    | Switch(enabled: bool, order: seq<Id>, online: bool, fates: nat -> Fate)
    | Refresh(remote: seq<Remote>)
    | PruneCache(now: int, keepExpired: bool)
    | Hear(id: Id, createdAt: int)
    | OtherCreates(id: Id, note: Note)
    | OtherEdits(id: Id, c: Content)
    | NoteGone(id: Id)

  const INITIAL := World(map[], true, map[], multiset{}, multiset{}, {}, {})

  function Put(w: World, row: Row): World { w.(rows := w.rows[row.id := row]) }

  function Remove(w: World, id: Id): World {
    if id in w.notes then w.(notes := w.notes - {id}, removed := w.removed + multiset{id}) else w
  }

  function SendNote(w: World, row: Row, ephemeral: bool, online: bool, fate: Fate): World {
    match PersistIntentOf(ephemeral, w.syncEnabled, online)
    case GoLive => w
    case Hold => Put(w, row.(state := Held))
    case Queue => Put(w, row.(state := Queued))
    case PostNow =>
      var queued := row.(state := Queued);
      var (w', reply) := CreateRow(Put(w, queued), queued, fate);
      if reply.Failed? then w'.(rows := w'.rows - {row.id}) else w'
  }

  /** Rewriting a row whose create got no answer may leave the two sides apart: that is what `stale` records. */
  function SaveEdit(w: World, row: Row, ephemeral: bool, online: bool, fate: Fate): World {
    var posted := !(row.id in w.rows && Unposted(w.rows[row.id]));
    match EditIntentOf(ephemeral, posted, w.syncEnabled, online)
    case EditLive => w
    case Rewrite =>
      var was := w.rows[row.id];
      var apart := row.id in w.unanswered && row.content != was.content;
      Put(w.(stale := if apart then w.stale + {row.id} else w.stale), row.(state := was.state))
    case MarkDirty => Put(w, row.(state := Dirty))
    case PatchNow =>
      var dirty := row.(state := Dirty);
      var (w', reply) := PatchRow(w, dirty, fate);
      if reply.Offline? then Put(w', dirty) else w'
  }

  function ForgetNote(w: World, id: Id, fate: Fate): World {
    var localOnly := id in w.rows && Unposted(w.rows[id]);
    var w' := w.(rows := w.rows - {id});
    if localOnly || fate.LostRequest? || fate.Refused? then w' else Remove(w', id)
  }

  function Refreshed(w: World, remote: seq<Remote>): World {
    w.(rows := UpsertSynced(w.rows, remote),
       stale := set id | id in w.stale && (Protected(w.rows, id) || LastUsable(remote, id).None?))
  }

  predicate Mirrors(remote: seq<Remote>, notes: map<Id, Note>) {
    forall item | item in remote && Usable(item) :: item.id in notes && AsSynced(item).content == notes[item.id].content
  }

  ghost predicate Admissible(w: World, step: Step) {
    match step
    case Send(id, _, _, _, _, _, _) => id !in w.rows && w.created[id] == 0
    case OtherCreates(id, _) => id !in w.rows && w.created[id] == 0
    case Flush(order, _, _) => Lists(order, w.rows)
    case FlushAll(order, _, _) => Lists(order, w.rows)
    case Switch(_, order, _, _) => Lists(order, w.rows)
    case Refresh(remote) => Mirrors(remote, w.notes)
    case Hear(id, _) => id in w.notes
    case _ => true
  }

  ghost function Next(w: World, step: Step): World
    requires Admissible(w, step)
  {
    match step
    case Send(id, c, createdAt, expiresAt, ephemeral, online, fate) =>
      SendNote(w, Row(id, c, createdAt, expiresAt, Queued), ephemeral, online, fate)
    case Edit(id, c, createdAt, expiresAt, ephemeral, online, fate) =>
      SaveEdit(w, Row(id, c, createdAt, expiresAt, Dirty), ephemeral, online, fate)
    case Forget(id, fate) => ForgetNote(w, id, fate)
    case Flush(order, online, fates) => FlushQueued(w, order, online, fates).0
    case FlushAll(order, online, fates) => SyncAll(w, order, online, fates).0
    case FlushOne(id, online, fate) => SyncOne(w, id, online, fate).0
    case Switch(enabled, order, online, fates) => SetSync(w, enabled, order, online, fates).0
    case Refresh(remote) => Refreshed(w, remote)
    case PruneCache(now, keepExpired) => w.(rows := Kept(w.rows, now, keepExpired))
    case Hear(id, createdAt) =>
      var note := w.notes[id];
      Put(w.(stale := w.stale - {id}), Row(id, note.content, createdAt, note.expiresAt, Synced))
    case OtherCreates(id, note) => ServerCreate(w, id, note)
    case OtherEdits(id, c) => ServerUpdate(w.(stale := w.stale + {id}), id, c)
    case NoteGone(id) => Remove(w, id)
  }

  ghost predicate AdmissibleRun(w: World, steps: seq<Step>)
    decreases |steps|
  {
    steps == [] || (Admissible(w, steps[0]) && AdmissibleRun(Next(w, steps[0]), steps[1..]))
  }

  ghost function Run(w: World, steps: seq<Step>): World
    requires AdmissibleRun(w, steps)
    decreases |steps|
  {
    if steps == [] then w else Run(Next(w, steps[0]), steps[1..])
  }

  // ---- the invariant

  /** Everything both sides know about one id. */
  datatype Slot = Slot(row: Option<Row>, note: Option<Note>, created: nat, removed: nat, asked: bool, stale: bool)

  function At(w: World, id: Id): Slot {
    Slot(if id in w.rows then Some(w.rows[id]) else None, if id in w.notes then Some(w.notes[id]) else None,
         w.created[id], w.removed[id], id in w.unanswered, id in w.stale)
  }

  /** An id is on the server once more often created than removed, or neither. */
  predicate Balanced(slot: Slot) { slot.created == slot.removed + if slot.note.Some? then 1 else 0 }

  predicate SyncedWasServed(slot: Slot) { slot.row.Some? && slot.row.value.state.Synced? ==> slot.created > 0 }

  predicate UnpostedWasAsked(slot: Slot) { slot.row.Some? && Unposted(slot.row.value) && slot.note.Some? ==> slot.asked }

  predicate SameContent(slot: Slot) {
    slot.row.Some? && slot.note.Some? ==> slot.row.value.content == slot.note.value.content
  }

  predicate AgreesUnlessStale(slot: Slot) { slot.stale || (slot.row.Some? && slot.row.value.state.Dirty?) || SameContent(slot) }

  predicate Fine(w: World, id: Id) {
    var slot := At(w, id);
    && (slot.row.Some? ==> slot.row.value.id == id)
    && Balanced(slot) && SyncedWasServed(slot) && UnpostedWasAsked(slot) && AgreesUnlessStale(slot)
  }

  ghost predicate Inv(w: World) { forall id :: Fine(w, id) }

  lemma InitialInv()
    ensures Inv(INITIAL)
  {
  }

  /** A step that changes one id keeps the invariant when it does for that id. */
  lemma OneIdKeeps(w: World, w': World, id: Id)
    requires Inv(w) && Fine(w', id) && forall other | other != id :: At(w', other) == At(w, other)
    ensures Inv(w')
  {
    forall other ensures Fine(w', other) {
      assert Fine(w, other);
    }
  }

  lemma PostElsewhere(w: World, row: Row, fate: Fate, other: Id)
    requires other != row.id
    ensures At(Post(w, row, fate).0, other) == At(w, other)
  {
  }

  lemma PostKeeps(w: World, row: Row, fate: Fate)
    requires Inv(w) && row.id in w.rows && w.rows[row.id] == row && LocalWork(row)
    ensures Inv(Post(w, row, fate).0)
  {
    assert Fine(Post(w, row, fate).0, row.id) by {
      assert Fine(w, row.id);
    }
    forall other | other != row.id ensures At(Post(w, row, fate).0, other) == At(w, other) {
      PostElsewhere(w, row, fate, other);
    }
    hide Fine, At, Post;
    OneIdKeeps(w, Post(w, row, fate).0, row.id);
  }

  /** The rows of a walk are the cache's own, all different, all local work. */
  ghost predicate Ready(w: World, todo: seq<Row>, from: nat) {
    && (forall k | from <= k < |todo| :: todo[k].id in w.rows && w.rows[todo[k].id] == todo[k] && LocalWork(todo[k]))
    && (forall i, j | 0 <= i < j < |todo| :: todo[i].id != todo[j].id)
  }

  lemma PostLeavesReady(w: World, todo: seq<Row>, from: nat, fate: Fate)
    requires from < |todo| && Ready(w, todo, from)
    ensures Ready(Post(w, todo[from], fate).0, todo, from + 1)
  {
    var w' := Post(w, todo[from], fate).0;
    assert forall id | id != todo[from].id :: (id in w'.rows <==> id in w.rows) && (id in w.rows ==> w'.rows[id] == w.rows[id]);
  }

  lemma {:induction false} FlushKeeps(w: World, todo: seq<Row>, fate: nat -> Fate, from: nat, r: FlushResult, whenOffline: Option<nat>)
    requires Inv(w) && from <= |todo| && Ready(w, todo, from)
    ensures Inv(FlushRows(w, todo, fate, from, r, whenOffline).0)
    decreases |todo| - from
  {
    hide Inv, Post;
    if from < |todo| {
      var (w', reply) := Post(w, todo[from], fate(from));
      PostKeeps(w, todo[from], fate(from));
      PostLeavesReady(w, todo, from, fate(from));
      match reply
      case Sent => FlushKeeps(w', todo, fate, from + 1, r.(flushed := r.flushed + 1), whenOffline);
      case Offline =>
      case Failed(code) => FlushKeeps(w', todo, fate, from + 1, r.(error := Some(code)), whenOffline);
    }
  }

  lemma TodoReady(w: World, order: seq<Id>, keep: Row -> bool)
    requires (forall id | id in w.rows :: w.rows[id].id == id) && Lists(order, w.rows) && forall row | keep(row) :: LocalWork(row)
    ensures Ready(w, Filter(Listed(w.rows, order), keep), 0)
    ensures forall id | id in w.rows && keep(w.rows[id]) :: w.rows[id] in Filter(Listed(w.rows, order), keep)
  {
    hide Filter;
    var listed := Listed(w.rows, order);
    var at := FilterPositions(listed, keep);
    FilterMembers(listed, keep);
    assert forall i | 0 <= i < |order| :: order[i] in order && listed[i].id == order[i];
    forall id | id in w.rows && keep(w.rows[id]) ensures w.rows[id] in Filter(listed, keep) {
      var k :| 0 <= k < |order| && order[k] == id;
      assert listed[k] == w.rows[id];
    }
    forall k | 0 <= k < |at| ensures Filter(listed, keep)[k] in Filter(listed, keep) {
    }
  }

  lemma FlushQueuedKeeps(w: World, order: seq<Id>, online: bool, fates: nat -> Fate)
    requires Inv(w) && Lists(order, w.rows)
    ensures Inv(FlushQueued(w, order, online, fates).0)
  {
    hide FlushRows, Filter;
    assert forall id | id in w.rows :: Fine(w, id) && w.rows[id].id == id;
    hide Fine;
    var due := (row: Row) => row.state.Queued? || row.state.Dirty?;
    TodoReady(w, order, due);
    FlushKeeps(w, Filter(Listed(w.rows, order), due), fates, 0, FlushResult(0, None), None);
  }

  lemma SyncAllKeeps(w: World, order: seq<Id>, online: bool, fates: nat -> Fate)
    requires Inv(w) && Lists(order, w.rows)
    ensures Inv(SyncAll(w, order, online, fates).0)
  {
    hide FlushRows, Filter;
    assert forall id | id in w.rows :: Fine(w, id) && w.rows[id].id == id;
    hide Fine;
    TodoReady(w, order, LocalWork);
    FlushKeeps(w, Filter(Listed(w.rows, order), LocalWork), fates, 0, FlushResult(0, None), Some(OFFLINE_ERROR));
  }

  lemma SendHere(w: World, row: Row, ephemeral: bool, online: bool, fate: Fate)
    requires Fine(w, row.id) && row.id !in w.rows && w.created[row.id] == 0
    ensures Fine(SendNote(w, row, ephemeral, online, fate), row.id)
  {
  }

  lemma SendElsewhere(w: World, row: Row, ephemeral: bool, online: bool, fate: Fate, other: Id)
    requires other != row.id
    ensures At(SendNote(w, row, ephemeral, online, fate), other) == At(w, other)
  {
    var queued := row.(state := Queued);
    PostElsewhere(Put(w, queued), queued, fate, other);
    hide ServerCreate, MarkSynced;
  }

  lemma SendKeeps(w: World, row: Row, ephemeral: bool, online: bool, fate: Fate)
    requires Inv(w) && row.id !in w.rows && w.created[row.id] == 0
    ensures Inv(SendNote(w, row, ephemeral, online, fate))
  {
    hide Fine, At, SendNote;
    assert Fine(w, row.id);
    SendHere(w, row, ephemeral, online, fate);
    forall other | other != row.id ensures At(SendNote(w, row, ephemeral, online, fate), other) == At(w, other) {
      SendElsewhere(w, row, ephemeral, online, fate, other);
    }
    OneIdKeeps(w, SendNote(w, row, ephemeral, online, fate), row.id);
  }

  lemma EditHere(w: World, row: Row, ephemeral: bool, online: bool, fate: Fate)
    requires Fine(w, row.id)
    ensures Fine(SaveEdit(w, row, ephemeral, online, fate), row.id)
  {
  }

  lemma EditElsewhere(w: World, row: Row, ephemeral: bool, online: bool, fate: Fate, other: Id)
    requires other != row.id
    ensures At(SaveEdit(w, row, ephemeral, online, fate), other) == At(w, other)
  {
    PostElsewhere(w, row.(state := Dirty), fate, other);
    hide PatchRow;
  }

  lemma EditKeeps(w: World, row: Row, ephemeral: bool, online: bool, fate: Fate)
    requires Inv(w)
    ensures Inv(SaveEdit(w, row, ephemeral, online, fate))
  {
    hide Fine, At, SaveEdit;
    assert Fine(w, row.id);
    EditHere(w, row, ephemeral, online, fate);
    forall other | other != row.id ensures At(SaveEdit(w, row, ephemeral, online, fate), other) == At(w, other) {
      EditElsewhere(w, row, ephemeral, online, fate, other);
    }
    OneIdKeeps(w, SaveEdit(w, row, ephemeral, online, fate), row.id);
  }

  lemma ForgetKeeps(w: World, id: Id, fate: Fate)
    requires Inv(w)
    ensures Inv(ForgetNote(w, id, fate))
  {
    assert Fine(w, id);
    var w' := ForgetNote(w, id, fate);
    assert forall other | other != id :: At(w', other) == At(w, other);
    assert Fine(w', id);
    hide Fine, At, ForgetNote;
    OneIdKeeps(w, w', id);
  }

  lemma RefreshKeeps(w: World, remote: seq<Remote>)
    requires Inv(w) && Mirrors(remote, w.notes)
    ensures Inv(Refreshed(w, remote))
  {
    forall id ensures Fine(Refreshed(w, remote), id) {
      assert Fine(w, id);
      UpsertExactly(w.rows, remote, id);
    }
  }

  lemma SwitchKeeps(w: World, enabled: bool, order: seq<Id>, online: bool, fates: nat -> Fate)
    requires Inv(w) && Lists(order, w.rows)
    ensures Inv(SetSync(w, enabled, order, online, fates).0)
  {
    var switched := w.(syncEnabled := enabled);
    forall id ensures Fine(switched, id) && Fine(ReleaseAll(switched), id) {
      assert Fine(w, id);
    }
    hide Fine, FlushQueued;
    FlushQueuedKeeps(ReleaseAll(switched), order, online, fates);
  }

  lemma OthersHere(w: World, step: Step)
    requires Admissible(w, step) && (step.Hear? || step.OtherCreates? || step.OtherEdits? || step.NoteGone?) && Fine(w, step.id)
    ensures Fine(Next(w, step), step.id)
  {
  }

  lemma OthersElsewhere(w: World, step: Step, other: Id)
    requires Admissible(w, step) && (step.Hear? || step.OtherCreates? || step.OtherEdits? || step.NoteGone?) && other != step.id
    ensures At(Next(w, step), other) == At(w, other)
  {
  }

  lemma OthersKeep(w: World, step: Step)
    requires Inv(w) && Admissible(w, step) && (step.Hear? || step.OtherCreates? || step.OtherEdits? || step.NoteGone?)
    ensures Inv(Next(w, step))
  {
    hide Fine, At, Next;
    assert Fine(w, step.id);
    OthersHere(w, step);
    forall other | other != step.id ensures At(Next(w, step), other) == At(w, other) {
      OthersElsewhere(w, step, other);
    }
    OneIdKeeps(w, Next(w, step), step.id);
  }

  lemma StepKeeps(w: World, step: Step)
    requires Inv(w) && Admissible(w, step)
    ensures Inv(Next(w, step))
  {
    hide Fine;
    match step
    case Send(id, c, createdAt, expiresAt, ephemeral, online, fate) =>
      SendKeeps(w, Row(id, c, createdAt, expiresAt, Queued), ephemeral, online, fate);
    case Edit(id, c, createdAt, expiresAt, ephemeral, online, fate) =>
      EditKeeps(w, Row(id, c, createdAt, expiresAt, Dirty), ephemeral, online, fate);
    case Forget(id, fate) => ForgetKeeps(w, id, fate);
    case Flush(order, online, fates) => FlushQueuedKeeps(w, order, online, fates);
    case FlushAll(order, online, fates) => SyncAllKeeps(w, order, online, fates);
    case FlushOne(id, online, fate) => FlushOneKeeps(w, id, online, fate);
    case Switch(enabled, order, online, fates) => SwitchKeeps(w, enabled, order, online, fates);
    case Refresh(remote) => RefreshKeeps(w, remote);
    case PruneCache(now, keepExpired) => CachePruneKeeps(w, now, keepExpired);
    case _ => OthersKeep(w, step);
  }

  lemma FlushOneKeeps(w: World, id: Id, online: bool, fate: Fate)
    requires Inv(w)
    ensures Inv(SyncOne(w, id, online, fate).0)
  {
    assert Fine(w, id);
    if id in w.rows && LocalWork(w.rows[id]) {
      PostKeeps(w, w.rows[id], fate);
    }
  }

  lemma CachePruneKeeps(w: World, now: int, keepExpired: bool)
    requires Inv(w)
    ensures Inv(w.(rows := Kept(w.rows, now, keepExpired)))
  {
    forall id ensures Fine(w.(rows := Kept(w.rows, now, keepExpired)), id) {
      assert Fine(w, id);
    }
  }

  lemma {:induction false} RunKeeps(w: World, steps: seq<Step>)
    requires Inv(w) && AdmissibleRun(w, steps)
    ensures Inv(Run(w, steps))
    decreases |steps|
  {
    hide Inv, Next, Admissible;
    if steps != [] {
      StepKeeps(w, steps[0]);
      RunKeeps(Next(w, steps[0]), steps[1..]);
    }
  }
}
