/** What retrying guarantees, and the one way it can leave the two sides apart. */
module OutboxPromises {
  import opened Wrappers
  import opened Rows
  import opened StoreOps
  import opened Outbox
  import opened CacheRefresh
  import opened OutboxRuns

  predicate Lost(fate: Fate) { fate.LostRequest? || fate.LostReply? }

  /** No request before position k got lost, so the walk gets to k. */
  predicate Reached(fate: nat -> Fate, from: nat, k: nat) { forall j | from <= j < k :: !Lost(fate(j)) }

  lemma {:induction false} FlushElsewhere(w: World, todo: seq<Row>, fate: nat -> Fate, from: nat, r: FlushResult,
                                          whenOffline: Option<nat>, id: Id)
    requires from <= |todo| && forall k | from <= k < |todo| :: todo[k].id != id
    ensures At(FlushRows(w, todo, fate, from, r, whenOffline).0, id) == At(w, id)
    decreases |todo| - from
  {
    hide At, Post;
    if from < |todo| {
      var (w', reply) := Post(w, todo[from], fate(from));
      PostElsewhere(w, todo[from], fate(from), id);
      match reply
      case Sent => FlushElsewhere(w', todo, fate, from + 1, r.(flushed := r.flushed + 1), whenOffline, id);
      case Offline =>
      case Failed(code) => FlushElsewhere(w', todo, fate, from + 1, r.(error := Some(code)), whenOffline, id);
    }
  }

  /** The slot of a row after its turn in a flush, by whether the walk reached it and what became of its request. */
  predicate Settled(before: Slot, after: Slot, reached: bool, fate: Fate) {
    before.row.Some? && after.row.Some?
    && var row, known := before.row.value, before.note.Some?;
    var arrives := reached && (fate.Answered? || fate.LostReply?);
    var synced := reached && fate.Answered? && (row.state.Dirty? ==> known);
    var served := arrives && !row.state.Dirty? && !known;
    var patched := arrives && row.state.Dirty? && known;
    && after.row.value == (if synced then row.(state := Synced) else row)
    && after.note == (if served then Some(Note(row.content, row.expiresAt))
                      else if patched then Some(before.note.value.(content := row.content))
                      else before.note)
    && after.created == before.created + (if served then 1 else 0) && after.removed == before.removed
  }

  lemma PostSettles(w: World, row: Row, fate: Fate)
    requires row.id in w.rows && w.rows[row.id] == row && LocalWork(row)
    ensures Settled(At(w, row.id), At(Post(w, row, fate).0, row.id), true, fate)
    ensures Post(w, row, fate).1.Offline? <==> Lost(fate)
    ensures Post(w, row, fate).1.Sent? <==> At(Post(w, row, fate).0, row.id).row.value.state.Synced?
  {
  }

  lemma UnreachedSettles(w: World, row: Row, fate: Fate)
    requires row.id in w.rows && w.rows[row.id] == row
    ensures Settled(At(w, row.id), At(w, row.id), false, fate)
  {
  }

  lemma {:induction false} FlushExactly(w: World, todo: seq<Row>, fate: nat -> Fate, from: nat, r: FlushResult,
                                        whenOffline: Option<nat>, k: nat)
    requires from <= k < |todo| && Ready(w, todo, from)
    ensures Settled(At(w, todo[k].id), At(FlushRows(w, todo, fate, from, r, whenOffline).0, todo[k].id),
                    Reached(fate, from, k), fate(k))
    decreases |todo| - from
  {
    hide Post, At, Settled;
    var row := todo[from];
    var (w', reply) := Post(w, row, fate(from));
    PostSettles(w, row, fate(from));
    PostLeavesReady(w, todo, from, fate(from));
    if k == from {
      assert Reached(fate, from, from);
      FlushElsewhere(w', todo, fate, from + 1, r.(flushed := r.flushed + 1), whenOffline, row.id);
      if reply.Failed? {
        FlushElsewhere(w', todo, fate, from + 1, r.(error := Some(reply.code)), whenOffline, row.id);
      }
    } else {
      PostElsewhere(w, row, fate(from), todo[k].id);
      assert !Lost(fate(from)) ==> (Reached(fate, from, k) <==> Reached(fate, from + 1, k));
      match reply
      case Sent => FlushExactly(w', todo, fate, from + 1, r.(flushed := r.flushed + 1), whenOffline, k);
      case Offline =>
        assert !Reached(fate, from, k);
        UnreachedSettles(w, todo[k], fate(k));
      case Failed(code) => FlushExactly(w', todo, fate, from + 1, r.(error := Some(code)), whenOffline, k);
    }
  }

  predicate NowSynced(w: World, row: Row) { row.id in w.rows && w.rows[row.id].state.Synced? }

  function SyncedFrom(w: World, todo: seq<Row>, from: nat): nat
    requires from <= |todo|
    decreases |todo| - from
  {
    if from == |todo| then 0 else (if NowSynced(w, todo[from]) then 1 else 0) + SyncedFrom(w, todo, from + 1)
  }

  lemma {:induction false} NoneSynced(w: World, todo: seq<Row>, from: nat)
    requires from <= |todo| && forall k | from <= k < |todo| :: !NowSynced(w, todo[k])
    ensures SyncedFrom(w, todo, from) == 0
    decreases |todo| - from
  {
    if from < |todo| {
      NoneSynced(w, todo, from + 1);
    }
  }

  lemma PostCounts(w: World, row: Row, fate: Fate)
    requires row.id in w.rows && w.rows[row.id] == row && LocalWork(row)
    ensures NowSynced(Post(w, row, fate).0, row) <==> Post(w, row, fate).1.Sent?
  {
    PostSettles(w, row, fate);
  }

  lemma SameSlotSameRow(w: World, other: World, row: Row)
    requires At(w, row.id) == At(other, row.id)
    ensures NowSynced(w, row) <==> NowSynced(other, row)
  {
  }

  lemma NothingSyncedOffline(w: World, todo: seq<Row>, from: nat, fate: Fate)
    requires from < |todo| && Ready(w, todo, from) && Post(w, todo[from], fate).1.Offline?
    ensures SyncedFrom(Post(w, todo[from], fate).0, todo, from) == 0
  {
    PostCounts(w, todo[from], fate);
    PostLeavesReady(w, todo, from, fate);
    hide Post;
    NoneSynced(Post(w, todo[from], fate).0, todo, from);
  }

  /** `flushed` counts the rows the walk turned synced. */
  lemma {:induction false} FlushCounts(w: World, todo: seq<Row>, fate: nat -> Fate, from: nat, r: FlushResult, whenOffline: Option<nat>)
    requires from <= |todo| && Ready(w, todo, from)
    ensures var (after, result) := FlushRows(w, todo, fate, from, r, whenOffline);
            result.flushed == r.flushed + SyncedFrom(after, todo, from)
    decreases |todo| - from
  {
    if from < |todo| {
      var row := todo[from];
      PostCounts(w, row, fate(from));
      PostLeavesReady(w, todo, from, fate(from));
      assert forall k | from < k < |todo| :: todo[k].id != row.id;
      hide Post, Ready, NowSynced, At;
      var (w', reply) := Post(w, row, fate(from));
      match reply
      case Sent =>
        FlushCounts(w', todo, fate, from + 1, r.(flushed := r.flushed + 1), whenOffline);
        FlushElsewhere(w', todo, fate, from + 1, r.(flushed := r.flushed + 1), whenOffline, row.id);
        SameSlotSameRow(w', FlushRows(w', todo, fate, from + 1, r.(flushed := r.flushed + 1), whenOffline).0, row);
      case Offline =>
        NothingSyncedOffline(w, todo, from, fate(from));
      case Failed(code) =>
        FlushCounts(w', todo, fate, from + 1, r.(error := Some(code)), whenOffline);
        FlushElsewhere(w', todo, fate, from + 1, r.(error := Some(code)), whenOffline, row.id);
        SameSlotSameRow(w', FlushRows(w', todo, fate, from + 1, r.(error := Some(code)), whenOffline).0, row);
    }
  }

  /** After a flush with every request answered, each queued row is synced and on the server. */
  lemma AnsweredFlushDelivers(w: World, order: seq<Id>, fates: nat -> Fate, id: Id)
    requires Inv(w) && Lists(order, w.rows) && w.syncEnabled && forall k: nat :: fates(k).Answered?
    requires id in w.rows && w.rows[id].state.Queued?
    ensures var w' := FlushQueued(w, order, true, fates).0;
            id in w'.rows && w'.rows[id] == w.rows[id].(state := Synced) && id in w'.notes && Inv(w')
  {
    var due := (row: Row) => row.state.Queued? || row.state.Dirty?;
    var todo := Filter(Listed(w.rows, order), due);
    assert forall other | other in w.rows :: Fine(w, other) && w.rows[other].id == other;
    TodoReady(w, order, due);
    var k :| 0 <= k < |todo| && todo[k] == w.rows[id];
    FlushExactly(w, todo, fates, 0, FlushResult(0, None), None, k);
    FlushQueuedKeeps(w, order, true, fates);
  }

  /** The same flush delivers edits: a dirty row turns synced and its note says what the row says, exactly if it has a note. */
  lemma AnsweredFlushDeliversEdits(w: World, order: seq<Id>, fates: nat -> Fate, id: Id)
    requires Inv(w) && Lists(order, w.rows) && w.syncEnabled && forall k: nat :: fates(k).Answered?
    requires id in w.rows && w.rows[id].state.Dirty?
    ensures var w' := FlushQueued(w, order, true, fates).0;
            && id in w'.rows && (id in w'.notes <==> id in w.notes)
            && w'.rows[id] == (if id in w.notes then w.rows[id].(state := Synced) else w.rows[id])
            && (id in w.notes ==> w'.notes[id] == w.notes[id].(content := w.rows[id].content))
  {
    var due := (row: Row) => row.state.Queued? || row.state.Dirty?;
    var todo := Filter(Listed(w.rows, order), due);
    assert forall other | other in w.rows :: Fine(w, other) && w.rows[other].id == other;
    TodoReady(w, order, due);
    var k :| 0 <= k < |todo| && todo[k] == w.rows[id];
    FlushExactly(w, todo, fates, 0, FlushResult(0, None), None, k);
  }

  /**
   * Retry is exactly once. Whatever was lost in the run, once a flush gets all its answers every queued row has been
   * created on the server exactly once (per removal), and unless the id is stale the server holds that row's content.
   */
  lemma RetryIsExactlyOnce(steps: seq<Step>, order: seq<Id>, fates: nat -> Fate, id: Id)
    requires AdmissibleRun(INITIAL, steps)
    requires var w := Run(INITIAL, steps);
             Lists(order, w.rows) && w.syncEnabled && id in w.rows && w.rows[id].state.Queued?
    requires forall k: nat :: fates(k).Answered?
    ensures var w, w' := Run(INITIAL, steps), FlushQueued(Run(INITIAL, steps), order, true, fates).0;
            && id in w'.rows && w'.rows[id] == w.rows[id].(state := Synced) && id in w'.notes
            && w'.created[id] == w'.removed[id] + 1
            && (id !in w'.stale ==> w'.notes[id].content == w.rows[id].content)
  {
    hide Next, Admissible, FlushQueued;
    InitialInv();
    RunKeeps(INITIAL, steps);
    AnsweredFlushDelivers(Run(INITIAL, steps), order, fates, id);
    assert Fine(FlushQueued(Run(INITIAL, steps), order, true, fates).0, id);
  }

  /** At every point of every run: an id never removed was created at most once, and a synced row's id at least once. */
  lemma SyncedOnlyAfterServed(steps: seq<Step>, id: Id)
    requires AdmissibleRun(INITIAL, steps)
    ensures var w := Run(INITIAL, steps);
            && (w.removed[id] == 0 ==> w.created[id] <= 1 && (w.created[id] == 1 <==> id in w.notes))
            && (id in w.rows && w.rows[id].state.Synced? ==> w.created[id] >= 1 && (w.removed[id] == 0 ==> id in w.notes))
  {
    hide Next, Admissible;
    InitialInv();
    RunKeeps(INITIAL, steps);
    assert Fine(Run(INITIAL, steps), id);
  }

  // ---- staying in agreement

  /** No other device edits, and no unanswered row is rewritten to something else. */
  predicate Careful(w: World, step: Step) {
    && !step.OtherEdits?
    && (step.Edit? && step.id in w.rows && Unposted(w.rows[step.id]) && step.id in w.unanswered
        ==> step.c == w.rows[step.id].content)
  }

  ghost predicate CarefulRun(w: World, steps: seq<Step>)
    requires AdmissibleRun(w, steps)
    decreases |steps|
  {
    steps == [] || (Careful(w, steps[0]) && CarefulRun(Next(w, steps[0]), steps[1..]))
  }

  lemma {:induction false} FlushStaysClean(w: World, todo: seq<Row>, fate: nat -> Fate, from: nat, r: FlushResult, whenOffline: Option<nat>)
    requires from <= |todo| && w.stale == {}
    ensures FlushRows(w, todo, fate, from, r, whenOffline).0.stale == {}
    decreases |todo| - from
  {
    if from < |todo| {
      var (w', reply) := Post(w, todo[from], fate(from));
      assert w'.stale == {};
      match reply
      case Sent => FlushStaysClean(w', todo, fate, from + 1, r.(flushed := r.flushed + 1), whenOffline);
      case Offline =>
      case Failed(code) => FlushStaysClean(w', todo, fate, from + 1, r.(error := Some(code)), whenOffline);
    }
  }

  lemma StepStaysClean(w: World, step: Step)
    requires Admissible(w, step) && Careful(w, step) && w.stale == {}
    ensures Next(w, step).stale == {}
  {
    match step
    case Flush(order, online, fates) =>
      FlushStaysClean(w, Filter(Listed(w.rows, order), (row: Row) => row.state.Queued? || row.state.Dirty?), fates, 0, FlushResult(0, None), None);
    case FlushAll(order, online, fates) =>
      FlushStaysClean(w, Filter(Listed(w.rows, order), LocalWork), fates, 0, FlushResult(0, None), Some(OFFLINE_ERROR));
    case Switch(enabled, order, online, fates) =>
      var ready := ReleaseAll(w.(syncEnabled := enabled));
      FlushStaysClean(ready, Filter(Listed(ready.rows, order), (row: Row) => row.state.Queued? || row.state.Dirty?), fates, 0, FlushResult(0, None), None);
    case _ =>
  }

  lemma {:induction false} CarefulRunsStayClean(w: World, steps: seq<Step>)
    requires AdmissibleRun(w, steps) && CarefulRun(w, steps) && w.stale == {}
    ensures Run(w, steps).stale == {}
    decreases |steps|
  {
    hide Next, Admissible, Careful;
    if steps != [] {
      StepStaysClean(w, steps[0]);
      CarefulRunsStayClean(Next(w, steps[0]), steps[1..]);
    }
  }

  /** In a careful run, every row without an unsent edit says what the server says, whatever was lost. */
  lemma CarefulRunsAgree(steps: seq<Step>, id: Id)
    requires AdmissibleRun(INITIAL, steps) && CarefulRun(INITIAL, steps)
    ensures var w := Run(INITIAL, steps);
            id in w.rows && id in w.notes && !w.rows[id].state.Dirty? ==> w.rows[id].content == w.notes[id].content
  {
    hide Next, Admissible, Careful;
    InitialInv();
    RunKeeps(INITIAL, steps);
    CarefulRunsStayClean(INITIAL, steps);
    assert Fine(Run(INITIAL, steps), id);
  }

  /**
   * A row rewritten before its retry: the retry is answered, the row turns synced, and the two sides agree exactly when
   * the earlier create never arrived or the rewrite changed nothing.
   */
  lemma RewriteThenRetry(w: World, id: Id, c: Content, createdAt: int, expiresAt: int, online: bool, fate: Fate)
    requires Inv(w) && id in w.rows && Unposted(w.rows[id]) && id !in w.stale
    ensures var w1 := SaveEdit(w, Row(id, c, createdAt, expiresAt, Dirty), false, online, fate);
            var w2 := SyncOne(w1, id, true, Answered).0;
            && id in w2.rows && w2.rows[id] == Row(id, c, createdAt, expiresAt, Synced) && id in w2.notes
            && (w2.rows[id].content == w2.notes[id].content <==> id !in w.notes || c == w.rows[id].content)
  {
    assert Fine(w, id);
  }

  /** The diverging run: the reply is lost, the note is rewritten, the retry is ignored. */
  lemma LostReplyThenRewrite()
    ensures var first, second := Content(Text, 1, 1), Content(Text, 2, 1);
            var w1 := SendNote(INITIAL, Row(7, first, 0, 1000, Queued), false, true, LostReply);
            var w2 := SaveEdit(w1, Row(7, second, 1, 1000, Dirty), false, true, Answered);
            var w3 := SyncOne(w2, 7, true, Answered).0;
            && 7 in w3.rows && w3.rows[7].state.Synced? && w3.rows[7].content == second
            && 7 in w3.notes && w3.notes[7].content == first
  {
    var first, second := Content(Text, 1, 1), Content(Text, 2, 1);
    var w1 := SendNote(INITIAL, Row(7, first, 0, 1000, Queued), false, true, LostReply);
    assert w1.rows == map[7 := Row(7, first, 0, 1000, Queued)] && w1.notes == map[7 := Note(first, 1000)];
  }

  /** What the client can see of a world: its rows, its switch, and which of its creates got no answer. */
  predicate LooksLike(w: World, other: World) {
    other.rows == w.rows && other.syncEnabled == w.syncEnabled && other.unanswered == w.unanswered
  }

  /**
   * Forgetting an unposted row sends no delete. Its note stays on the server exactly when one of its creates arrived that
   * was not undone there; and all the client can go by is whether a create went unanswered: if none did no note can be
   * left, and if one did there is always a world that looks the same to it in which the note stays.
   */
  lemma ForgottenButServed(w: World, id: Id, fate: Fate)
    requires Inv(w) && id in w.rows && Unposted(w.rows[id])
    ensures id in ForgetNote(w, id, fate).notes <==> w.created[id] > w.removed[id]
    ensures (forall other | LooksLike(w, other) && Inv(other) :: id !in ForgetNote(other, id, fate).notes) <==> id !in w.unanswered
  {
    assert Fine(w, id);
    if id in w.unanswered {
      var other := ServerCreate(w, id, Note(w.rows[id].content, w.rows[id].expiresAt));
      forall x ensures Fine(other, x) {
        assert Fine(w, x);
      }
      assert LooksLike(w, other) && id in ForgetNote(other, id, fate).notes;
    } else {
      forall other | LooksLike(w, other) && Inv(other) ensures id !in ForgetNote(other, id, fate).notes {
        assert Fine(other, id);
      }
    }
  }

  const FORGOTTEN := [
    Send(7, Content(Text, 1, 1), 0, 1000, false, true, LostReply),
    Forget(7, Answered)]

  /** The run in which it stays: sent, reply lost, forgotten. A refresh brings the note back. */
  lemma LostReplyThenForget()
    ensures AdmissibleRun(INITIAL, FORGOTTEN)
    ensures var w := Run(INITIAL, FORGOTTEN);
            && 7 !in w.rows && 7 in w.notes
            && 7 in UpsertSynced(w.rows, [Remote(7, Text, Some(1), Some(1), 0, 1000)])
  {
    var row := Row(7, Content(Text, 1, 1), 0, 1000, Queued);
    var w1 := SendNote(INITIAL, row, false, true, LostReply);
    assert FORGOTTEN[1..] == [Forget(7, Answered)] && FORGOTTEN[1..][1..] == [];
    assert w1.rows == map[7 := row] && w1.notes == map[7 := Note(row.content, 1000)];
    assert Next(INITIAL, FORGOTTEN[0]) == w1;
    assert Run(w1, [Forget(7, Answered)]) == ForgetNote(w1, 7, Answered);
    UpsertExactly(ForgetNote(w1, 7, Answered).rows, [Remote(7, Text, Some(1), Some(1), 0, 1000)], 7);
  }

  // ---- the notes are the store's items

  function NoteOf(s: Store, owner: Id, id: Id): Option<Note> {
    var at := OwnItemAt(s, owner, id);
    if at == |s.items| then None
    else Some(Note(Content(s.items[at].kind, s.items[at].body, s.items[at].byteSize), s.items[at].expiresAt))
  }

  lemma {:induction false} FirstIndexAt<T>(xs: seq<T>, p: T -> bool, i: nat)
    requires i <= |xs| && (i < |xs| ==> p(xs[i])) && forall j | 0 <= j < i :: !p(xs[j])
    ensures FirstIndex(xs, p) == i
  {
  }

  function CountOf(s: Store, id: Id): nat { |Filter(s.items, (item: Item) => item.id == id)| }

  /** The store's create is the notes' create: one row per id, a second create by the owner ignored. */
  lemma CreateIsServerCreate(s: Store, owner: Id, n: NewItem, now: int, pinned: bool)
    ensures var (s', verdict) := CreateItem(s, owner, n, now, pinned);
            && (verdict.Done? <==> CountOf(s, n.id) == 0)
            && (verdict.Done? ==> CountOf(s', n.id) == 1 && NoteOf(s, owner, n.id).None?
                                  && NoteOf(s', owner, n.id) == Some(Note(Content(n.kind, n.body, n.byteSize), n.expiresAt)))
            && (!verdict.Done? ==> s' == s)
            && (verdict.Already? ==> NoteOf(s, owner, n.id).Some?)
            && forall id | id != n.id :: NoteOf(s', owner, id) == NoteOf(s, owner, id)
  {
    hide Filter;
    var (s', verdict) := CreateItem(s, owner, n, now, pinned);
    var same := (item: Item) => item.id == n.id;
    FilterMembers(s.items, same);
    if verdict.Done? {
      var row := Item(n.id, n.kind, owner, n.body, None, n.byteSize, now, n.expiresAt, pinned);
      assert forall item | item in s.items :: !same(item);
      FilterNone(s.items, same);
      FilterAppend(s.items, [row], same);
      FilterAll([row], same);
      forall id ensures OwnItemAt(s', owner, id) == if OwnItemAt(s, owner, id) < |s.items| then OwnItemAt(s, owner, id)
                                                    else if id == n.id then |s.items| else |s.items| + 1 {
        FirstIndexAppend(s.items, row, (item: Item) => item.id == id && item.ownerId == owner);
      }
    } else {
      var at := ItemAt(s, n.id);
      assert s.items[at] in s.items && same(s.items[at]);
      assert verdict.Already? ==> OwnItemAt(s, owner, n.id) <= at;
    }
  }

  /** The store's update is the notes' update wherever the item is a live note. */
  lemma UpdateIsServerUpdate(s: Store, owner: Id, id: Id, p: Patch, now: int)
    requires StoreOps.UpdateTextItem(s, owner, id, p, now).1.Done?
    ensures var s' := UpdateTextItem(s, owner, id, p, now).0;
            && NoteOf(s, owner, id).Some?
            && NoteOf(s', owner, id) == Some(NoteOf(s, owner, id).value.(content := Content(p.kind, p.body, p.byteSize)))
            && forall other | other != id :: NoteOf(s', owner, other) == NoteOf(s, owner, other)
  {
    var s' := UpdateTextItem(s, owner, id, p, now).0;
    forall other ensures OwnItemAt(s', owner, other) == OwnItemAt(s, owner, other) {
      FirstIndexAt(s'.items, (item: Item) => item.id == other && item.ownerId == owner, OwnItemAt(s, owner, other));
    }
  }
}
