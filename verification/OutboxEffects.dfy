/** What each thing the client does comes to for the one id it is about, and what a whole flush reports. */
module OutboxEffects {
  import opened Wrappers
  import opened Rows
  import opened Outbox
  import opened CacheRefresh
  import opened OutboxRuns
  import opened OutboxPromises

  /** The request got to the server and was not refused there. */
  predicate Arrives(fate: Fate) { fate.Answered? || fate.LostReply? }

  /** All ids but one are as they were, on both sides. */
  ghost predicate OnlyHere(w: World, w': World, id: Id) {
    w'.syncEnabled == w.syncEnabled && forall other | other != id :: At(w', other) == At(w, other)
  }

  /**
   * Sending. An ephemeral note is stored nowhere. Any other is kept in the cache, whatever the network does, unless the
   * server refuses it: held while sync is off, synced once answered, queued otherwise; it gets to the server only with sync
   * on and online, and only where the id is new.
   */
  lemma SendExactly(w: World, row: Row, ephemeral: bool, online: bool, fate: Fate)
    ensures var w', asked := SendNote(w, row, ephemeral, online, fate), !ephemeral && w.syncEnabled && online;
            var before, after := At(w, row.id), At(w', row.id);
            && OnlyHere(w, w', row.id)
            && after.row == (if ephemeral then before.row
                             else if !w.syncEnabled then Some(row.(state := Held))
                             else if asked && fate.Refused? then None
                             else if asked && fate.Answered? then Some(row.(state := Synced))
                             else Some(row.(state := Queued)))
            && after.note == (if asked && Arrives(fate) && before.note.None? then Some(Note(row.content, row.expiresAt)) else before.note)
  {
    forall other | other != row.id ensures At(SendNote(w, row, ephemeral, online, fate), other) == At(w, other) {
      SendElsewhere(w, row, ephemeral, online, fate, other);
    }
    assert SendNote(w, row, ephemeral, online, fate).syncEnabled == w.syncEnabled;
  }

  /**
   * Saving an edit. What was never posted is rewritten as it waits; anything else is patched with sync on and online, and
   * else marked dirty. No edit is lost to the network: a patch without answer leaves the row dirty; one that the server
   * refuses, or whose note is gone, leaves the row as it was. A note changes only by a patch that arrives, and takes the
   * row's content.
   */
  lemma EditExactly(w: World, row: Row, ephemeral: bool, online: bool, fate: Fate)
    ensures var w' := SaveEdit(w, row, ephemeral, online, fate);
            var before, after := At(w, row.id), At(w', row.id);
            var waits := before.row.Some? && (before.row.value.state.Queued? || before.row.value.state.Held?);
            var patches := !ephemeral && !waits && w.syncEnabled && online;
            && OnlyHere(w, w', row.id)
            && after.row == (if ephemeral then before.row
                             else if waits then Some(row.(state := before.row.value.state))
                             else if patches && fate.Answered? && before.note.Some? then Some(row.(state := Synced))
                             else if patches && (fate.Answered? || fate.Refused?) then before.row
                             else Some(row.(state := Dirty)))
            && after.note == (if patches && Arrives(fate) && before.note.Some? then Some(before.note.value.(content := row.content))
                              else before.note)
  {
    forall other | other != row.id ensures At(SaveEdit(w, row, ephemeral, online, fate), other) == At(w, other) {
      EditElsewhere(w, row, ephemeral, online, fate, other);
    }
    assert SaveEdit(w, row, ephemeral, online, fate).syncEnabled == w.syncEnabled;
  }

  /** Forgetting. The row goes at once; its note goes too unless the row was never posted or the delete did not arrive. */
  lemma ForgetExactly(w: World, id: Id, fate: Fate)
    ensures var w' := ForgetNote(w, id, fate);
            var before, after := At(w, id), At(w', id);
            var waits := before.row.Some? && (before.row.value.state.Queued? || before.row.value.state.Held?);
            && OnlyHere(w, w', id) && after.row.None?
            && after.note == (if !waits && Arrives(fate) then None else before.note)
  {
    var w' := ForgetNote(w, id, fate);
    assert forall other | other != id :: At(w', other) == At(w, other);
  }

  /** Syncing one row by hand does nothing to a synced or absent one or while offline; else it is that row's turn of a flush. */
  lemma SyncOneExactly(w: World, id: Id, online: bool, fate: Fate)
    requires id in w.rows ==> w.rows[id].id == id
    ensures var (w', reply) := SyncOne(w, id, online, fate);
            && (id !in w.rows || w.rows[id].state.Synced? ==> w' == w && reply.Sent?)
            && (id in w.rows && !w.rows[id].state.Synced? && !online ==> w' == w && reply.Offline?)
            && (id in w.rows && !w.rows[id].state.Synced? && online ==>
                  Settled(At(w, id), At(w', id), true, fate) && (reply.Offline? <==> Lost(fate))
                  && (reply.Sent? <==> At(w', id).row.value.state.Synced?))
  {
    if id in w.rows && LocalWork(w.rows[id]) && online {
      PostSettles(w, w.rows[id], fate);
    }
    hide Settled, Post;
  }

  // ---- what a flush reports

  /** The request of row k comes back with an error. */
  predicate FailsAt(w: World, todo: seq<Row>, fate: nat -> Fate, k: nat)
    requires k < |todo|
  {
    fate(k).Refused? || (fate(k).Answered? && todo[k].state.Dirty? && todo[k].id !in w.notes)
  }

  lemma PostReplies(w: World, row: Row, fate: Fate)
    ensures Post(w, row, fate).1.Failed? <==> fate.Refused? || (fate.Answered? && row.state.Dirty? && row.id !in w.notes)
    ensures Post(w, row, fate).1.Offline? <==> Lost(fate)
    ensures forall id | id != row.id :: id in Post(w, row, fate).0.notes <==> id in w.notes
  {
  }

  /** A flush reports no error exactly when no request it got to failed and, where offline is an error, none was lost. */
  lemma {:induction false} FlushReports(w: World, todo: seq<Row>, fate: nat -> Fate, from: nat, r: FlushResult, whenOffline: Option<nat>)
    requires from <= |todo| && forall i, j | 0 <= i < j < |todo| :: todo[i].id != todo[j].id
    ensures var error, lost := FlushRows(w, todo, fate, from, r, whenOffline).1.error, exists k | from <= k < |todo| :: Lost(fate(k));
            && (lost && whenOffline.Some? ==> error == whenOffline)
            && (error.None? <==> r.error.None? && !(lost && whenOffline.Some?)
                                 && forall k | from <= k < |todo| && Reached(fate, from, k) :: !FailsAt(w, todo, fate, k))
    decreases |todo| - from
  {
    if from < |todo| {
      PostReplies(w, todo[from], fate(from));
      hide Post, FlushRows;
      var (w', reply) := Post(w, todo[from], fate(from));
      assert Reached(fate, from, from);
      FlushUnfolds(w, todo, fate, from, r, whenOffline);
      if reply.Offline? {
        assert forall k | from < k :: !Reached(fate, from, k);
      } else {
        var r' := if reply.Sent? then r.(flushed := r.flushed + 1) else r.(error := Some(reply.code));
        FlushReports(w', todo, fate, from + 1, r', whenOffline);
        forall k | from < k < |todo| ensures Reached(fate, from, k) <==> Reached(fate, from + 1, k)
                                     ensures FailsAt(w', todo, fate, k) == FailsAt(w, todo, fate, k) {
        }
      }
    }
  }

  lemma FlushUnfolds(w: World, todo: seq<Row>, fate: nat -> Fate, from: nat, r: FlushResult, whenOffline: Option<nat>)
    requires from < |todo|
    ensures var (w', reply) := Post(w, todo[from], fate(from));
            FlushRows(w, todo, fate, from, r, whenOffline)
              == match reply
                 case Sent => FlushRows(w', todo, fate, from + 1, r.(flushed := r.flushed + 1), whenOffline)
                 case Offline => (w', if whenOffline.Some? then r.(error := whenOffline) else r)
                 case Failed(code) => FlushRows(w', todo, fate, from + 1, r.(error := Some(code)), whenOffline)
  {
    hide Post;
  }

  // ---- switching sync on, and syncing everything

  /** Both sides of a row after it was sent with an answer: synced with its note, or, an edit without note, as it was. */
  ghost predicate Delivered(w: World, w': World, id: Id)
    requires id in w.rows
  {
    var row := w.rows[id];
    if row.state.Dirty? && id !in w.notes then id in w'.rows && w'.rows[id] == row && id !in w'.notes
    else
      && id in w'.rows && w'.rows[id] == row.(state := Synced) && id in w'.notes
      && w'.notes[id] == (if id !in w.notes then Note(row.content, row.expiresAt)
                          else if row.state.Dirty? then w.notes[id].(content := row.content) else w.notes[id])
  }

  lemma SettledIsDelivered(w: World, w': World, id: Id)
    requires id in w.rows && LocalWork(w.rows[id]) && Settled(At(w, id), At(w', id), true, Answered)
    ensures Delivered(w, w', id)
  {
  }

  /** Syncing everything delivers every row with local work, held ones too and even while sync is off. */
  lemma AnsweredSyncAllDelivers(w: World, order: seq<Id>, fates: nat -> Fate, id: Id)
    requires Inv(w) && Lists(order, w.rows) && forall k: nat :: fates(k).Answered?
    requires id in w.rows && LocalWork(w.rows[id])
    ensures Delivered(w, SyncAll(w, order, true, fates).0, id)
  {
    var todo := Filter(Listed(w.rows, order), LocalWork);
    assert forall other | other in w.rows :: Fine(w, other) && w.rows[other].id == other;
    hide Fine, Delivered, Settled, Filter, FlushRows;
    TodoReady(w, order, LocalWork);
    var k :| 0 <= k < |todo| && todo[k] == w.rows[id];
    FlushExactly(w, todo, fates, 0, FlushResult(0, None), Some(OFFLINE_ERROR), k);
    SettledIsDelivered(w, SyncAll(w, order, true, fates).0, id);
  }

  /** Switching sync on releases what was held: once answered, no row has local work but edits of notes that are gone. */
  lemma SwitchingOnDelivers(w: World, order: seq<Id>, fates: nat -> Fate, id: Id)
    requires Inv(w) && Lists(order, w.rows) && forall k: nat :: fates(k).Answered?
    requires id in w.rows && LocalWork(w.rows[id])
    ensures var w' := SetSync(w, true, order, true, fates).0; w'.syncEnabled && Delivered(w, w', id)
  {
    var ready := ReleaseAll(w.(syncEnabled := true));
    var due := (row: Row) => row.state.Queued? || row.state.Dirty?;
    var todo := Filter(Listed(ready.rows, order), due);
    var k := ReleasedIsDue(w, order, id);
    hide Inv, Filter, Delivered, Settled, FlushRows, Ready, Listed;
    FlushExactly(ready, todo, fates, 0, FlushResult(0, None), None, k);
    FlushKeepsSwitch(ready, todo, fates, 0, FlushResult(0, None), None);
    ReleasedIsDelivered(w, SetSync(w, true, order, true, fates).0, id);
  }

  lemma ReleasedIsDue(w: World, order: seq<Id>, id: Id) returns (k: nat)
    requires Inv(w) && Lists(order, w.rows) && id in w.rows && LocalWork(w.rows[id])
    ensures var ready := ReleaseAll(w.(syncEnabled := true));
            var todo := Filter(Listed(ready.rows, order), (row: Row) => row.state.Queued? || row.state.Dirty?);
            Ready(ready, todo, 0) && k < |todo| && todo[k] == ready.rows[id] && todo[k].id == id
  {
    var ready := ReleaseAll(w.(syncEnabled := true));
    var due := (row: Row) => row.state.Queued? || row.state.Dirty?;
    var todo := Filter(Listed(ready.rows, order), due);
    assert forall other | other in w.rows :: Fine(w, other) && w.rows[other].id == other;
    hide Fine, Filter;
    TodoReady(ready, order, due);
    assert due(ready.rows[id]);
    k :| 0 <= k < |todo| && todo[k] == ready.rows[id];
  }

  lemma ReleasedIsDelivered(w: World, w': World, id: Id)
    requires id in w.rows && LocalWork(w.rows[id]) && Settled(At(ReleaseAll(w.(syncEnabled := true)), id), At(w', id), true, Answered)
    ensures Delivered(w, w', id)
  {
  }

  lemma {:induction false} FlushKeepsSwitch(w: World, todo: seq<Row>, fate: nat -> Fate, from: nat, r: FlushResult,
                                            whenOffline: Option<nat>)
    requires from <= |todo|
    ensures FlushRows(w, todo, fate, from, r, whenOffline).0.syncEnabled == w.syncEnabled
    decreases |todo| - from
  {
    if from < |todo| {
      var (w', reply) := Post(w, todo[from], fate(from));
      assert w'.syncEnabled == w.syncEnabled;
      hide Post;
      match reply
      case Sent => FlushKeepsSwitch(w', todo, fate, from + 1, r.(flushed := r.flushed + 1), whenOffline);
      case Offline =>
      case Failed(code) => FlushKeepsSwitch(w', todo, fate, from + 1, r.(error := Some(code)), whenOffline);
    }
  }

  /** Switching off sends nothing, and while sync is off or offline a flush sends nothing either. */
  lemma NothingIsSent(w: World, order: seq<Id>, online: bool, fates: nat -> Fate)
    requires Lists(order, w.rows)
    ensures SetSync(w, false, order, online, fates) == (w.(syncEnabled := false), FlushResult(0, None))
    ensures !w.syncEnabled || !online ==> FlushQueued(w, order, online, fates) == (w, FlushResult(0, None))
    ensures SyncAll(w, order, false, fates) == (w, FlushResult(0, Some(OFFLINE_ERROR)))
  {
  }
}
