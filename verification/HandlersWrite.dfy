// SyncClient.doApply and the marking of archive rows (web/src/client.ts), on
// the client's stores.

module HandlersWrite {
  import opened Basics
  import opened Lww
  import opened Messages
  import opened SyncState
  import opened SyncInv
  import opened SyncRuns
  import opened Stores
  import opened Handlers

  // A failure that is not retried.
  predicate IsTerminal(st: Status) {
    st != Success && st != NoChange && st != DatabaseError && st != StorageError
  }

  predicate Acknowledges(st: Option<Status>) { st == Some(Success) || st == Some(NoChange) }

  // The status at a position; the array may be short or have holes.
  function Slot(stats: seq<Option<Status>>, i: nat): Option<Status> { if i < |stats| then stats[i] else None }

  predicate Fails(st: Option<Status>) { st.Some? && IsTerminal(st.value) }

  // Keys whose status acknowledges them, and keys with a terminal failure.
  // A key with a transient failure or no status is in neither set.
  function DoneOf(keys: seq<Msg>, stats: seq<Option<Status>>): set<Msg> {
    set i: nat | i < |keys| && Acknowledges(Slot(stats, i)) :: keys[i]
  }

  function FailedOf(keys: seq<Msg>, stats: seq<Option<Status>>): set<Msg> {
    set i: nat | i < |keys| && Fails(Slot(stats, i)) :: keys[i]
  }

  // The archive once it is marked by these statuses.
  function MarkedBy(archive: map<Msg, ArchRow>, keys: seq<Msg>, stats: seq<Option<Status>>): map<Msg, ArchRow> {
    map m | m in archive ::
      if m in FailedOf(keys, stats) then archive[m].(apld := Failed)
      else if m in DoneOf(keys, stats) then archive[m].(apld := Applied)
      else archive[m]
  }

  // Some slot of this key holds this status.
  ghost predicate Reported(keys: seq<Msg>, stats: seq<Option<Status>>, m: Msg, st: Status) {
    exists i :: 0 <= i < |keys| && i < |stats| && keys[i] == m && stats[i] == Some(st)
  }

  // A row fails when a status other than these four is reported for it, else it
  // is applied on Success or NoChange, and else it keeps its mark.
  ghost predicate MarkedRow(before: ArchRow, after: ArchRow, keys: seq<Msg>, stats: seq<Option<Status>>, m: Msg) {
    && after.realm == before.realm
    && after.apld ==
       if exists st :: Reported(keys, stats, m, st) && st !in {Success, NoChange, DatabaseError, StorageError} then Failed
       else if Reported(keys, stats, m, Success) || Reported(keys, stats, m, NoChange) then Applied
       else before.apld
  }

  lemma MarkedMeans(archive: map<Msg, ArchRow>, keys: seq<Msg>, stats: seq<Option<Status>>, m: Msg)
    requires m in archive
    ensures m in MarkedBy(archive, keys, stats) && MarkedRow(archive[m], MarkedBy(archive, keys, stats)[m], keys, stats, m)
  {
    if st :| Reported(keys, stats, m, st) && st !in {Success, NoChange, DatabaseError, StorageError} {
      var i :| 0 <= i < |keys| && i < |stats| && keys[i] == m && stats[i] == Some(st);
      assert Fails(Slot(stats, i));
    } else {
      forall i: nat | i < |keys| && keys[i] == m
        ensures !Fails(Slot(stats, i))
      {
        if i < |stats| && stats[i].Some? { assert Reported(keys, stats, m, stats[i].value); }
      }
      forall st | (st == Success || st == NoChange) && Reported(keys, stats, m, st)
        ensures m in DoneOf(keys, stats)
      {
        var i :| 0 <= i < |keys| && i < |stats| && keys[i] == m && stats[i] == Some(st);
        assert Acknowledges(Slot(stats, i));
      }
      if m in DoneOf(keys, stats) {
        var i: nat :| i < |keys| && Acknowledges(Slot(stats, i)) && keys[i] == m;
        assert Reported(keys, stats, m, stats[i].value);
      }
    }
  }

  // markApplyStats: acknowledged keys, and keys with a terminal failure.
  method MarkApplyStats(store: ClientStore, keys: seq<Msg>, stats: seq<Option<Status>>)
    modifies store.messages
    ensures store.messages.messages == MarkedBy(old(store.messages.messages), keys, stats)
    ensures forall m :: m in old(store.messages.messages) ==>
              m in store.messages.messages
              && MarkedRow(old(store.messages.messages)[m], store.messages.messages[m], keys, stats, m)
  {
    forall m | m in store.messages.messages {
      MarkedMeans(store.messages.messages, keys, stats, m);
    }
    var done, failed := SplitStats(keys, stats);
    if |done| > 0 { store.messages.MarkApplied(done); }
    if |failed| > 0 { store.messages.MarkFailed(failed); }
    assert forall m :: m in done <==> m in DoneOf(keys, stats);
    assert forall m :: m in failed <==> m in FailedOf(keys, stats);
  }

  method SplitStats(keys: seq<Msg>, stats: seq<Option<Status>>) returns (done: seq<Msg>, failed: seq<Msg>)
    ensures (set m | m in done) == DoneOf(keys, stats)
    ensures (set m | m in failed) == FailedOf(keys, stats)
  {
    done, failed := [], [];
    for i := 0 to |keys|
      invariant (set m | m in done) == DoneOf(keys[..i], stats)
      invariant (set m | m in failed) == FailedOf(keys[..i], stats)
    {
      var st := Slot(stats, i);
      OneMoreKey(keys, stats, i);
      if Acknowledges(st) {
        done := done + [keys[i]];
      } else if Fails(st) {
        failed := failed + [keys[i]];
      }
    }
    assert keys[..|keys|] == keys;
  }

  lemma OneMoreKey(keys: seq<Msg>, stats: seq<Option<Status>>, i: nat)
    requires i < |keys|
    ensures DoneOf(keys[..i + 1], stats) == DoneOf(keys[..i], stats) + (if Acknowledges(Slot(stats, i)) then {keys[i]} else {})
    ensures FailedOf(keys[..i + 1], stats) == FailedOf(keys[..i], stats) + (if Fails(Slot(stats, i)) then {keys[i]} else {})
  {
    assert keys[..i + 1] == keys[..i] + [keys[i]];
  }

  // Hashes that go to the upload queue.
  method ToUpload(keys: seq<Msg>, stats: seq<Option<Status>>) returns (up: seq<Msg>)
    ensures (set m | m in up) == DoneOf(keys, stats)
  {
    up := [];
    for i := 0 to |keys|
      invariant (set m | m in up) == DoneOf(keys[..i], stats)
    {
      OneMoreKey(keys, stats, i);
      if Acknowledges(Slot(stats, i)) { up := up + [keys[i]]; }
    }
    assert keys[..|keys|] == keys;
  }

  // What state.apply returns for a batch, when the entity store does not fail
  // and every eid parses.
  ghost predicate StatsOf(msgs: seq<Msg>, stats: seq<Option<Status>>) {
    && (forall m :: m in msgs && MsgToOp(m).Err? ==> IsTerminal(MsgToOp(m).status))
    && exists applied :: AppliedStats(msgs, applied) && stats == Align(msgs, applied)
  }

  predicate AppliedStats(msgs: seq<Msg>, applied: seq<Status>) {
    |applied| == |OpsOf(msgs)| && forall k :: 0 <= k < |applied| ==> applied[k] == Success || applied[k] == NoChange
  }

  lemma StatsMean(msgs: seq<Msg>, stats: seq<Option<Status>>, i: nat)
    requires StatsOf(msgs, stats) && i < |msgs|
    ensures |stats| == |msgs|
    ensures Acknowledges(stats[i]) <==> Acked(msgs, i)
    ensures Fails(stats[i]) <==> !Good(msgs[i])
  {
    var applied :| AppliedStats(msgs, applied) && stats == Align(msgs, applied);
    assert msgs[i] in msgs;
  }

  // With such statuses the archive is marked as the protocol's step marks it,
  // and exactly what that step queues is queued.
  lemma MarkedAsStep(archive: map<Msg, ArchRow>, msgs: seq<Msg>, stats: seq<Option<Status>>)
    requires StatsOf(msgs, stats)
    ensures DoneOf(msgs, stats) == AckedOf(msgs)
    ensures MarkedBy(archive, msgs, stats) == Mark(archive, msgs)
  {
    forall i: nat | i < |msgs|
      ensures Acknowledges(Slot(stats, i)) <==> Acked(msgs, i)
      ensures Fails(Slot(stats, i)) <==> !Good(msgs[i])
    {
      StatsMean(msgs, stats, i);
    }
    assert forall m :: m in FailedOf(msgs, stats) <==> m in msgs && !Good(m);
    assert forall m :: m in AckedOf(msgs) ==> Good(m);
  }

  /* ---- doApply ---- */

  lemma AddRowsMove(h: Host, c0: Client, id: nat, moves: seq<Move>, c: Client, parts: seq<Msg>, r: Realm)
    requires Came(h, c0, id, moves, c, Write(parts, r, true, Kicked))
    ensures Came(h, c0, id, moves + [Writing(Add)],
                 To(c.(archive := Archive(c.archive, AsRows(parts, r))), id, Write(parts, r, true, Archived)),
                 Write(parts, r, true, Archived))
  {
    AfterSnoc(h, c0, id, moves, h, c, Writing(Add));
  }

  lemma DropRowAct(c: Client, id: nat, t: Task, key: (Realm, nat))
    requires t.Write? && t.at == Archived && id in c.tasks && c.tasks[id] == t && key in c.downloads && c.downloads[key] in t.parts
    ensures WriteEnabled(c, id, DropDownload(key))
    ensures WriteAct(c, id, DropDownload(key)) == c.(downloads := c.downloads - {key})
  {
  }

  lemma DropRowMove(h: Host, c0: Client, id: nat, moves: seq<Move>, c: Client, t: Task, key: (Realm, nat)) returns (c': Client)
    requires t.Write? && t.at == Archived && Came(h, c0, id, moves, c, t) && key in c.downloads && c.downloads[key] in t.parts
    ensures Came(h, c0, id, moves + [Writing(DropDownload(key))], c', t) && c' == c.(downloads := c.downloads - {key})
  {
    DropRowAct(c, id, t, key);
    AfterSnoc(h, c0, id, moves, h, c, Writing(DropDownload(key)));
    c' := c.(downloads := c.downloads - {key});
  }

  lemma MarkAct(c: Client, id: nat, parts: seq<Msg>, r: Realm)
    requires id in c.tasks && c.tasks[id] == Write(parts, r, true, Archived)
    ensures WriteEnabled(c, id, MarkStats)
    ensures WriteAct(c, id, MarkStats) == To(c.(archive := Mark(c.archive, parts)), id, Write(parts, r, true, Marked))
  {
  }

  lemma MarkMove(h: Host, c0: Client, id: nat, moves: seq<Move>, c: Client, parts: seq<Msg>, r: Realm)
    requires Came(h, c0, id, moves, c, Write(parts, r, true, Archived))
    ensures Came(h, c0, id, moves + [Writing(MarkStats)],
                 To(c.(archive := Mark(c.archive, parts)), id, Write(parts, r, true, Marked)), Write(parts, r, true, Marked))
  {
    MarkAct(c, id, parts, r);
    AfterSnoc(h, c0, id, moves, h, c, Writing(MarkStats));
  }

  lemma QueueMove(h: Host, c0: Client, id: nat, moves: seq<Move>, c: Client, parts: seq<Msg>, r: Realm) returns (c': Client)
    requires Came(h, c0, id, moves, c, Write(parts, r, true, Marked))
    ensures Over(h, c0, id, moves + [Writing(QueueUpload)], c')
    ensures c'.archive == c.archive && c'.downloads == c.downloads && c'.cursor == c.cursor
    ensures c'.uploads == c.uploads + AckedOf(parts)
  {
    AfterSnoc(h, c0, id, moves, h, c, Writing(QueueUpload));
    c' := WriteAct(c, id, QueueUpload);
    assert c'.tasks == c0.tasks - {id};
  }

  // The queue without the rows of these messages, except those still to look at.
  function Matching(queue: map<(Realm, nat), Msg>, parts: seq<Msg>, later: set<(Realm, nat)>): map<(Realm, nat), Msg> {
    map k | k in queue && (k in later || queue[k] !in parts) :: queue[k]
  }

  method DropOne(store: ClientStore, m: Msg, key: (Realm, nat), t: Task, ghost h: Host, ghost c0: Client, ghost id: nat,
                 ghost moves0: seq<Move>, ghost c1: Client)
    returns (ghost moves: seq<Move>, ghost c: Client)
    requires t.Write? && t.at == Archived && store.Holds(c1) && Came(h, c0, id, moves0, c1, t)
    requires key in c1.downloads && c1.downloads[key] == m
    modifies store.downloads
    ensures store.Holds(c) && Came(h, c0, id, moves, c, t)
    ensures c == c1.(downloads := if m in t.parts then c1.downloads - {key} else c1.downloads)
  {
    moves, c := moves0, c1;
    if m !in t.parts { return; }
    store.downloads.Deq(key.0, [key.1]);
    OneKey(key.0, key.1);
    c := DropRowMove(h, c0, id, moves, c, t, key);
    moves := moves + [Writing(DropDownload(key))];
  }

  // deqDownloadsForHeadHashes: queue rows of messages that were just archived.
  method DropMatching(store: ClientStore, t: Task, ghost h: Host, ghost c0: Client, ghost id: nat, ghost moves0: seq<Move>,
                      ghost c1: Client)
    returns (ghost moves: seq<Move>, ghost c: Client)
    requires t.Write? && t.at == Archived && store.Holds(c1) && Came(h, c0, id, moves0, c1, t)
    modifies store.downloads
    ensures store.Holds(c) && Came(h, c0, id, moves, c, t)
    ensures c == c1.(downloads := Matching(c1.downloads, t.parts, {}))
  {
    moves, c := moves0, c1;
    var listed := store.downloads.queue;
    var keys := listed.Keys;
    assert Matching(listed, t.parts, keys) == listed;
    while keys != {}
      invariant keys <= listed.Keys && listed == c1.downloads
      invariant store.Holds(c) && Came(h, c0, id, moves, c, t)
      invariant c == c1.(downloads := Matching(listed, t.parts, keys))
    {
      var key :| key in keys;
      moves, c := DropOne(store, listed[key], key, t, h, c0, id, moves, c);
      keys := keys - {key};
      assert Matching(listed, t.parts, keys) == c.downloads;
    }
  }

  // The first half: archive the messages and drop their queued downloads.
  method ArchiveParts(store: ClientStore, parts: seq<Msg>, r: Realm, ghost h: Host, ghost c0: Client, ghost id: nat)
    returns (ghost moves: seq<Move>, ghost c: Client)
    requires store.Holds(c0) && id in c0.tasks && c0.tasks[id] == Write(parts, r, true, Kicked)
    modifies store.messages, store.downloads
    ensures store.Holds(c) && Came(h, c0, id, moves, c, Write(parts, r, true, Archived))
    ensures c.archive == Archive(c0.archive, AsRows(parts, r)) && c.uploads == c0.uploads && c.cursor == c0.cursor
    ensures c.downloads == Matching(c0.downloads, parts, {})
  {
    store.messages.Add(AsRows(parts, r));
    assert c0.tasks[id := c0.tasks[id]] == c0.tasks;
    AddRowsMove(h, c0, id, [], c0, parts, r);
    moves := [] + [Writing(Add)];
    c := To(c0.(archive := Archive(c0.archive, AsRows(parts, r))), id, Write(parts, r, true, Archived));
    moves, c := DropMatching(store, Write(parts, r, true, Archived), h, c0, id, moves, c);
  }

  // The second half: mark the rows and queue what was acknowledged.
  method MarkAndQueue(store: ClientStore, parts: seq<Msg>, r: Realm, stats: seq<Option<Status>>, ghost h: Host,
                      ghost c0: Client, ghost id: nat, ghost moves0: seq<Move>, ghost c1: Client)
    returns (ghost moves: seq<Move>, ghost c: Client)
    requires store.Holds(c1) && Came(h, c0, id, moves0, c1, Write(parts, r, true, Archived)) && StatsOf(parts, stats)
    modifies store.messages, store.uploads
    ensures store.Holds(c) && Over(h, c0, id, moves, c)
    ensures c.archive == Mark(c1.archive, parts) && c.uploads == c1.uploads + AckedOf(parts)
    ensures c.downloads == c1.downloads && c.cursor == c1.cursor
  {
    MarkApplyStats(store, parts, stats);
    MarkedAsStep(c1.archive, parts, stats);
    MarkMove(h, c0, id, moves0, c1, parts, r);
    c := To(c1.(archive := Mark(c1.archive, parts)), id, Write(parts, r, true, Marked));
    moves := moves0 + [Writing(MarkStats)];
    var toUpload := ToUpload(parts, stats);
    if |toUpload| > 0 { store.uploads.Enq(toUpload); }
    assert store.uploads.queue == c1.uploads + AckedOf(parts);
    c := QueueMove(h, c0, id, moves, c, parts, r);
    moves := moves + [Writing(QueueUpload)];
  }

  // Archive, drop matching downloads, mark, and queue what was acknowledged.
  // The batch has been applied; stats is what that returned.
  method DoApply(store: ClientStore, parts: seq<Msg>, r: Realm, stats: seq<Option<Status>>, ghost h: Host, ghost c0: Client,
                 ghost id: nat)
    returns (ghost moves: seq<Move>, ghost c: Client)
    requires store.Holds(c0) && id in c0.tasks && c0.tasks[id] == Write(parts, r, true, Kicked)
    requires StatsOf(parts, stats)
    modifies store.messages, store.downloads, store.uploads
    ensures Over(h, c0, id, moves, c) && store.Holds(c)
    ensures c.archive == Mark(Archive(c0.archive, AsRows(parts, r)), parts)
    ensures c.uploads == c0.uploads + AckedOf(parts) && c.cursor == c0.cursor
    ensures c.downloads == map k | k in c0.downloads && c0.downloads[k] !in parts :: c0.downloads[k]
  {
    moves, c := ArchiveParts(store, parts, r, h, c0, id);
    moves, c := MarkAndQueue(store, parts, r, stats, h, c0, id, moves, c);
  }

  /* ---- applyStored ---- */

  lemma MarkDrainAct(c: Client, id: nat, listed: seq<Msg>)
    requires id in c.tasks && c.tasks[id] == Drain(listed, true)
    ensures DrainEnabled(c, id, MarkDrain) && DrainAct(c, id, MarkDrain) == End(c.(archive := Mark(c.archive, listed)), id)
  {
  }

  // The listed rows were applied; stats is what that returned.
  method ApplyStored(store: ClientStore, listed: seq<Msg>, stats: seq<Option<Status>>, ghost h: Host, ghost c0: Client,
                     ghost id: nat)
    returns (ghost moves: seq<Move>, ghost c: Client)
    requires store.Holds(c0) && id in c0.tasks && c0.tasks[id] == Drain(listed, true) && StatsOf(listed, stats)
    modifies store.messages
    ensures Over(h, c0, id, moves, c) && store.Holds(c)
    ensures c.archive == Mark(c0.archive, listed)
    ensures c.uploads == c0.uploads && c.downloads == c0.downloads && c.cursor == c0.cursor
  {
    MarkApplyStats(store, listed, stats);
    MarkedAsStep(c0.archive, listed, stats);
    MarkDrainAct(c0, id, listed);
    AfterSnoc(h, c0, id, [], h, c0, Draining(MarkDrain));
    moves, c := [] + [Draining(MarkDrain)], End(c0.(archive := Mark(c0.archive, listed)), id);
  }
}
