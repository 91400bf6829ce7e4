// More handlers of web/src/sync.ts on the client's stores: opening pulled
// bodies, and notifications.

module HandlersOpen {
  import opened Basics
  import opened Lww
  import opened Messages
  import opened SyncState
  import opened SyncInv
  import opened SyncRuns
  import opened Stores
  import opened Handlers

  /* ---- openPulled ---- */

  lemma OpenAddMove(h: Host, c0: Client, id: nat, moves: seq<Move>, c: Client, rows: seq<Dl>)
    requires Came(h, c0, id, moves, c, Pull(rows))
    ensures Came(h, c0, id, moves + [Pulling(OpenAdd)],
                 To(c.(archive := Archive(c.archive, rows)), id, OpenDeq(rows)), OpenDeq(rows))
  {
    AfterSnoc(h, c0, id, moves, h, c, Pulling(OpenAdd));
  }

  lemma OpenDropMove(h: Host, c0: Client, id: nat, moves: seq<Move>, c: Client, rows: seq<Dl>)
    requires Came(h, c0, id, moves, c, OpenDeq(rows)) && rows != []
    ensures Came(h, c0, id, moves + [Pulling(OpenDrop)],
                 To(c.(downloads := c.downloads - {(rows[0].realm, rows[0].seqno)}), id, OpenDeq(rows[1..])), OpenDeq(rows[1..]))
  {
    AfterSnoc(h, c0, id, moves, h, c, Pulling(OpenDrop));
  }

  lemma OpenEndMove(h: Host, c0: Client, id: nat, moves: seq<Move>, c: Client)
    requires Came(h, c0, id, moves, c, OpenDeq([]))
    ensures Over(h, c0, id, moves + [Pulling(OpenDrop)], End(c, id))
  {
    AfterSnoc(h, c0, id, moves, h, c, Pulling(OpenDrop));
    assert End(c, id).tasks == c0.tasks - {id};
  }

  function Keys(rows: seq<Dl>): set<(Realm, nat)> { set d | d in rows :: (d.realm, d.seqno) }

  // The rows leave the queue one by one, in any grouping.
  lemma {:induction false} OpenDrops(h: Host, c0: Client, id: nat, moves: seq<Move>, c: Client, rows: seq<Dl>)
    returns (moves': seq<Move>, c': Client)
    requires Came(h, c0, id, moves, c, OpenDeq(rows))
    ensures Over(h, c0, id, moves', c')
    ensures c'.archive == c.archive && c'.uploads == c.uploads && c'.cursor == c.cursor
    ensures c'.downloads == c.downloads - Keys(rows)
    decreases |rows|
  {
    if rows == [] {
      OpenEndMove(h, c0, id, moves, c);
      moves', c' := moves + [Pulling(OpenDrop)], End(c, id);
    } else {
      OpenDropMove(h, c0, id, moves, c, rows);
      var mid := To(c.(downloads := c.downloads - {(rows[0].realm, rows[0].seqno)}), id, OpenDeq(rows[1..]));
      moves', c' := OpenDrops(h, c0, id, moves + [Pulling(OpenDrop)], mid, rows[1..]);
      assert rows == [rows[0]] + rows[1..];
      assert Keys(rows) == {(rows[0].realm, rows[0].seqno)} + Keys(rows[1..]);
    }
  }

  // Sequence numbers by realm, so that one dequeue serves one realm.
  method NoteDeqs(rows: seq<Dl>) returns (groups: map<Realm, seq<nat>>)
    ensures forall r, q :: (r, q) in Keys(rows) <==> r in groups && q in groups[r]
  {
    groups := map[];
    for i := 0 to |rows|
      invariant forall r, q :: (r, q) in Keys(rows[..i]) <==> r in groups && q in groups[r]
    {
      assert rows[..i + 1] == rows[..i] + [rows[i]];
      assert Keys(rows[..i + 1]) == Keys(rows[..i]) + {(rows[i].realm, rows[i].seqno)};
      var (r, q) := (rows[i].realm, rows[i].seqno);
      groups := groups[r := (if r in groups then groups[r] else []) + [q]];
    }
    assert rows[..|rows|] == rows;
  }

  method FlushDeq(store: ClientStore, groups: map<Realm, seq<nat>>)
    modifies store.downloads
    ensures store.downloads.queue == map k | k in old(store.downloads.queue) && !(k.0 in groups && k.1 in groups[k.0]) ::
                                       old(store.downloads.queue)[k]
  {
    var realms := groups.Keys;
    while realms != {}
      invariant realms <= groups.Keys
      invariant store.downloads.queue ==
                map k | k in old(store.downloads.queue) && !(k.0 in groups.Keys - realms && k.1 in groups[k.0]) ::
                  old(store.downloads.queue)[k]
    {
      var r :| r in realms;
      store.downloads.Deq(r, groups[r]);
      realms := realms - {r};
    }
  }

  // The rows whose bag opened, in order.
  function Opened(rows: seq<Dl>, opens: seq<bool>): (out: seq<Dl>)
    requires |opens| == |rows|
    ensures forall d :: d in out <==> exists i :: 0 <= i < |rows| && opens[i] && rows[i] == d
    decreases |rows|
  {
    if rows == [] then []
    else
      var n := |rows| - 1;
      Opened(rows[..n], opens[..n]) + (if opens[n] then [rows[n]] else [])
  }

  predicate AllOpen(opens: seq<bool>) { forall i :: 0 <= i < |opens| ==> opens[i] }

  lemma {:induction false} OpenedAll(rows: seq<Dl>, opens: seq<bool>)
    requires |opens| == |rows| && AllOpen(opens)
    ensures Opened(rows, opens) == rows
    decreases |rows|
  {
    if rows != [] {
      var n := |rows| - 1;
      OpenedAll(rows[..n], opens[..n]);
      assert rows == rows[..n] + [rows[n]];
    }
  }

  method OpenRows(rows: seq<Dl>, opens: seq<bool>) returns (toStore: seq<Dl>)
    requires |opens| == |rows|
    ensures toStore == Opened(rows, opens)
  {
    toStore := [];
    for i := 0 to |rows|
      invariant toStore == Opened(rows[..i], opens[..i])
    {
      assert rows[..i + 1][..i] == rows[..i] && opens[..i + 1][..i] == opens[..i];
      if opens[i] { toStore := toStore + [rows[i]]; }
    }
    assert rows[..|rows|] == rows && opens[..|opens|] == opens;
  }

  // The moves of a pull whose bags all open.
  lemma OpenMoves(h: Host, c0: Client, id: nat, rows: seq<Dl>) returns (moves: seq<Move>, c: Client)
    requires id in c0.tasks && c0.tasks[id] == Pull(rows)
    ensures Over(h, c0, id, moves, c)
    ensures c.archive == Archive(c0.archive, rows) && c.downloads == c0.downloads - Keys(rows)
    ensures c.uploads == c0.uploads && c.cursor == c0.cursor
  {
    assert c0.tasks[id := c0.tasks[id]] == c0.tasks;
    OpenAddMove(h, c0, id, [], c0, rows);
    var mid := To(c0.(archive := Archive(c0.archive, rows)), id, OpenDeq(rows));
    moves, c := OpenDrops(h, c0, id, [] + [Pulling(OpenAdd)], mid, rows);
  }

  // Archive what opened, then drop all rows from the queue: a bag that does
  // not open is not asked for again. An honest host's bags all open, and then
  // this is the protocol's pull.
  method OpenPulled(store: ClientStore, rows: seq<Dl>, opens: seq<bool>, ghost h: Host, ghost c0: Client, ghost id: nat)
    returns (ghost moves: seq<Move>, ghost c: Client)
    requires store.Holds(c0) && id in c0.tasks && c0.tasks[id] == Pull(rows) && |opens| == |rows|
    modifies store.messages, store.downloads
    ensures store.messages.messages == Archive(c0.archive, Opened(rows, opens))
    ensures store.downloads.queue == c0.downloads - Keys(rows)
    ensures AllOpen(opens) ==> Over(h, c0, id, moves, c) && store.Holds(c)
    ensures c.archive == Archive(c0.archive, rows) && c.downloads == c0.downloads - Keys(rows)
    ensures c.uploads == c0.uploads && c.cursor == c0.cursor
  {
    var toStore := OpenRows(rows, opens);
    store.messages.Add(toStore);
    var groups := NoteDeqs(rows);
    FlushDeq(store, groups);
    moves, c := OpenMoves(h, c0, id, rows);
    assert store.downloads.queue == c0.downloads - Keys(rows);
    if AllOpen(opens) { OpenedAll(rows, opens); }
  }

  /* ---- handleNotif ---- */

  // The notice that is handled next, and its message.
  ghost predicate NoticeNext(h: Host, t: Task, n: Notice, m: Msg) {
    t.Notif? && t.seen < |t.notices| && t.notices[t.seen] == n && OnHostAt(h, n.realm, n.seqno) && BagAt(h, n.realm, n.seqno) == m
  }

  // What handling it leaves of the handler and of the client.
  ghost function Taken(t: Task, n: Notice, m: Msg, known: bool): Task
    requires t.Notif?
  {
    if known then t.(seen := t.seen + 1)
    else if n.inline then t.(seen := t.seen + 1, runs := NotifRun(t, n), complete := t.complete[m := n.realm])
    else t.(seen := t.seen + 1, runs := NotifRun(t, n))
  }

  ghost function TakenBy(c: Client, n: Notice, m: Msg, known: bool): Client {
    if known || n.inline then c else c.(downloads := c.downloads[(n.realm, n.seqno) := m])
  }

  lemma TakeAct(h: Host, c: Client, id: nat, t: Task, n: Notice, m: Msg, known: bool)
    requires NoticeNext(h, t, n, m) && id in c.tasks && c.tasks[id] == t && (known ==> m in c.archive)
    ensures NotifEnabled(h, c, id, Take(known))
    ensures NotifAct(h, c, id, Take(known)) == To(TakenBy(c, n, m, known), id, Taken(t, n, m, known))
  {
  }

  lemma TakeMove(h: Host, c0: Client, id: nat, moves: seq<Move>, c: Client, t: Task, n: Notice, m: Msg, known: bool)
    returns (c': Client)
    requires NoticeNext(h, t, n, m) && Came(h, c0, id, moves, c, t) && (known ==> m in c.archive)
    ensures Came(h, c0, id, moves + [Notifying(Take(known))], c', Taken(t, n, m, known))
    ensures c' == To(TakenBy(c, n, m, known), id, Taken(t, n, m, known))
  {
    TakeAct(h, c, id, t, n, m, known);
    AfterSnoc(h, c0, id, moves, h, c, Notifying(Take(known)));
    c' := NotifAct(h, c, id, Take(known));
  }

  lemma TouchRunAct(h: Host, c: Client, id: nat, t: Task, r: Realm)
    requires t.Notif? && t.seen == |t.notices| && r in t.runs && id in c.tasks && c.tasks[id] == t
    ensures NotifEnabled(h, c, id, TouchRun(r))
    ensures NotifAct(h, c, id, TouchRun(r)) ==
            To(if t.runs[r] > CursorOf(t.snap, r) then c.(cursor := Advanced(c.cursor, r, t.runs[r])) else c,
               id, t.(runs := t.runs - {r}))
  {
  }

  lemma TouchRunMove(h: Host, c0: Client, id: nat, moves: seq<Move>, c: Client, t: Task, r: Realm) returns (c': Client)
    requires t.Notif? && t.seen == |t.notices| && r in t.runs && Came(h, c0, id, moves, c, t)
    ensures Came(h, c0, id, moves + [Notifying(TouchRun(r))], c', t.(runs := t.runs - {r}))
    ensures c'.archive == c.archive && c'.uploads == c.uploads && c'.downloads == c.downloads
    ensures c'.cursor == if t.runs[r] > CursorOf(t.snap, r) then Advanced(c.cursor, r, t.runs[r]) else c.cursor
  {
    TouchRunAct(h, c, id, t, r);
    AfterSnoc(h, c0, id, moves, h, c, Notifying(TouchRun(r)));
    c' := NotifAct(h, c, id, TouchRun(r));
  }

  lemma AddCompleteAct(h: Host, c: Client, id: nat, t: Task)
    requires t.Notif? && t.seen == |t.notices| && t.runs == map[] && id in c.tasks && c.tasks[id] == t
    ensures NotifEnabled(h, c, id, AddComplete)
    ensures NotifAct(h, c, id, AddComplete) ==
            End(c.(archive := c.archive + map m | m in t.complete :: ArchRow(Pending, t.complete[m])), id)
  {
  }

  lemma AddCompleteMove(h: Host, c0: Client, id: nat, moves: seq<Move>, c: Client, t: Task) returns (c': Client)
    requires t.Notif? && t.seen == |t.notices| && t.runs == map[] && Came(h, c0, id, moves, c, t)
    ensures Over(h, c0, id, moves + [Notifying(AddComplete)], c')
    ensures c'.archive == c.archive + map m | m in t.complete :: ArchRow(Pending, t.complete[m])
    ensures c'.uploads == c.uploads && c'.downloads == c.downloads && c'.cursor == c.cursor
  {
    AddCompleteAct(h, c, id, t);
    AfterSnoc(h, c0, id, moves, h, c, Notifying(AddComplete));
    c' := NotifAct(h, c, id, AddComplete);
    assert c'.tasks == c0.tasks - {id};
  }

  // The inline bodies collected so far, as a map.
  function ByMsg(rows: seq<Dl>): map<Msg, Realm> {
    if rows == [] then map[] else ByMsg(rows[..|rows| - 1])[rows[|rows| - 1].msg := rows[|rows| - 1].realm]
  }

  lemma {:induction false} ArchiveByMsg(archive: map<Msg, ArchRow>, rows: seq<Dl>)
    ensures Archive(archive, rows) == archive + map m | m in ByMsg(rows) :: ArchRow(Pending, ByMsg(rows)[m])
    decreases |rows|
  {
    if rows != [] { ArchiveByMsg(archive, rows[..|rows| - 1]); }
  }

  function RunOf(t: Task, r: Realm): nat
    requires t.Notif?
  {
    if r in t.runs then t.runs[r] else CursorOf(t.snap, r)
  }

  // What one notice leaves: known, to be pulled, or archived at the end.
  ghost predicate TookOne(c1: Client, t: Task, n: Notice, m: Msg, complete: seq<Dl>, c: Client, t': Task, complete': seq<Dl>,
                          again: bool)
    requires t.Notif?
  {
    var known := m in c1.archive;
    && t' == t.(seen := t.seen + 1, runs := if known then t.runs else NotifRun(t, n), complete := ByMsg(complete'))
    && complete' == complete + (if !known && n.inline then [Dl(n.realm, n.seqno, m)] else [])
    && c.archive == c1.archive && c.cursor == c1.cursor && c.uploads == c1.uploads
    && c.downloads == (if !known && !n.inline then c1.downloads[(n.realm, n.seqno) := m] else c1.downloads)
    && again == (!known && (!n.inline || n.seqno != RunOf(t, n.realm) + 1))
  }

  // A new message: enqueue its bag, or keep its body for the end.
  method KeepNew(downloads: MemoryDownloadQueue, n: Notice, m: Msg, complete: seq<Dl>) returns (complete': seq<Dl>)
    modifies downloads
    ensures complete' == complete + if n.inline then [Dl(n.realm, n.seqno, m)] else []
    ensures ByMsg(complete') == if n.inline then ByMsg(complete)[m := n.realm] else ByMsg(complete)
    ensures downloads.queue == if n.inline then old(downloads.queue) else old(downloads.queue)[(n.realm, n.seqno) := m]
  {
    complete' := complete;
    assert complete + [] == complete;
    if !n.inline {
      EnqueueMore(downloads.queue, [], Dl(n.realm, n.seqno, m));
      assert [] + [Dl(n.realm, n.seqno, m)] == [Dl(n.realm, n.seqno, m)];
      downloads.Enq([Dl(n.realm, n.seqno, m)]);
    } else {
      complete' := complete + [Dl(n.realm, n.seqno, m)];
      ByMsgMore(complete, Dl(n.realm, n.seqno, m));
    }
  }

  // One notice. again: something is left for a full sync to do.
  method TakeNotice(store: ClientStore, t: Task, n: Notice, m: Msg, complete: seq<Dl>, ghost h: Host, ghost c0: Client,
                    ghost id: nat, ghost moves0: seq<Move>, ghost c1: Client)
    returns (t': Task, complete': seq<Dl>, again: bool, ghost moves: seq<Move>, ghost c: Client)
    requires store.Holds(c1) && Came(h, c0, id, moves0, c1, t) && NoticeNext(h, t, n, m) && t.complete == ByMsg(complete)
    modifies store.downloads
    ensures t'.Notif? && store.Holds(c) && Came(h, c0, id, moves, c, t')
    ensures TookOne(c1, t, n, m, complete, c, t', complete', again)
  {
    var known := store.messages.Has(m);
    c := TakeMove(h, c0, id, moves0, c1, t, n, m, known);
    moves := moves0 + [Notifying(Take(known))];
    if known {
      t', complete', again := t.(seen := t.seen + 1), complete, false;
      assert complete + [] == complete;
      return;
    }
    complete' := KeepNew(store.downloads, n, m, complete);
    t', again := FollowRun(t, n, ByMsg(complete'));
    TakenNew(t, n, m, complete, complete');
  }

  lemma TakenNew(t: Task, n: Notice, m: Msg, complete: seq<Dl>, complete': seq<Dl>)
    requires t.Notif? && t.complete == ByMsg(complete)
    requires ByMsg(complete') == if n.inline then ByMsg(complete)[m := n.realm] else ByMsg(complete)
    ensures t.(seen := t.seen + 1, runs := NotifRun(t, n), complete := ByMsg(complete')) == Taken(t, n, m, false)
  {
  }

  // The realm's run gets longer, or the notice is out of sequence.
  method FollowRun(t: Task, n: Notice, complete: map<Msg, Realm>) returns (t': Task, again: bool)
    requires t.Notif?
    ensures t' == t.(seen := t.seen + 1, runs := NotifRun(t, n), complete := complete)
    ensures again == (!n.inline || n.seqno != RunOf(t, n.realm) + 1)
  {
    var run := RunOf(t, n.realm);
    again := !n.inline || n.seqno != run + 1;
    if n.seqno == run + 1 { run := n.seqno; }
    t' := t.(seen := t.seen + 1, runs := t.runs[n.realm := run], complete := complete);
  }

  lemma ByMsgMore(rows: seq<Dl>, d: Dl)
    ensures ByMsg(rows + [d]) == ByMsg(rows)[d.msg := d.realm]
  {
    assert (rows + [d])[..|rows|] == rows;
  }

  /* ---- What a notification amounts to ---- */

  // The messages it archives, and the rows it enqueues: those not archived
  // before whose body came along, and the others.
  function NoticeRows(archive: map<Msg, ArchRow>, notices: seq<Notice>, msgs: seq<Msg>, inline: bool): seq<Dl>
    requires |msgs| == |notices|
    decreases |notices|
  {
    if notices == [] then []
    else
      var last := |notices| - 1;
      var (n, m) := (notices[last], msgs[last]);
      NoticeRows(archive, notices[..last], msgs[..last], inline)
      + if m !in archive && n.inline == inline then [Dl(n.realm, n.seqno, m)] else []
  }

  // Exactly the notices that brought a message that was not archived.
  lemma {:induction false} NoticeRowsMean(archive: map<Msg, ArchRow>, notices: seq<Notice>, msgs: seq<Msg>, inline: bool, d: Dl)
    requires |msgs| == |notices|
    ensures d in NoticeRows(archive, notices, msgs, inline) <==>
            exists i :: 0 <= i < |notices| && msgs[i] !in archive && notices[i].inline == inline
                        && d == Dl(notices[i].realm, notices[i].seqno, msgs[i])
    decreases |notices|
  {
    if notices != [] {
      var last := |notices| - 1;
      NoticeRowsMean(archive, notices[..last], msgs[..last], inline, d);
      if d in NoticeRows(archive, notices[..last], msgs[..last], inline) {
        var i :| 0 <= i < last && msgs[..last][i] !in archive && notices[..last][i].inline == inline
                 && d == Dl(notices[..last][i].realm, notices[..last][i].seqno, msgs[..last][i]);
        assert msgs[i] !in archive && notices[i].inline == inline;
      }
      if i :| 0 <= i < |notices| && msgs[i] !in archive && notices[i].inline == inline
              && d == Dl(notices[i].realm, notices[i].seqno, msgs[i]) {
        if i < last { assert msgs[..last][i] !in archive && notices[..last][i].inline == inline; }
      }
    }
  }

  // A cursor goes on only over new bags of this notification, without a gap.
  lemma {:induction false} RunToCovers(cur: nat, archive: map<Msg, ArchRow>, notices: seq<Notice>, msgs: seq<Msg>, r: Realm,
                                       q: nat)
    requires |msgs| == |notices| && cur < q <= RunTo(cur, archive, notices, msgs, r)
    ensures exists i :: 0 <= i < |notices| && msgs[i] !in archive && notices[i].realm == r && notices[i].seqno == q
    decreases |notices|
  {
    var last := |notices| - 1;
    if q <= RunTo(cur, archive, notices[..last], msgs[..last], r) {
      RunToCovers(cur, archive, notices[..last], msgs[..last], r, q);
      var i :| 0 <= i < last && msgs[..last][i] !in archive && notices[..last][i].realm == r && notices[..last][i].seqno == q;
      assert msgs[i] !in archive && notices[i].realm == r;
    } else {
      assert msgs[last] !in archive && notices[last].realm == r;
    }
  }

  // How far its new bags take a cursor, one by one and without a gap.
  function RunTo(cur: nat, archive: map<Msg, ArchRow>, notices: seq<Notice>, msgs: seq<Msg>, r: Realm): (run: nat)
    requires |msgs| == |notices|
    ensures run >= cur
    decreases |notices|
  {
    if notices == [] then cur
    else
      var last := |notices| - 1;
      var run := RunTo(cur, archive, notices[..last], msgs[..last], r);
      if msgs[last] !in archive && notices[last].realm == r && notices[last].seqno == run + 1 then run + 1 else run
  }

  // The notices at these positions, one after the other, are new bags of the
  // realm with the numbers that follow cur.
  ghost predicate InSequence(cur: nat, archive: map<Msg, ArchRow>, notices: seq<Notice>, msgs: seq<Msg>, r: Realm, pos: seq<nat>)
    requires |msgs| == |notices|
  {
    && (forall k :: 0 <= k < |pos| ==> pos[k] < |notices|)
    && (forall k :: 0 <= k < |pos| ==>
          msgs[pos[k]] !in archive && notices[pos[k]].realm == r && notices[pos[k]].seqno == cur + k + 1)
    && (forall j, k :: 0 <= j < k < |pos| ==> pos[j] < pos[k])
  }

  lemma {:induction false} RunToMonotone(cur: nat, archive: map<Msg, ArchRow>, notices: seq<Notice>, msgs: seq<Msg>, r: Realm, n: nat)
    requires |msgs| == |notices| && n <= |notices|
    ensures RunTo(cur, archive, notices[..n], msgs[..n], r) <= RunTo(cur, archive, notices, msgs, r)
    decreases |notices|
  {
    if n == |notices| {
      assert notices[..n] == notices && msgs[..n] == msgs;
    } else {
      var last := |notices| - 1;
      RunToMonotone(cur, archive, notices[..last], msgs[..last], r, n);
      assert notices[..last][..n] == notices[..n] && msgs[..last][..n] == msgs[..n];
    }
  }

  lemma {:induction false} RunToReaches(cur: nat, archive: map<Msg, ArchRow>, notices: seq<Notice>, msgs: seq<Msg>, r: Realm,
                                        pos: seq<nat>)
    requires |msgs| == |notices| && InSequence(cur, archive, notices, msgs, r, pos)
    ensures cur + |pos| <= RunTo(cur, archive, notices, msgs, r)
    decreases |pos|
  {
    if pos != [] {
      var k := |pos| - 1;
      var n := pos[k];
      RunToReaches(cur, archive, notices[..n], msgs[..n], r, pos[..k]);
      RunToMore(cur, archive, notices[..n], msgs[..n], notices[n], msgs[n], r);
      assert notices[..n] + [notices[n]] == notices[..n + 1] && msgs[..n] + [msgs[n]] == msgs[..n + 1];
      RunToMonotone(cur, archive, notices, msgs, r, n + 1);
    }
  }

  lemma {:induction false} RunToWitness(cur: nat, archive: map<Msg, ArchRow>, notices: seq<Notice>, msgs: seq<Msg>, r: Realm)
    returns (pos: seq<nat>)
    requires |msgs| == |notices|
    ensures InSequence(cur, archive, notices, msgs, r, pos) && cur + |pos| == RunTo(cur, archive, notices, msgs, r)
    decreases |notices|
  {
    if notices == [] {
      pos := [];
    } else {
      var last := |notices| - 1;
      pos := RunToWitness(cur, archive, notices[..last], msgs[..last], r);
      if RunTo(cur, archive, notices, msgs, r) > cur + |pos| { pos := pos + [last]; }
    }
  }

  // A cursor gets to v exactly when new bags of its realm with the numbers up
  // to v came in this order.
  lemma RunToExactly(cur: nat, archive: map<Msg, ArchRow>, notices: seq<Notice>, msgs: seq<Msg>, r: Realm, v: nat)
    requires |msgs| == |notices| && cur <= v
    ensures v <= RunTo(cur, archive, notices, msgs, r) <==>
            exists pos :: InSequence(cur, archive, notices, msgs, r, pos) && cur + |pos| == v
  {
    if v <= RunTo(cur, archive, notices, msgs, r) {
      var pos := RunToWitness(cur, archive, notices, msgs, r);
      assert InSequence(cur, archive, notices, msgs, r, pos[..v - cur]);
    }
    if pos :| InSequence(cur, archive, notices, msgs, r, pos) && cur + |pos| == v {
      RunToReaches(cur, archive, notices, msgs, r, pos);
    }
  }

  ghost predicate Noted(c0: Client, c: Client, t: Task, complete: seq<Dl>, notices: seq<Notice>, msgs: seq<Msg>)
    requires |msgs| == |notices|
  {
    && t.Notif? && t.snap == c0.cursor && t.complete == ByMsg(complete)
    && complete == NoticeRows(c0.archive, notices, msgs, true)
    && c.archive == c0.archive && c.cursor == c0.cursor && c.uploads == c0.uploads
    && c.downloads == Enqueue(c0.downloads, NoticeRows(c0.archive, notices, msgs, false))
    && RunsAt(t, c0.archive, notices, msgs)
  }

  lemma NoticeRowsMore(archive: map<Msg, ArchRow>, notices: seq<Notice>, msgs: seq<Msg>, n: Notice, m: Msg, inline: bool)
    requires |msgs| == |notices|
    ensures NoticeRows(archive, notices + [n], msgs + [m], inline) ==
            NoticeRows(archive, notices, msgs, inline)
            + if m !in archive && n.inline == inline then [Dl(n.realm, n.seqno, m)] else []
  {
    assert (notices + [n])[..|notices|] == notices && (msgs + [m])[..|msgs|] == msgs;
  }

  lemma RunToMore(cur: nat, archive: map<Msg, ArchRow>, notices: seq<Notice>, msgs: seq<Msg>, n: Notice, m: Msg, r: Realm)
    requires |msgs| == |notices|
    ensures var run := RunTo(cur, archive, notices, msgs, r);
            RunTo(cur, archive, notices + [n], msgs + [m], r) ==
            if m !in archive && n.realm == r && n.seqno == run + 1 then run + 1 else run
  {
    assert (notices + [n])[..|notices|] == notices && (msgs + [m])[..|msgs|] == msgs;
  }

  lemma EnqueueMore(downloads: map<(Realm, nat), Msg>, rows: seq<Dl>, d: Dl)
    ensures Enqueue(downloads, rows + [d]) == Enqueue(downloads, rows)[(d.realm, d.seqno) := d.msg]
    ensures rows + [] == rows
  {
    assert (rows + [d])[..|rows|] == rows;
  }

  // How far the handler's runs go, after these notices.
  ghost predicate RunsAt(t: Task, archive: map<Msg, ArchRow>, notices: seq<Notice>, msgs: seq<Msg>)
    requires |msgs| == |notices| && t.Notif?
  {
    forall r :: RunOf(t, r) == RunTo(CursorOf(t.snap, r), archive, notices, msgs, r)
  }

  lemma RunsMore(t: Task, archive: map<Msg, ArchRow>, notices: seq<Notice>, msgs: seq<Msg>, n: Notice, m: Msg, t': Task)
    requires |msgs| == |notices| && t.Notif? && RunsAt(t, archive, notices, msgs) && t'.Notif? && t'.snap == t.snap
    requires t'.runs == if m in archive then t.runs else NotifRun(t, n)
    ensures RunsAt(t', archive, notices + [n], msgs + [m])
  {
    forall r
      ensures RunOf(t', r) == RunTo(CursorOf(t.snap, r), archive, notices + [n], msgs + [m], r)
    {
      RunToMore(CursorOf(t.snap, r), archive, notices, msgs, n, m, r);
    }
  }

  lemma NotedMore(c0: Client, c1: Client, t: Task, complete: seq<Dl>, notices: seq<Notice>, msgs: seq<Msg>, n: Notice, m: Msg,
                  c: Client, t': Task, complete': seq<Dl>, again: bool)
    requires |msgs| == |notices| && Noted(c0, c1, t, complete, notices, msgs)
    requires TookOne(c1, t, n, m, complete, c, t', complete', again)
    ensures Noted(c0, c, t', complete', notices + [n], msgs + [m])
  {
    NoticeRowsMore(c0.archive, notices, msgs, n, m, true);
    NoticeRowsMore(c0.archive, notices, msgs, n, m, false);
    EnqueueMore(c0.downloads, NoticeRows(c0.archive, notices, msgs, false), Dl(n.realm, n.seqno, m));
    RunsMore(t, c0.archive, notices, msgs, n, m, t');
  }

  // Something is left to do exactly when something was new.
  ghost predicate NewsSoFar(archive: map<Msg, ArchRow>, msgs: seq<Msg>, news: bool) {
    news <==> exists i :: 0 <= i < |msgs| && msgs[i] !in archive
  }

  lemma NewsMore(archive: map<Msg, ArchRow>, msgs: seq<Msg>, m: Msg, news: bool)
    requires NewsSoFar(archive, msgs, news)
    ensures NewsSoFar(archive, msgs + [m], news || m !in archive)
  {
    if news {
      var i :| 0 <= i < |msgs| && msgs[i] !in archive;
      assert (msgs + [m])[i] !in archive;
    } else if m !in archive {
      assert (msgs + [m])[|msgs|] !in archive;
    }
  }

  // The first i notices are handled.
  ghost predicate NotedUpTo(c0: Client, c: Client, t: Task, complete: seq<Dl>, again: bool, notices: seq<Notice>,
                            msgs: seq<Msg>, i: nat)
    requires i <= |notices| == |msgs|
  {
    && t.Notif? && t.notices == notices && t.seen == i && Noted(c0, c, t, complete, notices[..i], msgs[..i])
    && NewsSoFar(c0.archive, msgs[..i], again || |complete| > 0)
  }

  lemma NotedNext(c0: Client, c1: Client, t: Task, complete: seq<Dl>, again: bool, notices: seq<Notice>, msgs: seq<Msg>, i: nat,
                  c: Client, t': Task, complete': seq<Dl>, more: bool)
    requires i < |notices| == |msgs| && NotedUpTo(c0, c1, t, complete, again, notices, msgs, i)
    requires TookOne(c1, t, notices[i], msgs[i], complete, c, t', complete', more)
    ensures NotedUpTo(c0, c, t', complete', again || more, notices, msgs, i + 1)
  {
    NotedMore(c0, c1, t, complete, notices[..i], msgs[..i], notices[i], msgs[i], c, t', complete', more);
    TookNews(c0, c1, t, notices[i], msgs[i], complete, c, t', complete', more, again, msgs[..i]);
    assert notices[..i + 1] == notices[..i] + [notices[i]] && msgs[..i + 1] == msgs[..i] + [msgs[i]];
  }

  lemma TookNews(c0: Client, c1: Client, t: Task, n: Notice, m: Msg, complete: seq<Dl>, c: Client, t': Task, complete': seq<Dl>,
                 more: bool, again: bool, msgs: seq<Msg>)
    requires t.Notif? && TookOne(c1, t, n, m, complete, c, t', complete', more) && c1.archive == c0.archive
    requires NewsSoFar(c0.archive, msgs, again || |complete| > 0)
    ensures NewsSoFar(c0.archive, msgs + [m], again || more || |complete'| > 0)
  {
    NewsMore(c0.archive, msgs, m, again || |complete| > 0);
  }

  method TakeNext(store: ClientStore, t: Task, complete: seq<Dl>, again: bool, notices: seq<Notice>, msgs: seq<Msg>, i: nat,
                  ghost h: Host, ghost c0: Client, ghost id: nat, ghost moves0: seq<Move>, ghost c1: Client)
    returns (t': Task, complete': seq<Dl>, again': bool, ghost moves: seq<Move>, ghost c: Client)
    requires store.Holds(c1) && Came(h, c0, id, moves0, c1, t) && i < |notices| == |msgs|
    requires NotedUpTo(c0, c1, t, complete, again, notices, msgs, i) && NoticeNext(h, t, notices[i], msgs[i])
    modifies store.downloads
    ensures store.Holds(c) && Came(h, c0, id, moves, c, t')
    ensures NotedUpTo(c0, c, t', complete', again', notices, msgs, i + 1)
  {
    var more;
    t', complete', more, moves, c := TakeNotice(store, t, notices[i], msgs[i], complete, h, c0, id, moves0, c1);
    NotedNext(c0, c1, t, complete, again, notices, msgs, i, c, t', complete', more);
    again' := again || more;
  }

  method TakeNotices(store: ClientStore, notices: seq<Notice>, msgs: seq<Msg>, ghost h: Host, ghost c0: Client, ghost id: nat)
    returns (t: Task, complete: seq<Dl>, again: bool, ghost moves: seq<Move>, ghost c: Client)
    requires store.Holds(c0) && id in c0.tasks && c0.tasks[id] == Notif(notices, 0, c0.cursor, map[], map[])
    requires |msgs| == |notices|
    requires forall i :: 0 <= i < |notices| ==>
               OnHostAt(h, notices[i].realm, notices[i].seqno) && BagAt(h, notices[i].realm, notices[i].seqno) == msgs[i]
    modifies store.downloads
    ensures store.Holds(c) && Came(h, c0, id, moves, c, t)
    ensures NotedUpTo(c0, c, t, complete, again, notices, msgs, |notices|)
  {
    t, complete, again := Notif(notices, 0, store.hosts.cursors, map[], map[]), [], false;
    moves, c := [], c0;
    assert c0.tasks[id := t] == c0.tasks && notices[..0] == [];
    for i := 0 to |notices|
      invariant store.Holds(c) && Came(h, c0, id, moves, c, t)
      invariant NotedUpTo(c0, c, t, complete, again, notices, msgs, i)
    {
      assert NoticeNext(h, t, notices[i], msgs[i]);
      t, complete, again, moves, c := TakeNext(store, t, complete, again, notices, msgs, i, h, c0, id, moves, c);
    }
  }

  // The cursors once the runs of these realms are still to be touched.
  ghost predicate TouchedAllBut(c: Client, t0: Task, left: map<Realm, nat>)
    requires t0.Notif?
  {
    && (forall r :: r in left ==> r in t0.runs && left[r] == t0.runs[r])
    && forall r :: CursorOf(c.cursor, r) ==
                   if r !in left && RunOf(t0, r) > CursorOf(t0.snap, r) then RunOf(t0, r) else CursorOf(t0.snap, r)
  }

  lemma TouchedOneMore(c: Client, t0: Task, left: map<Realm, nat>, r: Realm, c': Client)
    requires t0.Notif? && TouchedAllBut(c, t0, left) && r in left
    requires c'.cursor == if left[r] > CursorOf(t0.snap, r) then Advanced(c.cursor, r, left[r]) else c.cursor
    ensures TouchedAllBut(c', t0, left - {r})
  {
  }

  lemma OneLess(runs: map<Realm, nat>, r: Realm)
    requires r in runs
    ensures |runs - {r}| < |runs|
  {
    assert (runs - {r}).Keys == runs.Keys - {r};
  }

  method TouchOne(store: ClientStore, t0: Task, t: Task, r: Realm, ghost h: Host, ghost c0: Client, ghost id: nat,
                  ghost moves0: seq<Move>, ghost c1: Client)
    returns (ghost moves: seq<Move>, ghost c: Client)
    requires t0.Notif? && t.Notif? && t.snap == t0.snap && t.seen == |t.notices| && r in t.runs
    requires store.Holds(c1) && Came(h, c0, id, moves0, c1, t) && TouchedAllBut(c1, t0, t.runs)
    modifies store.hosts
    ensures store.Holds(c) && Came(h, c0, id, moves, c, t.(runs := t.runs - {r})) && TouchedAllBut(c, t0, t.runs - {r})
    ensures c.archive == c1.archive && c.downloads == c1.downloads && c.uploads == c1.uploads
  {
    if t.runs[r] > CursorOf(t.snap, r) { store.hosts.Touch(t.runs[r], r); }
    c := TouchRunMove(h, c0, id, moves0, c1, t, r);
    TouchedOneMore(c1, t0, t.runs, r, c);
    moves := moves0 + [Notifying(TouchRun(r))];
  }

  // Every run that got past the cursor read at the start moves the cursor.
  method TouchRuns(store: ClientStore, t0: Task, ghost h: Host, ghost c0: Client, ghost id: nat, ghost moves0: seq<Move>,
                   ghost c1: Client)
    returns (t: Task, ghost moves: seq<Move>, ghost c: Client)
    requires t0.Notif? && t0.seen == |t0.notices| && store.Holds(c1) && Came(h, c0, id, moves0, c1, t0)
    requires c1.cursor == t0.snap
    modifies store.hosts
    ensures t == t0.(runs := map[]) && store.Holds(c) && Came(h, c0, id, moves, c, t)
    ensures c.archive == c1.archive && c.downloads == c1.downloads && c.uploads == c1.uploads
    ensures TouchedAllBut(c, t0, map[])
  {
    t, moves, c := t0, moves0, c1;
    while t.runs != map[]
      invariant t.Notif? && t == t0.(runs := t.runs) && store.Holds(c) && Came(h, c0, id, moves, c, t)
      invariant c.archive == c1.archive && c.downloads == c1.downloads && c.uploads == c1.uploads
      invariant TouchedAllBut(c, t0, t.runs)
      decreases |t.runs|
    {
      assert t.runs.Keys != {};
      var r :| r in t.runs.Keys;
      OneLess(t.runs, r);
      moves, c := TouchOne(store, t0, t, r, h, c0, id, moves, c);
      t := t.(runs := t.runs - {r});
    }
  }

  // msgs[i] is the message that notice i decrypts to. again: a full sync is
  // scheduled, which happens exactly when the notification brought news.
  method HandleNotif(store: ClientStore, notices: seq<Notice>, msgs: seq<Msg>, ghost h: Host, ghost c0: Client, ghost id: nat)
    returns (again: bool, ghost moves: seq<Move>, ghost c: Client)
    requires store.Holds(c0) && id in c0.tasks && c0.tasks[id] == Notif(notices, 0, c0.cursor, map[], map[])
    requires |msgs| == |notices|
    requires forall i :: 0 <= i < |notices| ==>
               OnHostAt(h, notices[i].realm, notices[i].seqno) && BagAt(h, notices[i].realm, notices[i].seqno) == msgs[i]
    modifies store.messages, store.downloads, store.hosts
    ensures Over(h, c0, id, moves, c) && store.Holds(c)
    ensures again <==> exists i :: 0 <= i < |msgs| && msgs[i] !in c0.archive
    ensures c.archive == Archive(c0.archive, NoticeRows(c0.archive, notices, msgs, true)) && c.uploads == c0.uploads
    ensures c.downloads == Enqueue(c0.downloads, NoticeRows(c0.archive, notices, msgs, false))
    ensures forall r :: CursorOf(c.cursor, r) == RunTo(CursorOf(c0.cursor, r), c0.archive, notices, msgs, r)
  {
    var t, complete;
    t, complete, again, moves, c := TakeNotices(store, notices, msgs, h, c0, id);
    assert notices[..|notices|] == notices && msgs[..|msgs|] == msgs;
    t, moves, c := TouchRuns(store, t, h, c0, id, moves, c);
    store.messages.Add(complete);
    ArchiveByMsg(c.archive, complete);
    c := AddCompleteMove(h, c0, id, moves, c, t);
    moves := moves + [Notifying(AddComplete)];
    again := again || |complete| > 0;
  }
}
