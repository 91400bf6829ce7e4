// That no bag below a cursor is skipped. Every step keeps this except an
// inventory that moved cursors and then queues nothing: one told not to pull,
// or one that gives up between two realms (Thorough).

module SyncSafe {
  import opened Basics
  import opened Lww
  import opened Messages
  import opened PushItems
  import opened SyncState
  import opened SyncInv
  import opened SyncSteps

  // Messages a running handler will still archive or enqueue.
  ghost function Held(t: Task): set<Msg> {
    match t
    case Peek(_, _, _, _, dls, _) => MsgsOf(dls)
    case Notif(_, _, _, _, complete) => complete.Keys
    case Recon(_, _, _, left, dls, _, _) => left + MsgsOf(dls)
    case _ => {}
  }

  // Archived, queued for download, or held by a running handler.
  ghost predicate Covered(c: Client, m: Msg) {
    m in c.archive || m in c.downloads.Values || exists id :: id in c.tasks && m in Held(c.tasks[id])
  }

  // No bag with seq at most v is skipped.
  ghost predicate SafeUpTo(h: Host, c: Client, r: Realm, v: nat) {
    v <= |Bags(h, r)| && forall q :: 0 <= q < v ==> Covered(c, Bags(h, r)[q])
  }

  // What a handler knows about the cursors it read or will move.
  ghost predicate TaskSafe(h: Host, c: Client, t: Task) {
    match t
    case PeekSent(r, from) => SafeUpTo(h, c, r, from)
    case Peek(r, _, _, done, _, _) => SafeUpTo(h, c, r, done)
    case Touch(r, v) => SafeUpTo(h, c, r, v)
    case Notif(_, _, snap, runs, _) =>
      && (forall r :: SafeUpTo(h, c, r, CursorOf(snap, r)))
      && (forall r :: r in runs ==> SafeUpTo(h, c, r, runs[r]))
    case Recon(_, _, _, _, _, pull, _) => pull
    case _ => true
  }

  // Nothing is skipped below a cursor.
  ghost predicate CursorsInv(h: Host, c: Client) { forall r :: SafeUpTo(h, c, r, CursorOf(c.cursor, r)) }

  ghost predicate SafeInv(h: Host, c: Client) {
    CursorsInv(h, c) && forall id :: id in c.tasks ==> TaskSafe(h, c, c.tasks[id])
  }

  ghost predicate StaysCovered(c: Client, c': Client) { forall m :: Covered(c, m) ==> Covered(c', m) }

  // What a step must leave behind.
  ghost predicate KeptSafe(c: Client, h': Host, c': Client) { SafeInv(h', c') && StaysCovered(c, c') }

  // An inventory pulls, and does not give up once it has listed a message.
  predicate Thorough(c: Client, step: Step) {
    && (step.move.Reconciling? && step.move.q.AskAll? ==> step.move.q.pull)
    && (step.move.Reconciling? && step.move.q.ListLost? && step.id in c.tasks && c.tasks[step.id].Recon? ==>
          c.tasks[step.id].inv == map[])
  }

  /* ---- Coverage ---- */

  lemma SafeLater(h: Host, c: Client, h': Host, c': Client, r: Realm, v: nat)
    requires HostGrows(h, h') && StaysCovered(c, c') && SafeUpTo(h, c, r, v)
    ensures SafeUpTo(h', c', r, v)
  {
    assert Bags(h, r) <= Bags(h', r);
    forall q | 0 <= q < v
      ensures Covered(c', Bags(h', r)[q])
    {
      assert Covered(c, Bags(h, r)[q]);
    }
  }

  lemma TaskSafeLater(h: Host, c: Client, h': Host, c': Client, t: Task)
    requires HostGrows(h, h') && StaysCovered(c, c') && TaskSafe(h, c, t)
    ensures TaskSafe(h', c', t)
  {
    forall r, v: nat | SafeUpTo(h, c, r, v)
      ensures SafeUpTo(h', c', r, v)
    {
      SafeLater(h, c, h', c', r, v);
    }
  }

  // One more bag of a covered run.
  lemma SafeNext(h: Host, c: Client, r: Realm, v: nat)
    requires SafeUpTo(h, c, r, v) && v < |Bags(h, r)| && Covered(c, Bags(h, r)[v])
    ensures SafeUpTo(h, c, r, v + 1)
  {
  }

  // Handlers other than id go on as they are.
  ghost predicate OthersSame(c: Client, c': Client, id: nat) {
    && (forall j :: j != id ==> (j in c.tasks <==> j in c'.tasks))
    && (forall j :: j != id && j in c.tasks ==> c'.tasks[j] == c.tasks[j])
  }

  // Coverage is kept if the holdings of handler id, and the queue rows that
  // went away, are covered afterwards.
  lemma CoveredKept(c: Client, c': Client, id: nat)
    requires c.archive.Keys <= c'.archive.Keys && OthersSame(c, c', id)
    requires id in c.tasks ==> forall m :: m in Held(c.tasks[id]) ==> Covered(c', m)
    requires forall m :: m in c.downloads.Values ==> Covered(c', m)
    ensures StaysCovered(c, c')
  {
    forall m | Covered(c, m)
      ensures Covered(c', m)
    {
      if m !in c.archive && m !in c.downloads.Values {
        var j :| j in c.tasks && m in Held(c.tasks[j]);
        if j != id { assert m in Held(c'.tasks[j]); }
      }
    }
  }

  // Handler id holds at least what it held, and no queue row went away.
  lemma CoveredSame(c: Client, c': Client, id: nat)
    requires c.archive.Keys <= c'.archive.Keys && c.downloads.Values <= c'.downloads.Values && OthersSame(c, c', id)
    requires id in c.tasks && Held(c.tasks[id]) != {} ==> id in c'.tasks && Held(c.tasks[id]) <= Held(c'.tasks[id])
    ensures StaysCovered(c, c')
  {
    forall m | id in c.tasks && m in Held(c.tasks[id])
      ensures Covered(c', m)
    {
      assert m in Held(c'.tasks[id]);
    }
    CoveredKept(c, c', id);
  }

  // Dropping one row only uncovers its own message.
  lemma DropRow(c: Client, key: (Realm, nat), m: Msg)
    requires m in c.downloads.Values && m !in (c.downloads - {key}).Values
    ensures key in c.downloads && c.downloads[key] == m
  {
    var k :| k in c.downloads && c.downloads[k] == m;
    assert forall rest: map<(Realm, nat), Msg> :: k in rest && rest[k] == m ==> m in rest.Values;
    assert k !in c.downloads - {key};
  }

  // A queue row that names a covered message may be dropped.
  lemma DropCovered(h: Host, c: Client, c': Client, key: (Realm, nat))
    requires QueueInv(h, c) && c'.downloads == c.downloads - {key}
    requires OnHostAt(h, key.0, key.1) ==> Covered(c', BagAt(h, key.0, key.1))
    ensures forall m :: m in c.downloads.Values ==> Covered(c', m)
  {
    forall m | m in c.downloads.Values
      ensures Covered(c', m)
    {
      if m !in c'.downloads.Values {
        DropRow(c, key, m);
        assert OnHostAs(h, Dl(key.0, key.1, m));
      }
    }
  }

  lemma HeldCovers(c: Client, id: nat)
    requires id in c.tasks
    ensures forall m :: m in Held(c.tasks[id]) ==> Covered(c, m)
  {
  }

  // What is left to check of a step of handler id once coverage is known to
  // be kept. At most realm r's cursor moves.
  lemma Frame(h: Host, c: Client, h': Host, c': Client, id: nat, r: Realm)
    requires SafeInv(h, c) && HostGrows(h, h') && StaysCovered(c, c') && OthersSame(c, c', id)
    requires id in c'.tasks ==> TaskSafe(h', c', c'.tasks[id])
    requires forall q :: q != r ==> CursorOf(c'.cursor, q) == CursorOf(c.cursor, q)
    requires CursorOf(c'.cursor, r) == CursorOf(c.cursor, r) || SafeUpTo(h', c', r, CursorOf(c'.cursor, r))
    ensures SafeInv(h', c')
  {
    forall j | j in c'.tasks
      ensures TaskSafe(h', c', c'.tasks[j])
    {
      if j != id { TaskSafeLater(h, c, h', c', c.tasks[j]); }
    }
    forall q
      ensures SafeUpTo(h', c', q, CursorOf(c'.cursor, q))
    {
      if CursorOf(c'.cursor, q) == CursorOf(c.cursor, q) { SafeLater(h, c, h', c', q, CursorOf(c.cursor, q)); }
    }
  }

  // A step that moves no cursor and drops no row, of a handler that holds
  // nothing and knows nothing about cursors.
  lemma Calm(h: Host, c: Client, h': Host, c': Client, id: nat)
    requires SafeInv(h, c) && HostGrows(h, h') && OthersSame(c, c', id)
    requires c.archive.Keys <= c'.archive.Keys && c.downloads.Values <= c'.downloads.Values && c'.cursor == c.cursor
    requires id in c.tasks ==> Held(c.tasks[id]) == {}
    requires id in c'.tasks ==> forall k, x :: TaskSafe(k, x, c'.tasks[id])
    ensures KeptSafe(c, h', c')
  {
    CoveredSame(c, c', id);
    Frame(h, c, h', c', id, 0);
  }

  /* ---- Writes and drains ---- */

  lemma WriteSafe(h: Host, c: Client, id: nat, w: WriteMove)
    requires ClientInv(h, c) && SafeInv(h, c) && WriteEnabled(c, id, w)
    ensures KeptSafe(c, h, WriteAct(c, id, w))
  {
    match w
    case DropDownload(key) => WriteDeqSafe(h, c, id, key);
    case Add =>
      ArchiveAdds(c.archive, AsRows(c.tasks[id].parts, c.tasks[id].realm));
      Calm(h, c, h, WriteAct(c, id, w), id);
    case Kick(_, _) => Calm(h, c, h, WriteAct(c, id, w), id);
    case RunOps => Calm(h, c, h, WriteAct(c, id, w), id);
    case MarkStats => Calm(h, c, h, WriteAct(c, id, w), id);
    case QueueUpload => Calm(h, c, h, WriteAct(c, id, w), id);
  }

  lemma WriteDeqSafe(h: Host, c: Client, id: nat, key: (Realm, nat))
    requires ClientInv(h, c) && SafeInv(h, c) && WriteEnabled(c, id, DropDownload(key))
    ensures KeptSafe(c, h, WriteAct(c, id, DropDownload(key)))
  {
    var c' := WriteAct(c, id, DropDownload(key));
    assert TaskInv(h, c, c.tasks[id]);
    forall m | m in c.downloads.Values
      ensures Covered(c', m)
    {
      if m !in c'.downloads.Values { DropRow(c, key, m); }
    }
    CoveredKept(c, c', id);
    Frame(h, c, h, c', id, 0);
  }

  lemma DrainSafe(h: Host, c: Client, id: nat, d: DrainMove)
    requires SafeInv(h, c) && DrainEnabled(c, id, d)
    ensures KeptSafe(c, h, DrainAct(c, id, d))
  {
    Calm(h, c, h, DrainAct(c, id, d), id);
  }

  /* ---- Peek ---- */

  lemma PeekAskSafe(h: Host, c: Client, id: nat, p: PeekMove)
    requires SafeInv(h, c) && p.Ask? && PeekEnabled(h, c, id, p)
    ensures KeptSafe(c, h, PeekAct(h, c, id, p))
  {
    var c' := PeekAct(h, c, id, p);
    CoveredSame(c, c', id);
    SafeLater(h, c, h, c', p.realm, CursorOf(c.cursor, p.realm));
    Frame(h, c, h, c', id, 0);
  }

  lemma PeekReplySafe(h: Host, c: Client, id: nat)
    requires SafeInv(h, c) && PeekEnabled(h, c, id, Reply)
    ensures KeptSafe(c, h, PeekAct(h, c, id, Reply))
  {
    var c' := PeekAct(h, c, id, Reply);
    CoveredSame(c, c', id);
    TaskSafeLater(h, c, h, c', c.tasks[id]);
    Frame(h, c, h, c', id, 0);
  }

  lemma PeekItemSafe(h: Host, c: Client, id: nat, known: bool)
    requires SafeInv(h, c) && PeekEnabled(h, c, id, Item(known))
    ensures KeptSafe(c, h, PeekAct(h, c, id, Item(known)))
  {
    var t := c.tasks[id];
    var m := Bags(h, t.realm)[t.done];
    if known {
      PeekSkipSafe(h, c, c.(uploads := c.uploads - {m}), id, t);
    } else if m in MsgsOf(t.dls) {
      PeekSkipSafe(h, c, c, id, t);
    } else {
      PeekCollectSafe(h, c, id, t);
    }
  }

  lemma PeekSkipSafe(h: Host, c: Client, mid: Client, id: nat, t: Task)
    requires SafeInv(h, c) && id in c.tasks && t == c.tasks[id] && t.Peek?
    requires mid == c.(uploads := mid.uploads)
    ensures KeptSafe(c, h, To(mid, id, t.(deq := true)))
  {
    var c' := To(mid, id, t.(deq := true));
    CoveredSame(c, c', id);
    TaskSafeLater(h, c, h, c', t);
    Frame(h, c, h, c', id, 0);
  }

  lemma PeekCollectSafe(h: Host, c: Client, id: nat, t: Task)
    requires SafeInv(h, c) && id in c.tasks && t == c.tasks[id] && t.Peek? && OnHostAt(h, t.realm, t.done + 1)
    ensures KeptSafe(c, h, To(c, id, t.(dls := t.dls + [Dl(t.realm, t.done + 1, Bags(h, t.realm)[t.done])], done := t.done + 1)))
  {
    var d := Dl(t.realm, t.done + 1, Bags(h, t.realm)[t.done]);
    var t' := t.(dls := t.dls + [d], done := t.done + 1);
    var c' := To(c, id, t');
    assert MsgsOf(t'.dls) == MsgsOf(t.dls) + {d.msg};
    assert d.msg in Held(c'.tasks[id]);
    CoveredSame(c, c', id);
    SafeLater(h, c, h, c', t.realm, t.done);
    SafeNext(h, c', t.realm, t.done);
    Frame(h, c, h, c', id, 0);
  }

  lemma PeekDeqSafe(h: Host, c: Client, id: nat, t: Task)
    requires SafeInv(h, c) && QueueInv(h, c) && id in c.tasks && t == c.tasks[id] && t.Peek? && t.deq && TaskInv(h, c, t)
    ensures KeptSafe(c, h, To(c.(downloads := c.downloads - {(t.realm, t.done + 1)}), id, t.(deq := false, done := t.done + 1)))
  {
    var c' := To(c.(downloads := c.downloads - {(t.realm, t.done + 1)}), id, t.(deq := false, done := t.done + 1));
    HeldCovers(c', id);
    assert Covered(c', Bags(h, t.realm)[t.done]);
    DropCovered(h, c, c', (t.realm, t.done + 1));
    CoveredKept(c, c', id);
    SafeLater(h, c, h, c', t.realm, t.done);
    SafeNext(h, c', t.realm, t.done);
    Frame(h, c, h, c', id, 0);
  }

  lemma PeekEnqSafe(h: Host, c: Client, id: nat)
    requires ClientInv(h, c) && SafeInv(h, c) && PeekEnabled(h, c, id, Enq)
    ensures KeptSafe(c, h, PeekAct(h, c, id, Enq))
  {
    var c' := PeekAct(h, c, id, Enq);
    var t := c.tasks[id];
    assert TaskInv(h, c, t);
    EnqueueBags(h, c, t.dls);
    CoveredKept(c, c', id);
    SafeLater(h, c, h, c', t.realm, t.hi);
    Frame(h, c, h, c', id, 0);
  }

  lemma PeekSafe(h: Host, c: Client, id: nat, p: PeekMove)
    requires ClientInv(h, c) && SafeInv(h, c) && PeekEnabled(h, c, id, p)
    ensures KeptSafe(c, h, PeekAct(h, c, id, p))
  {
    match p
    case Ask(_, _) => PeekAskSafe(h, c, id, p);
    case PeekLost => Calm(h, c, h, End(c, id), id);
    case Reply => PeekReplySafe(h, c, id);
    case Item(known) => PeekItemSafe(h, c, id, known);
    case Deq =>
      assert TaskInv(h, c, c.tasks[id]);
      PeekDeqSafe(h, c, id, c.tasks[id]);
    case Enq => PeekEnqSafe(h, c, id);
  }

  lemma TouchSafe(h: Host, c: Client, id: nat, t: Task)
    requires SafeInv(h, c) && id in c.tasks && t == c.tasks[id] && t.Touch?
    ensures KeptSafe(c, h, End(c.(cursor := Advanced(c.cursor, t.realm, t.v)), id))
  {
    var c' := End(c.(cursor := Advanced(c.cursor, t.realm, t.v)), id);
    CoveredSame(c, c', id);
    SafeLater(h, c, h, c', t.realm, t.v);
    Frame(h, c, h, c', id, t.realm);
  }

  /* ---- Push ---- */

  lemma {:induction false} InsertElems(x: nat, s: seq<nat>)
    ensures forall v :: v in Insert(x, s) <==> v == x || v in s
    decreases |s|
  {
    if s != [] && x > s[0] {
      InsertElems(x, s[1..]);
      assert s == [s[0]] + s[1..];
    }
  }

  // Some item of an answer reports this sequence number.
  predicate Reports(items: seq<PushItem>, q: nat) { exists i :: 0 <= i < |items| && items[i].outcome == Ok(q) }

  lemma {:induction false} SortedSeqsElems(items: seq<PushItem>)
    ensures forall v :: v in SortedSeqs(items) <==> Reports(items, v)
    decreases |items|
  {
    if items != [] {
      var rest := items[1..];
      SortedSeqsElems(rest);
      if items[0].outcome.Ok? { InsertElems(items[0].outcome.value, SortedSeqs(rest)); }
      forall v: nat | v in SortedSeqs(rest)
        ensures Reports(items, v)
      {
        var i :| 0 <= i < |rest| && rest[i].outcome == Ok(v);
        assert items[i + 1].outcome == Ok(v);
      }
      forall v: nat | Reports(items, v)
        ensures v in SortedSeqs(items)
      {
        var i :| 0 <= i < |items| && items[i].outcome == Ok(v);
        if i > 0 { assert rest[i - 1].outcome == Ok(v); }
      }
    }
  }

  predicate Rising(s: seq<nat>) { forall i, j :: 0 <= i < j < |s| ==> s[i] <= s[j] }

  lemma {:induction false} InsertRises(x: nat, s: seq<nat>)
    requires Rising(s)
    ensures Rising(Insert(x, s))
    decreases |s|
  {
    if s != [] && x > s[0] {
      var more := Insert(x, s[1..]);
      InsertRises(x, s[1..]);
      InsertElems(x, s[1..]);
      forall j | 0 <= j < |more|
        ensures s[0] <= more[j]
      {
        assert more[j] in more;
      }
    }
  }

  lemma {:induction false} SortedSeqsRise(items: seq<PushItem>)
    ensures Rising(SortedSeqs(items))
    decreases |items|
  {
    if items != [] {
      SortedSeqsRise(items[1..]);
      if items[0].outcome.Ok? { InsertRises(items[0].outcome.value, SortedSeqs(items[1..])); }
    }
  }

  // The cursor only moves over sequence numbers that were stored.
  lemma {:induction false} ContiguousCovers(cur: nat, seqs: seq<nat>)
    ensures cur <= Contiguous(cur, seqs)
    ensures forall v :: cur < v <= Contiguous(cur, seqs) ==> v in seqs
    decreases |seqs|
  {
    if seqs != [] {
      ContiguousCovers(if seqs[0] == cur + 1 then seqs[0] else cur, seqs[1..]);
      assert seqs == [seqs[0]] + seqs[1..];
    }
  }

  // And it moves over all of them that follow it without a gap.
  lemma {:induction false} ContiguousStops(cur: nat, seqs: seq<nat>)
    requires Rising(seqs)
    ensures Contiguous(cur, seqs) + 1 !in seqs
    decreases |seqs|
  {
    if seqs != [] {
      var next := if seqs[0] == cur + 1 then seqs[0] else cur;
      ContiguousStops(next, seqs[1..]);
      ContiguousCovers(next, seqs[1..]);
      assert seqs == [seqs[0]] + seqs[1..];
      assert Contiguous(cur, seqs) > next ==> Contiguous(cur, seqs) in seqs[1..];
    }
  }

  // v is as far as one gets from start over reported numbers without a gap.
  ghost predicate Furthest(items: seq<PushItem>, start: nat, v: nat) {
    start <= v && (forall q: nat :: start < q <= v ==> Reports(items, q)) && !Reports(items, v + 1)
  }

  lemma FurthestUnique(items: seq<PushItem>, start: nat, v: nat, w: nat)
    requires Furthest(items, start, v) && Furthest(items, start, w)
    ensures v == w
  {
  }

  lemma PushFurthest(items: seq<PushItem>, start: nat)
    ensures Furthest(items, start, Contiguous(start, SortedSeqs(items)))
  {
    SortedSeqsElems(items);
    SortedSeqsRise(items);
    ContiguousCovers(start, SortedSeqs(items));
    ContiguousStops(start, SortedSeqs(items));
  }

  // Stepping over covered bags keeps a covered run covered.
  lemma ContiguousSafe(h: Host, c: Client, r: Realm, cur: nat, seqs: seq<nat>)
    requires SafeUpTo(h, c, r, cur)
    requires forall q :: q in seqs ==> 1 <= q <= |Bags(h, r)| && Covered(c, Bags(h, r)[q - 1])
    ensures SafeUpTo(h, c, r, Contiguous(cur, seqs))
  {
    var v := Contiguous(cur, seqs);
    ContiguousCovers(cur, seqs);
    if v > cur {
      assert v in seqs;
      forall q | 0 <= q < v
        ensures Covered(c, Bags(h, r)[q])
      {
        if q >= cur { assert q + 1 in seqs; }
      }
    }
  }

  // What pushBatch reads off its answer is a safe cursor for its realm.
  lemma AnswerSafe(h: Host, c: Client, t: Task)
    requires t.Push? && TaskInv(h, c, t) && CursorsInv(h, c)
    ensures SafeUpTo(h, c, t.realm, Contiguous(CursorOf(c.cursor, t.realm), SortedSeqs(t.items)))
  {
    SortedSeqsElems(t.items);
    forall q: nat | q in SortedSeqs(t.items)
      ensures 1 <= q <= |Bags(h, t.realm)| && Covered(c, Bags(h, t.realm)[q - 1])
    {
      var i :| 0 <= i < |t.items| && t.items[i].outcome == Ok(q);
      assert OnHostAs(h, Dl(t.realm, q, t.batch[t.items[i].idx]));
    }
    ContiguousSafe(h, c, t.realm, CursorOf(c.cursor, t.realm), SortedSeqs(t.items));
  }

  lemma GoTouchSafe(h: Host, c: Client, id: nat, r: Realm, v: nat)
    requires SafeInv(h, c) && id in c.tasks && Held(c.tasks[id]) == {} && SafeUpTo(h, c, r, v)
    ensures KeptSafe(c, h, To(c, id, Touch(r, v)))
  {
    var c' := To(c, id, Touch(r, v));
    CoveredSame(c, c', id);
    SafeLater(h, c, h, c', r, v);
    Frame(h, c, h, c', id, 0);
  }

  lemma PushReadSafe(h: Host, c: Client, id: nat)
    requires ClientInv(h, c) && SafeInv(h, c) && PushEnabled(c, id, ReadCursor)
    ensures KeptSafe(c, h, PushAct(h, c, id, ReadCursor))
  {
    var t := c.tasks[id];
    assert TaskInv(h, c, t);
    AnswerSafe(h, c, t);
    Calm(h, c, h, End(c, id), id);
    GoTouchSafe(h, c, id, t.realm, Contiguous(CursorOf(c.cursor, t.realm), SortedSeqs(t.items)));
  }

  lemma PushSafe(h: Host, c: Client, id: nat, p: PushMove)
    requires ClientInv(h, c) && SafeInv(h, c) && PushEnabled(c, id, p)
    ensures KeptSafe(c, PushHost(h, p), PushAct(h, c, id, p))
  {
    match p
    case Send(r, batch, valid) =>
      PutGrows(h, r, Stored(batch, valid));
      Calm(h, c, PushHost(h, p), PushAct(h, c, id, p), id);
    case PushLost => Calm(h, c, h, End(c, id), id);
    case Ack => Calm(h, c, h, PushAct(h, c, id, p), id);
    case ReadCursor => PushReadSafe(h, c, id);
  }

  /* ---- Pull and open ---- */

  lemma OpenDropSafe(h: Host, c: Client, id: nat)
    requires ClientInv(h, c) && SafeInv(h, c) && PullEnabled(c, id, OpenDrop)
    ensures KeptSafe(c, h, PullAct(c, id, OpenDrop))
  {
    var c' := PullAct(c, id, OpenDrop);
    var rows := c.tasks[id].rows;
    assert TaskInv(h, c, c.tasks[id]);
    if rows != [] {
      assert OnHostAs(h, rows[0]) && rows[0].msg in c.archive;
      DropCovered(h, c, c', (rows[0].realm, rows[0].seqno));
    }
    CoveredKept(c, c', id);
    Frame(h, c, h, c', id, 0);
  }

  lemma PullSafe(h: Host, c: Client, id: nat, p: PullMove)
    requires ClientInv(h, c) && SafeInv(h, c) && PullEnabled(c, id, p)
    ensures KeptSafe(c, h, PullAct(c, id, p))
  {
    match p
    case AskBodies(_) => Calm(h, c, h, PullAct(c, id, p), id);
    case PullLost => Calm(h, c, h, End(c, id), id);
    case OpenAdd =>
      ArchiveAdds(c.archive, c.tasks[id].rows);
      Calm(h, c, h, PullAct(c, id, p), id);
    case OpenDrop => OpenDropSafe(h, c, id);
  }

  /* ---- Notifications ---- */

  lemma NotifiedSafe(h: Host, c: Client, id: nat, n: NotifMove)
    requires SafeInv(h, c) && n.Arrive? && NotifEnabled(h, c, id, n)
    ensures KeptSafe(c, h, NotifAct(h, c, id, n))
  {
    var c' := NotifAct(h, c, id, n);
    CoveredSame(c, c', id);
    forall r
      ensures SafeUpTo(h, c', r, CursorOf(c.cursor, r))
    {
      SafeLater(h, c, h, c', r, CursorOf(c.cursor, r));
    }
    Frame(h, c, h, c', id, 0);
  }

  // A run only passes a bag that is covered.
  lemma RunSafe(h: Host, c: Client, t: Task, n: Notice)
    requires t.Notif? && OnHostAt(h, n.realm, n.seqno) && Covered(c, BagAt(h, n.realm, n.seqno)) && TaskSafe(h, c, t)
    ensures forall r :: r in NotifRun(t, n) ==> SafeUpTo(h, c, r, NotifRun(t, n)[r])
  {
    var run := if n.realm in t.runs then t.runs[n.realm] else CursorOf(t.snap, n.realm);
    assert SafeUpTo(h, c, n.realm, run);
    if n.seqno == run + 1 { SafeNext(h, c, n.realm, run); }
  }

  // The handler goes on holding the same bodies and no run gets longer.
  lemma NotifSame(h: Host, c: Client, mid: Client, id: nat, t: Task, t': Task, r: Realm)
    requires SafeInv(h, c) && id in c.tasks && t == c.tasks[id] && t.Notif?
    requires t'.Notif? && t'.snap == t.snap && t'.complete == t.complete
    requires forall q :: q in t'.runs ==> q in t.runs && t'.runs[q] == t.runs[q]
    requires mid == c || (r in t.runs && mid == c.(cursor := Advanced(c.cursor, r, t.runs[r])))
    ensures KeptSafe(c, h, To(mid, id, t'))
  {
    var c' := To(mid, id, t');
    CoveredSame(c, c', id);
    TaskSafeLater(h, c, h, c', t);
    Frame(h, c, h, c', id, r);
  }

  lemma HoldSafe(h: Host, c: Client, id: nat, t: Task, n: Notice)
    requires SafeInv(h, c) && id in c.tasks && t == c.tasks[id] && t.Notif? && OnHostAt(h, n.realm, n.seqno)
    ensures var m := BagAt(h, n.realm, n.seqno);
            KeptSafe(c, h, To(c, id, t.(seen := t.seen + 1, runs := NotifRun(t, n), complete := t.complete[m := n.realm])))
  {
    var m := BagAt(h, n.realm, n.seqno);
    var c' := To(c, id, t.(seen := t.seen + 1, runs := NotifRun(t, n), complete := t.complete[m := n.realm]));
    assert Held(c'.tasks[id]) == Held(t) + {m};
    assert m in Held(c'.tasks[id]);
    CoveredSame(c, c', id);
    TaskSafeLater(h, c, h, c', t);
    RunSafe(h, c', t, n);
    Frame(h, c, h, c', id, 0);
  }

  lemma QueueCovers(h: Host, c: Client, c': Client, id: nat, d: Dl)
    requires QueueInv(h, c) && OnHostAs(h, d) && OthersSame(c, c', id) && c'.archive == c.archive
    requires c'.downloads == c.downloads[(d.realm, d.seqno) := d.msg]
    requires id in c.tasks && id in c'.tasks && Held(c'.tasks[id]) == Held(c.tasks[id])
    ensures StaysCovered(c, c') && Covered(c', d.msg)
  {
    EnqueueBag(h, c, d);
    CoveredSame(c, c', id);
  }

  lemma QueueSafe(h: Host, c: Client, id: nat, t: Task, n: Notice)
    requires ClientInv(h, c) && SafeInv(h, c)
    requires id in c.tasks && t == c.tasks[id] && t.Notif? && OnHostAt(h, n.realm, n.seqno)
    ensures var m := BagAt(h, n.realm, n.seqno);
            KeptSafe(c, h, To(c.(downloads := c.downloads[(n.realm, n.seqno) := m]), id,
                              t.(seen := t.seen + 1, runs := NotifRun(t, n))))
  {
    var m := BagAt(h, n.realm, n.seqno);
    var mid := c.(downloads := c.downloads[(n.realm, n.seqno) := m]);
    var c' := To(mid, id, t.(seen := t.seen + 1, runs := NotifRun(t, n)));
    QueueCovers(h, c, c', id, Dl(n.realm, n.seqno, m));
    TaskSafeLater(h, c, h, c', t);
    RunSafe(h, c', t, n);
    Frame(h, c, h, c', id, 0);
  }

  lemma TakeSafe(h: Host, c: Client, id: nat, known: bool)
    requires ClientInv(h, c) && SafeInv(h, c) && NotifEnabled(h, c, id, Take(known))
    ensures KeptSafe(c, h, NotifAct(h, c, id, Take(known)))
  {
    if known {
      TakeKnownSafe(h, c, id);
    } else if c.tasks[id].notices[c.tasks[id].seen].inline {
      TakeInlineSafe(h, c, id);
    } else {
      TakeQueueSafe(h, c, id);
    }
  }

  lemma TakeKnownSafe(h: Host, c: Client, id: nat)
    requires SafeInv(h, c) && NotifEnabled(h, c, id, Take(true))
    ensures KeptSafe(c, h, NotifAct(h, c, id, Take(true)))
  {
    TakeKnown(h, c, id);
    NotifSame(h, c, c, id, c.tasks[id], c.tasks[id].(seen := c.tasks[id].seen + 1), 0);
  }

  lemma TakeInlineSafe(h: Host, c: Client, id: nat)
    requires SafeInv(h, c) && NotifEnabled(h, c, id, Take(false))
    requires c.tasks[id].notices[c.tasks[id].seen].inline
    ensures KeptSafe(c, h, NotifAct(h, c, id, Take(false)))
  {
    TakeInline(h, c, id);
    HoldSafe(h, c, id, c.tasks[id], c.tasks[id].notices[c.tasks[id].seen]);
  }

  lemma TakeQueueSafe(h: Host, c: Client, id: nat)
    requires ClientInv(h, c) && SafeInv(h, c) && NotifEnabled(h, c, id, Take(false))
    requires !c.tasks[id].notices[c.tasks[id].seen].inline
    ensures KeptSafe(c, h, NotifAct(h, c, id, Take(false)))
  {
    TakeQueue(h, c, id);
    QueueSafe(h, c, id, c.tasks[id], c.tasks[id].notices[c.tasks[id].seen]);
  }

  lemma TouchRunSafe(h: Host, c: Client, id: nat, r: Realm)
    requires SafeInv(h, c) && NotifEnabled(h, c, id, TouchRun(r))
    ensures KeptSafe(c, h, NotifAct(h, c, id, TouchRun(r)))
  {
    var t := c.tasks[id];
    NotifSame(h, c, c, id, t, t.(runs := t.runs - {r}), r);
    NotifSame(h, c, c.(cursor := Advanced(c.cursor, r, t.runs[r])), id, t, t.(runs := t.runs - {r}), r);
  }

  lemma AddCompleteSafe(h: Host, c: Client, id: nat)
    requires SafeInv(h, c) && NotifEnabled(h, c, id, AddComplete)
    ensures KeptSafe(c, h, NotifAct(h, c, id, AddComplete))
  {
    var c' := NotifAct(h, c, id, AddComplete);
    CoveredKept(c, c', id);
    Frame(h, c, h, c', id, 0);
  }

  lemma NotifSafe(h: Host, c: Client, id: nat, n: NotifMove)
    requires ClientInv(h, c) && SafeInv(h, c) && NotifEnabled(h, c, id, n)
    ensures KeptSafe(c, h, NotifAct(h, c, id, n))
  {
    match n
    case Arrive(_) => NotifiedSafe(h, c, id, n);
    case Take(known) => TakeSafe(h, c, id, known);
    case TouchRun(r) => TouchRunSafe(h, c, id, r);
    case AddComplete => AddCompleteSafe(h, c, id);
  }

  /* ---- Full inventory ---- */

  // An inventory that goes on, holding what it held, at most one cursor moved.
  lemma ReconSafe(h: Host, c: Client, mid: Client, id: nat, t: Task, t': Task, r: Realm)
    requires SafeInv(h, c) && id in c.tasks && t == c.tasks[id] && t.Recon? && t'.Recon? && t'.pull == t.pull
    requires Held(t) <= Held(t')
    requires mid == c.(cursor := mid.cursor, uploads := mid.uploads)
    requires forall q :: q != r ==> CursorOf(mid.cursor, q) == CursorOf(c.cursor, q)
    requires CursorOf(mid.cursor, r) == CursorOf(c.cursor, r) || SafeUpTo(h, To(mid, id, t'), r, CursorOf(mid.cursor, r))
    ensures KeptSafe(c, h, To(mid, id, t'))
  {
    CoveredSame(c, To(mid, id, t'), id);
    Frame(h, c, h, To(mid, id, t'), id, r);
  }

  // A realm's listing goes into the inventory, and its cursor to the top.
  lemma ListedSafe(h: Host, c: Client, id: nat, t: Task, r: Realm, hi: nat)
    requires SafeInv(h, c) && id in c.tasks && t == c.tasks[id] && t.Recon? && TaskInv(h, c, t) && hi <= |Bags(h, r)|
    ensures var inv := Inventory(t.inv, r, Bags(h, r)[..hi]);
            KeptSafe(c, h, To(c.(cursor := c.cursor[r := hi]), id,
                              t.(todo := t.todo - {r}, asked := None, inv := inv, left := inv.Keys)))
  {
    var inv := Inventory(t.inv, r, Bags(h, r)[..hi]);
    InventoryHas(h, t.inv, r, Bags(h, r)[..hi]);
    TopSafe(h, c, id, t, t.(todo := t.todo - {r}, asked := None, inv := inv, left := inv.Keys), r, hi);
  }

  lemma TopSafe(h: Host, c: Client, id: nat, t: Task, t': Task, r: Realm, hi: nat)
    requires SafeInv(h, c) && id in c.tasks && t == c.tasks[id] && t.Recon? && hi <= |Bags(h, r)|
    requires t'.Recon? && t'.pull == t.pull && t'.dls == t.dls && t.left <= t'.left
    requires forall m :: m in Bags(h, r)[..hi] ==> m in t'.left
    ensures KeptSafe(c, h, To(c.(cursor := c.cursor[r := hi]), id, t'))
  {
    ListedCovers(h, To(c.(cursor := c.cursor[r := hi]), id, t'), id, r, hi);
    ReconSafe(h, c, c.(cursor := c.cursor[r := hi]), id, t, t', r);
  }

  lemma ListedCovers(h: Host, c: Client, id: nat, r: Realm, hi: nat)
    requires id in c.tasks && c.tasks[id].Recon? && hi <= |Bags(h, r)|
    requires forall m :: m in Bags(h, r)[..hi] ==> m in c.tasks[id].left
    ensures SafeUpTo(h, c, r, hi)
  {
    forall q | 0 <= q < hi
      ensures Covered(c, Bags(h, r)[q])
    {
      assert Bags(h, r)[..hi][q] in Held(c.tasks[id]);
    }
  }

  lemma SetCursorSafe(h: Host, c: Client, id: nat)
    requires ClientInv(h, c) && SafeInv(h, c) && ReconEnabled(h, c, id, SetCursor)
    ensures KeptSafe(c, h, ReconAct(h, c, id, SetCursor))
  {
    var (r, hi) := c.tasks[id].asked.value;
    assert TaskInv(h, c, c.tasks[id]);
    ListedSafe(h, c, id, c.tasks[id], r, hi);
  }

  // A message that is archived need not be held any more.
  lemma LetGoSafe(h: Host, c: Client, id: nat, t: Task, m: Msg)
    requires SafeInv(h, c) && id in c.tasks && t == c.tasks[id] && t.Recon? && m in c.archive
    ensures KeptSafe(c, h, To(c.(uploads := c.uploads - {m}), id, t.(left := t.left - {m})))
  {
    var c' := To(c.(uploads := c.uploads - {m}), id, t.(left := t.left - {m}));
    HeldCovers(c', id);
    forall x | x in Held(t)
      ensures Covered(c', x)
    {
      assert x == m || x in Held(c'.tasks[id]);
    }
    CoveredKept(c, c', id);
    Frame(h, c, h, c', id, 0);
  }

  lemma LookUpSafe(h: Host, c: Client, id: nat, q: ReconMove)
    requires SafeInv(h, c) && q.LookUp? && ReconEnabled(h, c, id, q)
    ensures KeptSafe(c, h, ReconAct(h, c, id, q))
  {
    var (t, m) := (c.tasks[id], q.msg);
    var d := Dl(t.inv[m].0, t.inv[m].1, m);
    if q.known {
      LetGoSafe(h, c, id, t, m);
    } else {
      assert MsgsOf(t.dls + [d]) == MsgsOf(t.dls) + {m};
      ReconSafe(h, c, c, id, t, t.(left := t.left - {m}, dls := t.dls + [d]), 0);
    }
  }

  lemma EnqMissingSafe(h: Host, c: Client, id: nat)
    requires ClientInv(h, c) && SafeInv(h, c) && ReconEnabled(h, c, id, EnqMissing)
    ensures KeptSafe(c, h, ReconAct(h, c, id, EnqMissing))
  {
    var t := c.tasks[id];
    assert TaskInv(h, c, t);
    var mid := c.(downloads := Enqueue(c.downloads, t.dls));
    if t.push {
      ReconDoneSafe(h, c, id, t, To(mid, id, ReconPush(t.inv.Keys)));
    } else {
      ReconDoneSafe(h, c, id, t, End(mid, id));
    }
  }

  lemma ReconDoneSafe(h: Host, c: Client, id: nat, t: Task, c': Client)
    requires SafeInv(h, c) && QueueInv(h, c) && id in c.tasks && t == c.tasks[id] && t.Recon? && t.left == {}
    requires forall d :: d in t.dls ==> OnHostAs(h, d)
    requires var mid := c.(downloads := Enqueue(c.downloads, t.dls));
             c' == End(mid, id) || c' == To(mid, id, ReconPush(t.inv.Keys))
    ensures KeptSafe(c, h, c')
  {
    EnqueueBags(h, c, t.dls);
    CoveredKept(c, c', id);
    Frame(h, c, h, c', id, 0);
  }

  lemma GiveUpSafe(h: Host, c: Client, id: nat)
    requires ClientInv(h, c) && SafeInv(h, c) && ReconEnabled(h, c, id, ListLost) && c.tasks[id].inv == map[]
    ensures KeptSafe(c, h, End(c, id))
  {
    assert TaskInv(h, c, c.tasks[id]);
    Calm(h, c, h, End(c, id), id);
  }

  lemma ReconMovesSafe(h: Host, c: Client, id: nat, q: ReconMove)
    requires ClientInv(h, c) && SafeInv(h, c) && ReconEnabled(h, c, id, q) && Thorough(c, Step(id, Reconciling(q)))
    ensures KeptSafe(c, h, ReconAct(h, c, id, q))
  {
    match q
    case AskAll(_, _, _) => Calm(h, c, h, ReconAct(h, c, id, q), id);
    case ListLost => GiveUpSafe(h, c, id);
    case Listed(r) => ReconSafe(h, c, c, id, c.tasks[id], c.tasks[id].(asked := Some((r, |Bags(h, r)|))), 0);
    case SetCursor => SetCursorSafe(h, c, id);
    case LookUp(_, _) => LookUpSafe(h, c, id, q);
    case EnqMissing => EnqMissingSafe(h, c, id);
    case QueueMissing(_) => Calm(h, c, h, ReconAct(h, c, id, q), id);
  }

  /* ---- All steps ---- */

  lemma StepSafe(h: Host, c: Client, step: Step)
    requires ClientInv(h, c) && SafeInv(h, c) && Enabled(h, c, step) && Thorough(c, step)
    ensures KeptSafe(c, HostAfter(h, c, step), Act(h, c, step))
  {
    match step.move
    case Writing(w) => WriteSafe(h, c, step.id, w);
    case Draining(d) => DrainSafe(h, c, step.id, d);
    case Peeking(p) => PeekSafe(h, c, step.id, p);
    case Pushing(s) => PushSafe(h, c, step.id, s);
    case Pulling(b) => PullSafe(h, c, step.id, b);
    case Notifying(n) => NotifSafe(h, c, step.id, n);
    case Reconciling(q) => ReconMovesSafe(h, c, step.id, q);
    case TouchCursor => TouchSafe(h, c, step.id, c.tasks[step.id]);
  }

  // Another client's step only lengthens the host's bag lists.
  lemma OtherClientSafe(h: Host, h': Host, c: Client)
    requires SafeInv(h, c) && HostGrows(h, h')
    ensures SafeInv(h', c)
  {
    assert StaysCovered(c, c);
    if 0 in c.tasks { TaskSafeLater(h, c, h', c, c.tasks[0]); }
    Frame(h, c, h', c, 0, 0);
  }
}
