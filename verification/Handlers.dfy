// The handlers of web/src/sync.ts on the client's stores, each run to its end
// without interruption. What a handler does to the stores is a run of its
// moves in the protocol model, so whatever those keep, it keeps.

module Handlers {
  import opened Basics
  import opened Lww
  import opened Messages
  import opened PushItems
  import opened SyncState
  import opened SyncInv
  import opened SyncRuns
  import opened SyncSafe
  import opened Stores

  // Handler id, begun at c0, has made these moves and now is at t; c is the
  // client as its stores show it.
  ghost predicate Came(h: Host, c0: Client, id: nat, moves: seq<Move>, c: Client, t: Task) {
    After(h, c0, id, moves) == Some((h, c)) && c.tasks == c0.tasks[id := t]
  }

  // The handler is over.
  ghost predicate Over(h: Host, c0: Client, id: nat, moves: seq<Move>, c: Client) {
    After(h, c0, id, moves) == Some((h, c)) && c.tasks == c0.tasks - {id}
  }

  lemma TouchMove(h: Host, c0: Client, id: nat, moves: seq<Move>, c: Client, r: Realm, v: nat)
    returns (c': Client)
    requires Came(h, c0, id, moves, c, Touch(r, v))
    ensures Over(h, c0, id, moves + [TouchCursor], c')
    ensures c'.archive == c.archive && c'.uploads == c.uploads && c'.downloads == c.downloads
    ensures c'.cursor == Advanced(c.cursor, r, v)
  {
    AfterSnoc(h, c0, id, moves, h, c, TouchCursor);
    c' := End(c.(cursor := Advanced(c.cursor, r, v)), id);
    assert c'.tasks == c0.tasks - {id};
  }

  /* ---- pushBatch ---- */

  // The client once the next item of the answer is handled.
  ghost function AckedBy(c: Client, t: Task): Client
    requires t.Push? && t.acked < |t.items|
  {
    c.(uploads := c.uploads - Acknowledged(t.items[t.acked], t.batch))
  }

  lemma AckAct(h: Host, c: Client, id: nat, t: Task)
    requires t.Push? && id in c.tasks && c.tasks[id] == t && t.acked < |t.items|
    ensures PushEnabled(c, id, Ack) && PushAct(h, c, id, Ack) == To(AckedBy(c, t), id, t.(acked := t.acked + 1))
  {
  }

  lemma AckMove(h: Host, c0: Client, id: nat, moves: seq<Move>, c: Client, t: Task) returns (c': Client)
    requires t.Push? && Came(h, c0, id, moves, c, t) && t.acked < |t.items|
    ensures Came(h, c0, id, moves + [Pushing(Ack)], c', t.(acked := t.acked + 1))
    ensures c' == To(AckedBy(c, t), id, t.(acked := t.acked + 1))
  {
    AckAct(h, c, id, t);
    AfterSnoc(h, c0, id, moves, h, c, Pushing(Ack));
    c' := PushAct(h, c, id, Ack);
  }

  // What pushBatch reads the cursor up to.
  ghost function PushTo(c: Client, t: Task): nat
    requires t.Push?
  {
    Contiguous(CursorOf(c.cursor, t.realm), SortedSeqs(t.items))
  }

  lemma ReadAct(h: Host, c: Client, id: nat, t: Task)
    requires t.Push? && id in c.tasks && c.tasks[id] == t && t.acked == |t.items|
    ensures PushEnabled(c, id, ReadCursor)
    ensures PushAct(h, c, id, ReadCursor) ==
            if PushTo(c, t) > CursorOf(c.cursor, t.realm) then To(c, id, Touch(t.realm, PushTo(c, t))) else End(c, id)
  {
  }

  lemma ReadMove(h: Host, c0: Client, id: nat, moves: seq<Move>, c: Client, t: Task) returns (c': Client)
    requires t.Push? && Came(h, c0, id, moves, c, t) && t.acked == |t.items|
    ensures After(h, c0, id, moves + [Pushing(ReadCursor)]) == Some((h, c'))
    ensures c' == if PushTo(c, t) > CursorOf(c.cursor, t.realm) then To(c, id, Touch(t.realm, PushTo(c, t))) else End(c, id)
  {
    ReadAct(h, c, id, t);
    AfterSnoc(h, c0, id, moves, h, c, Pushing(ReadCursor));
    c' := PushAct(h, c, id, ReadCursor);
  }

  lemma ReadEnd(h: Host, c0: Client, id: nat, moves: seq<Move>, c: Client, t: Task) returns (c': Client)
    requires t.Push? && Came(h, c0, id, moves, c, t) && t.acked == |t.items| && PushTo(c, t) <= CursorOf(c.cursor, t.realm)
    ensures Over(h, c0, id, moves + [Pushing(ReadCursor)], c') && c' == End(c, id)
  {
    c' := ReadMove(h, c0, id, moves, c, t);
    assert c'.tasks == c0.tasks - {id};
  }

  lemma ReadCursorMove(h: Host, c0: Client, id: nat, moves: seq<Move>, c: Client, t: Task)
    returns (moves': seq<Move>, c': Client)
    requires t.Push? && Came(h, c0, id, moves, c, t) && t.acked == |t.items|
    ensures Over(h, c0, id, moves', c')
    ensures c'.archive == c.archive && c'.uploads == c.uploads && c'.downloads == c.downloads
    ensures c'.cursor == Advanced(c.cursor, t.realm, PushTo(c, t))
  {
    moves' := moves + [Pushing(ReadCursor)];
    if PushTo(c, t) > CursorOf(c.cursor, t.realm) {
      c' := ReadMove(h, c0, id, moves, c, t);
      c' := TouchMove(h, c0, id, moves', c', t.realm, PushTo(c, t));
      moves' := moves' + [TouchCursor];
    } else {
      c' := ReadEnd(h, c0, id, moves, c, t);
    }
  }

  function Successes(items: seq<PushItem>): seq<nat> {
    if items == [] then []
    else (if items[0].outcome.Ok? then [items[0].outcome.value] else []) + Successes(items[1..])
  }

  function Sort(s: seq<nat>): seq<nat> { if s == [] then [] else Insert(s[0], Sort(s[1..])) }

  lemma {:induction false} SortedSuccesses(items: seq<PushItem>)
    ensures Sort(Successes(items)) == SortedSeqs(items)
    decreases |items|
  {
    if items != [] {
      SortedSuccesses(items[1..]);
      if items[0].outcome.Ok? { assert Successes(items)[1..] == Successes(items[1..]); }
      assert [] + Successes(items[1..]) == Successes(items[1..]);
    }
  }

  // The sequence numbers of the successes, in answer order.
  method CollectSeqs(items: seq<PushItem>) returns (seqs: seq<nat>)
    ensures seqs == Successes(items)
  {
    seqs := [];
    assert items[0..] == items;
    for i := 0 to |items|
      invariant seqs + Successes(items[i..]) == Successes(items)
    {
      assert items[i..][1..] == items[i + 1..];
      if items[i].outcome.Ok? { seqs := seqs + [items[i].outcome.value]; }
    }
    assert seqs + [] == seqs;
  }

  // lastSeq may have moved; only successes next to it move it further.
  method NextMax(start: nat, seqs: seq<nat>) returns (currentMax: nat)
    ensures currentMax == Contiguous(start, seqs)
    ensures start <= currentMax && forall q :: start < q <= currentMax ==> q in seqs
    ensures Rising(seqs) ==> currentMax + 1 !in seqs
  {
    ContiguousCovers(start, seqs);
    if Rising(seqs) { ContiguousStops(start, seqs); }
    currentMax := start;
    assert seqs[0..] == seqs;
    for i := 0 to |seqs|
      invariant Contiguous(currentMax, seqs[i..]) == Contiguous(start, seqs)
    {
      assert seqs[i..][1..] == seqs[i + 1..];
      if seqs[i] == currentMax + 1 { currentMax := seqs[i]; }
    }
  }

  // The messages of the batch that the first n items say the host stored.
  function StoredOf(batch: seq<Msg>, items: seq<PushItem>, n: nat): set<Msg>
    requires n <= |items|
  {
    set i | 0 <= i < n && items[i].outcome.Ok? && items[i].idx < |batch| :: batch[items[i].idx]
  }

  ghost predicate AckedUpto(c0: Client, c: Client, batch: seq<Msg>, items: seq<PushItem>, n: nat)
    requires n <= |items|
  {
    && c.archive == c0.archive && c.downloads == c0.downloads && c.cursor == c0.cursor
    && c.uploads == c0.uploads - StoredOf(batch, items, n)
  }

  lemma AckedMore(c0: Client, c1: Client, batch: seq<Msg>, items: seq<PushItem>, n: nat, c: Client)
    requires n < |items| && AckedUpto(c0, c1, batch, items, n)
    requires c.archive == c1.archive && c.downloads == c1.downloads && c.cursor == c1.cursor
    requires c.uploads == c1.uploads - Acknowledged(items[n], batch)
    ensures AckedUpto(c0, c, batch, items, n + 1)
  {
    assert StoredOf(batch, items, n + 1) == StoredOf(batch, items, n) + Acknowledged(items[n], batch);
  }

  // One item of the answer. A failed one, or one whose index has no hash, is
  // only logged.
  method AckOne(store: ClientStore, t: Task, ghost h: Host, ghost c0: Client, ghost id: nat, ghost moves0: seq<Move>,
                ghost c1: Client)
    returns (ghost moves: seq<Move>, ghost c: Client)
    requires store.Holds(c1) && t.Push? && Came(h, c0, id, moves0, c1, t) && t.acked < |t.items|
    requires AckedUpto(c0, c1, t.batch, t.items, t.acked)
    modifies store.uploads
    ensures store.Holds(c) && Came(h, c0, id, moves, c, t.(acked := t.acked + 1))
    ensures AckedUpto(c0, c, t.batch, t.items, t.acked + 1)
  {
    c := AckMove(h, c0, id, moves0, c1, t);
    AckedMore(c0, c1, t.batch, t.items, t.acked, c);
    moves := moves0 + [Pushing(Ack)];
    var item := t.items[t.acked];
    if item.outcome.Err? || item.idx >= |t.batch| { return; }
    store.uploads.Deq([t.batch[item.idx]]);
    assert (set x | x in [t.batch[item.idx]]) == {t.batch[item.idx]};
  }

  lemma NextAck(realm: Realm, batch: seq<Msg>, items: seq<PushItem>, i: nat)
    ensures Push(realm, batch, items, i).(acked := i + 1) == Push(realm, batch, items, i + 1)
  {
  }

  // Each success leaves the upload queue, by its index in the request.
  method AckAll(store: ClientStore, realm: Realm, batch: seq<Msg>, items: seq<PushItem>, ghost h: Host, ghost c0: Client,
                ghost id: nat)
    returns (ghost moves: seq<Move>, ghost c: Client)
    requires store.Holds(c0) && id in c0.tasks && c0.tasks[id] == Push(realm, batch, items, 0)
    modifies store.uploads
    ensures Came(h, c0, id, moves, c, Push(realm, batch, items, |items|)) && store.Holds(c)
    ensures AckedUpto(c0, c, batch, items, |items|)
  {
    moves, c := [], c0;
    assert c0.tasks[id := c0.tasks[id]] == c0.tasks;
    for i := 0 to |items|
      invariant Came(h, c0, id, moves, c, Push(realm, batch, items, i)) && store.Holds(c)
      invariant AckedUpto(c0, c, batch, items, i)
    {
      NextAck(realm, batch, items, i);
      moves, c := AckOne(store, Push(realm, batch, items, i), h, c0, id, moves, c);
    }
  }

  lemma LostMove(h: Host, c0: Client, id: nat) returns (moves: seq<Move>, c: Client)
    requires id in c0.tasks && c0.tasks[id].Push? && c0.tasks[id].acked == 0
    ensures Over(h, c0, id, moves, c) && c == End(c0, id)
  {
    moves, c := [] + [Pushing(PushLost)], End(c0, id);
    AfterSnoc(h, c0, id, [], h, c0, Pushing(PushLost));
  }

  // No cursor but this realm's has changed.
  ghost predicate CursorOnly(before: map<Realm, nat>, after: map<Realm, nat>, realm: Realm) {
    forall r :: r != realm ==> (r in before <==> r in after) && (r in before ==> after[r] == before[r])
  }

  // What a push leaves of the client: all, if the answer was lost; else the
  // stored messages are gone from the upload queue, and the cursor is as far as
  // the reported numbers go without a gap.
  ghost predicate Pushed(c0: Client, c: Client, realm: Realm, batch: seq<Msg>, answer: Result<seq<PushItem>>) {
    && c.archive == c0.archive && c.downloads == c0.downloads
    && match answer
       case Err(_) => c.uploads == c0.uploads && c.cursor == c0.cursor
       case Ok(items) =>
         && c.uploads == c0.uploads - StoredOf(batch, items, |items|)
         && Furthest(items, CursorOf(c0.cursor, realm), CursorOf(c.cursor, realm))
         && CursorOnly(c0.cursor, c.cursor, realm)
  }

  method PushBatch(store: ClientStore, realm: Realm, batch: seq<Msg>, answer: Result<seq<PushItem>>, ghost h: Host,
                   ghost c0: Client, ghost id: nat)
    returns (status: Status, ghost moves: seq<Move>, ghost c: Client)
    requires store.Holds(c0) && id in c0.tasks && c0.tasks[id].Push? && c0.tasks[id].acked == 0
    requires answer.Ok? ==> c0.tasks[id] == Push(realm, batch, answer.value, 0)
    modifies store.uploads, store.hosts
    ensures Over(h, c0, id, moves, c) && store.Holds(c) && Pushed(c0, c, realm, batch, answer)
    ensures status == if answer.Ok? then Success else answer.status
  {
    if answer.Err? {
      moves, c := LostMove(h, c0, id);
      return answer.status, moves, c;
    }
    moves, c := AckAll(store, realm, batch, answer.value, h, c0, id);
    var start := CursorOf(store.hosts.cursors, realm);
    var seqs := CollectSeqs(answer.value);
    SortedSuccesses(answer.value);
    var currentMax := NextMax(start, Sort(seqs));
    PushFurthest(answer.value, start);
    if currentMax > start { store.hosts.Touch(currentMax, realm); }
    moves, c := ReadCursorMove(h, c0, id, moves, c, Push(realm, batch, answer.value, |answer.value|));
    status := Success;
  }

  /* ---- syncPeek, from the answer on ---- */

  // The bag that is looked at next.
  ghost predicate PeekNext(h: Host, t: Task, m: Msg) {
    t.Peek? && !t.deq && t.done < t.hi <= |Bags(h, t.realm)| && Bags(h, t.realm)[t.done] == m
  }

  ghost predicate AtPeek(h: Host, c: Client, id: nat, t: Task, m: Msg) {
    id in c.tasks && c.tasks[id] == t && PeekNext(h, t, m)
  }

  lemma SkipAct(h: Host, c: Client, id: nat, t: Task, m: Msg, known: bool)
    requires AtPeek(h, c, id, t, m) && (if known then m in c.archive else m in MsgsOf(t.dls))
    ensures PeekEnabled(h, c, id, Item(known))
    ensures PeekAct(h, c, id, Item(known)) ==
            To(if known then c.(uploads := c.uploads - {m}) else c, id, t.(deq := true))
  {
  }

  lemma DropAct(h: Host, c: Client, id: nat, t: Task)
    requires t.Peek? && t.deq && id in c.tasks && c.tasks[id] == t
    ensures PeekEnabled(h, c, id, Deq)
    ensures PeekAct(h, c, id, Deq) ==
            To(c.(downloads := c.downloads - {(t.realm, t.done + 1)}), id, t.(deq := false, done := t.done + 1))
  {
  }

  lemma CollectAct(h: Host, c: Client, id: nat, t: Task, m: Msg)
    requires AtPeek(h, c, id, t, m) && m !in MsgsOf(t.dls)
    ensures PeekEnabled(h, c, id, Item(false))
    ensures PeekAct(h, c, id, Item(false)) ==
            To(c, id, t.(dls := t.dls + [Dl(t.realm, t.done + 1, m)], done := t.done + 1))
  {
  }

  lemma SkipMove(h: Host, c0: Client, id: nat, moves: seq<Move>, c: Client, t: Task, m: Msg, known: bool)
    requires Came(h, c0, id, moves, c, t) && PeekNext(h, t, m) && (if known then m in c.archive else m in MsgsOf(t.dls))
    ensures Came(h, c0, id, moves + [Peeking(Item(known))],
                 To(if known then c.(uploads := c.uploads - {m}) else c, id, t.(deq := true)), t.(deq := true))
  {
    SkipAct(h, c, id, t, m, known);
    AfterSnoc(h, c0, id, moves, h, c, Peeking(Item(known)));
  }

  lemma DropMove(h: Host, c0: Client, id: nat, moves: seq<Move>, c: Client, t: Task)
    requires Came(h, c0, id, moves, c, t) && t.Peek? && t.deq
    ensures Came(h, c0, id, moves + [Peeking(Deq)],
                 To(c.(downloads := c.downloads - {(t.realm, t.done + 1)}), id, t.(deq := false, done := t.done + 1)),
                 t.(deq := false, done := t.done + 1))
  {
    DropAct(h, c, id, t);
    AfterSnoc(h, c0, id, moves, h, c, Peeking(Deq));
  }

  // A bag whose message is archived, or queued already: nothing to download.
  lemma SkipMoves(h: Host, c0: Client, id: nat, moves: seq<Move>, c: Client, t: Task, m: Msg, known: bool)
    returns (c': Client)
    requires Came(h, c0, id, moves, c, t) && PeekNext(h, t, m) && (if known then m in c.archive else m in MsgsOf(t.dls))
    ensures Came(h, c0, id, moves + [Peeking(Item(known))] + [Peeking(Deq)], c', t.(done := t.done + 1))
    ensures c'.archive == c.archive && c'.cursor == c.cursor
    ensures c'.uploads == (if known then c.uploads - {m} else c.uploads)
    ensures c'.downloads == c.downloads - {(t.realm, t.done + 1)}
  {
    SkipMove(h, c0, id, moves, c, t, m, known);
    var mid := To(if known then c.(uploads := c.uploads - {m}) else c, id, t.(deq := true));
    DropMove(h, c0, id, moves + [Peeking(Item(known))], mid, t.(deq := true));
    c' := To(mid.(downloads := mid.downloads - {(t.realm, t.done + 1)}), id, t.(done := t.done + 1));
    assert t.(deq := true).(deq := false, done := t.done + 1) == t.(done := t.done + 1);
  }

  lemma CollectMove(h: Host, c0: Client, id: nat, moves: seq<Move>, c: Client, t: Task, m: Msg) returns (c': Client)
    requires Came(h, c0, id, moves, c, t) && PeekNext(h, t, m) && m !in MsgsOf(t.dls)
    ensures Came(h, c0, id, moves + [Peeking(Item(false))], c',
                 t.(dls := t.dls + [Dl(t.realm, t.done + 1, m)], done := t.done + 1))
    ensures c' == To(c, id, t.(dls := t.dls + [Dl(t.realm, t.done + 1, m)], done := t.done + 1))
  {
    CollectAct(h, c, id, t, m);
    AfterSnoc(h, c0, id, moves, h, c, Peeking(Item(false)));
    c' := PeekAct(h, c, id, Item(false));
  }

  lemma EnqAct(h: Host, c: Client, id: nat, t: Task)
    requires t.Peek? && !t.deq && t.done == t.hi && id in c.tasks && c.tasks[id] == t
    ensures PeekEnabled(h, c, id, Enq)
    ensures PeekAct(h, c, id, Enq) == To(c.(downloads := Enqueue(c.downloads, t.dls)), id, Touch(t.realm, t.hi))
  {
  }

  lemma PeekEnd(h: Host, c0: Client, id: nat, moves: seq<Move>, c: Client, t: Task) returns (c': Client)
    requires t.Peek? && !t.deq && t.done == t.hi && Came(h, c0, id, moves, c, t)
    ensures Over(h, c0, id, moves + [Peeking(Enq)] + [TouchCursor], c')
    ensures c'.archive == c.archive && c'.uploads == c.uploads && c'.downloads == Enqueue(c.downloads, t.dls)
    ensures c'.cursor == Advanced(c.cursor, t.realm, t.hi)
  {
    EnqAct(h, c, id, t);
    AfterSnoc(h, c0, id, moves, h, c, Peeking(Enq));
    var mid := PeekAct(h, c, id, Enq);
    c' := TouchMove(h, c0, id, moves + [Peeking(Enq)], mid, t.realm, t.hi);
  }

  lemma OneKey(r: Realm, seqno: nat)
    ensures (set q | q in [seqno] :: (r, q)) == {(r, seqno)}
  {
    assert seqno in [seqno];
  }

  // A bag that needs no download. known: its message is archived.
  method SkipItem(store: ClientStore, t: Task, m: Msg, known: bool, ghost h: Host, ghost c0: Client, ghost id: nat,
                  ghost moves0: seq<Move>, ghost c1: Client)
    returns (ghost moves: seq<Move>, ghost c: Client)
    requires store.Holds(c1) && Came(h, c0, id, moves0, c1, t) && PeekNext(h, t, m)
    requires if known then m in c1.archive else m in MsgsOf(t.dls)
    modifies store.uploads, store.downloads
    ensures store.Holds(c) && Came(h, c0, id, moves, c, t.(done := t.done + 1))
    ensures c.archive == c1.archive && c.cursor == c1.cursor
    ensures c.uploads == if known then c1.uploads - {m} else c1.uploads
    ensures c.downloads == c1.downloads - {(t.realm, t.done + 1)}
  {
    if known {
      store.uploads.Deq([m]);
      assert (set x | x in [m]) == {m};
    }
    store.downloads.Deq(t.realm, [t.done + 1]);
    OneKey(t.realm, t.done + 1);
    c := SkipMoves(h, c0, id, moves0, c1, t, m, known);
    moves := moves0 + [Peeking(Item(known))] + [Peeking(Deq)];
  }

  // One item of the answer. enq: the messages collected so far.
  method PeekItem(store: ClientStore, t: Task, m: Msg, enq: set<Msg>, ghost h: Host, ghost c0: Client, ghost id: nat,
                  ghost moves0: seq<Move>, ghost c1: Client)
    returns (t': Task, ghost moves: seq<Move>, ghost c: Client)
    requires store.Holds(c1) && Came(h, c0, id, moves0, c1, t) && PeekNext(h, t, m) && enq == MsgsOf(t.dls)
    modifies store.uploads, store.downloads
    ensures PeekedOne(c1, t, m, m in c1.archive || m in enq, c, t')
    ensures store.Holds(c) && Came(h, c0, id, moves, c, t')
  {
    t' := t.(done := t.done + 1);
    var known := store.messages.Has(m);
    if known || m in enq {
      moves, c := SkipItem(store, t, m, known, h, c0, id, moves0, c1);
    } else {
      t' := t.(dls := t.dls + [Dl(t.realm, t.done + 1, m)], done := t.done + 1);
      c := CollectMove(h, c0, id, moves0, c1, t, m);
      moves := moves0 + [Peeking(Item(false))];
    }
  }

  // What a peek enqueues: each message that is not archived, once, by its first bag.
  function NewRows(archive: map<Msg, ArchRow>, r: Realm, from: nat, items: seq<Msg>): seq<Dl>
    decreases |items|
  {
    if items == [] then []
    else
      var init, m := items[..|items| - 1], items[|items| - 1];
      var before := NewRows(archive, r, from, init);
      if m in archive || m in init then before else before + [Dl(r, from + |items|, m)]
  }

  // The queue keys it clears: bags of archived messages, and later bags of a
  // message that it enqueues.
  function SkippedKeys(archive: map<Msg, ArchRow>, r: Realm, from: nat, items: seq<Msg>): set<(Realm, nat)>
    decreases |items|
  {
    if items == [] then {}
    else
      var init, m := items[..|items| - 1], items[|items| - 1];
      SkippedKeys(archive, r, from, init) + if m in archive || m in init then {(r, from + |items|)} else {}
  }

  function KnownOf(archive: map<Msg, ArchRow>, items: seq<Msg>): set<Msg> { set m | m in items && m in archive }

  lemma {:induction false} NewMsgs(archive: map<Msg, ArchRow>, r: Realm, from: nat, items: seq<Msg>)
    ensures forall m :: m in MsgsOf(NewRows(archive, r, from, items)) <==> m in items && m !in archive
    decreases |items|
  {
    if items != [] {
      var init, m := items[..|items| - 1], items[|items| - 1];
      var before := NewRows(archive, r, from, init);
      NewMsgs(archive, r, from, init);
      assert items == init + [m];
      assert MsgsOf(before + [Dl(r, from + |items|, m)]) == MsgsOf(before) + {m};
    }
  }

  // Of each bag of the answer: enqueued exactly when its message is not
  // archived and no earlier bag carries it, and cleared otherwise.
  lemma {:induction false} NewOrSkipped(archive: map<Msg, ArchRow>, r: Realm, from: nat, items: seq<Msg>, q: nat, m: Msg)
    ensures Dl(r, q, m) in NewRows(archive, r, from, items) <==>
            from < q <= from + |items| && m == items[q - from - 1] && m !in archive && m !in items[..q - from - 1]
    ensures (r, q) in SkippedKeys(archive, r, from, items) <==>
            from < q <= from + |items| && (items[q - from - 1] in archive || items[q - from - 1] in items[..q - from - 1])
    decreases |items|
  {
    if items != [] {
      var init := items[..|items| - 1];
      NewOrSkipped(archive, r, from, init, q, m);
      if from < q <= from + |items| { assert items[..q - from - 1] == init[..q - from - 1]; }
    }
  }

  // What the first items of the answer have done to the client.
  ghost predicate Peeked(c0: Client, c: Client, t: Task, realm: Realm, from: nat, hi: nat, items: seq<Msg>) {
    && t == Peek(realm, from, hi, from + |items|, NewRows(c0.archive, realm, from, items), false)
    && c.archive == c0.archive && c.cursor == c0.cursor
    && c.uploads == c0.uploads - KnownOf(c0.archive, items)
    && c.downloads == c0.downloads - SkippedKeys(c0.archive, realm, from, items)
  }

  // One item more, m, to be skipped or collected.
  ghost predicate PeekedOne(c1: Client, t: Task, m: Msg, skip: bool, c: Client, t': Task) {
    && t.Peek? && t' == t.(dls := if skip then t.dls else t.dls + [Dl(t.realm, t.done + 1, m)], done := t.done + 1)
    && c.downloads == (if skip then c1.downloads - {(t.realm, t.done + 1)} else c1.downloads)
    && c.uploads == (if m in c1.archive then c1.uploads - {m} else c1.uploads)
    && c.archive == c1.archive && c.cursor == c1.cursor
  }

  lemma PeekedMore(c0: Client, c1: Client, t: Task, realm: Realm, from: nat, hi: nat, items: seq<Msg>, m: Msg, skip: bool,
                   c: Client, t': Task)
    requires Peeked(c0, c1, t, realm, from, hi, items)
    requires skip <==> m in c0.archive || m in MsgsOf(t.dls)
    requires PeekedOne(c1, t, m, skip, c, t')
    ensures Peeked(c0, c, t', realm, from, hi, items + [m])
  {
    NewMsgs(c0.archive, realm, from, items);
    assert (items + [m])[..|items|] == items;
    assert KnownOf(c0.archive, items + [m]) == KnownOf(c0.archive, items) + if m in c0.archive then {m} else {};
  }

  method PeekOne(store: ClientStore, t: Task, i: nat, items: seq<Msg>, ghost h: Host, ghost c0: Client, ghost id: nat,
                 ghost moves0: seq<Move>, ghost c1: Client)
    returns (t': Task, ghost moves: seq<Move>, ghost c: Client)
    requires t.Peek? && i < |items| && t.from + |items| == t.hi <= |Bags(h, t.realm)|
    requires items[i] == Bags(h, t.realm)[t.from + i]
    requires store.Holds(c1) && Came(h, c0, id, moves0, c1, t) && Peeked(c0, c1, t, t.realm, t.from, t.hi, items[..i])
    modifies store.uploads, store.downloads
    ensures t'.Peek? && store.Holds(c) && Came(h, c0, id, moves, c, t')
    ensures Peeked(c0, c, t', t.realm, t.from, t.hi, items[..i + 1])
  {
    t', moves, c := PeekItem(store, t, items[i], MsgsOf(t.dls), h, c0, id, moves0, c1);
    PeekedMore(c0, c1, t, t.realm, t.from, t.hi, items[..i], items[i],
               items[i] in c0.archive || items[i] in MsgsOf(t.dls), c, t');
    assert items[..i + 1] == items[..i] + [items[i]];
  }

  // The answer's bags, in sequence order: skip what is known, collect the rest.
  method PeekItems(store: ClientStore, realm: Realm, from: nat, items: seq<Msg>, ghost h: Host, ghost c0: Client, ghost id: nat)
    returns (t: Task, ghost moves: seq<Move>, ghost c: Client)
    requires from + |items| <= |Bags(h, realm)| && items == Bags(h, realm)[from..from + |items|]
    requires store.Holds(c0) && id in c0.tasks && c0.tasks[id] == Peek(realm, from, from + |items|, from, [], false)
    modifies store.uploads, store.downloads
    ensures store.Holds(c) && Came(h, c0, id, moves, c, t)
    ensures Peeked(c0, c, t, realm, from, from + |items|, items)
  {
    var hi := from + |items|;
    t, moves, c := Peek(realm, from, hi, from, [], false), [], c0;
    assert items[..0] == [] && c0.tasks[id := t] == c0.tasks;
    for i := 0 to |items|
      invariant t.Peek? && store.Holds(c) && Came(h, c0, id, moves, c, t)
      invariant Peeked(c0, c, t, realm, from, hi, items[..i])
    {
      assert items[i] == Bags(h, realm)[from + i];
      t, moves, c := PeekOne(store, t, i, items, h, c0, id, moves, c);
    }
    assert items[..|items|] == items;
  }

  // What was collected is enqueued, and only then the cursor moves.
  method SyncPeek(store: ClientStore, realm: Realm, from: nat, items: seq<Msg>, ghost h: Host, ghost c0: Client, ghost id: nat)
    returns (ghost moves: seq<Move>, ghost c: Client)
    requires items != [] && from + |items| <= |Bags(h, realm)| && items == Bags(h, realm)[from..from + |items|]
    requires store.Holds(c0) && id in c0.tasks && c0.tasks[id] == Peek(realm, from, from + |items|, from, [], false)
    modifies store.uploads, store.downloads, store.hosts
    ensures Over(h, c0, id, moves, c) && store.Holds(c)
    ensures c.archive == c0.archive && CursorOnly(c0.cursor, c.cursor, realm)
    ensures var (cur, top) := (CursorOf(c0.cursor, realm), from + |items|);
            CursorOf(c.cursor, realm) == if top > cur then top else cur
    ensures c.uploads == c0.uploads - KnownOf(c0.archive, items)
    ensures c.downloads == Enqueue(c0.downloads - SkippedKeys(c0.archive, realm, from, items),
                                   NewRows(c0.archive, realm, from, items))
  {
    var t;
    t, moves, c := PeekItems(store, realm, from, items, h, c0, id);
    assert t.dls == NewRows(c0.archive, realm, from, items) && t.realm == realm && t.hi == from + |items|;
    store.downloads.Enq(t.dls);
    store.hosts.RecordSeqs(Last(from + |items|), realm);
    ghost var c1 := c;
    c := PeekEnd(h, c0, id, moves, c1, t);
    assert c.downloads == Enqueue(c1.downloads, t.dls) && c.uploads == c1.uploads;
    moves := moves + [Peeking(Enq)] + [TouchCursor];
  }
}
