// What holds along every run of the protocol, and what quiescence implies.

module SyncTheorems {
  import opened Basics
  import opened Lww
  import opened Messages
  import opened PushItems
  import opened SyncState
  import opened SyncInv
  import opened SyncSteps
  import opened SyncSafe

  ghost predicate SystemInv(s: System) {
    forall i :: 0 <= i < |s.clients| ==> ClientInv(s.host, s.clients[i])
  }

  ghost predicate SystemSafe(s: System) {
    forall i :: 0 <= i < |s.clients| ==> SafeInv(s.host, s.clients[i])
  }

  // Every full inventory of the run pulls, and none gives up half way.
  predicate ThoroughRun(states: seq<System>, events: seq<Event>) {
    forall i :: 0 <= i < |events| && i < |states| && events[i].who < |states[i].clients| ==>
      Thorough(states[i].clients[events[i].who], events[i].step)
  }

  lemma StartKeeps(n: nat)
    ensures SystemInv(Start(n)) && SystemSafe(Start(n))
  {
    var c := NewClient;
    assert OpSet({}) == {};
    assert Renders(map[], {});
    assert ClientInv(map[], c) && SafeInv(map[], c);
  }

  lemma EventKeeps(s: System, e: Event)
    requires SystemInv(s) && CanStep(s, e)
    ensures SystemInv(StepTo(s, e))
    ensures |StepTo(s, e).clients| == |s.clients|
    ensures HostGrows(s.host, StepTo(s, e).host)
    ensures forall i :: 0 <= i < |s.clients| ==>
              Later(s.host, s.clients[i], StepTo(s, e).host, StepTo(s, e).clients[i])
  {
    var s' := StepTo(s, e);
    StepKeeps(s.host, s.clients[e.who], e.step);
    forall i | 0 <= i < |s.clients| && i != e.who
      ensures ClientInv(s'.host, s'.clients[i]) && Later(s.host, s.clients[i], s'.host, s'.clients[i])
    {
      OtherClientLater(s.host, s'.host, s.clients[i]);
    }
  }

  lemma EventSafe(s: System, e: Event)
    requires SystemInv(s) && SystemSafe(s) && CanStep(s, e) && Thorough(s.clients[e.who], e.step)
    ensures SystemSafe(StepTo(s, e))
    ensures forall i :: 0 <= i < |s.clients| ==> StaysCovered(s.clients[i], StepTo(s, e).clients[i])
  {
    var s' := StepTo(s, e);
    EventKeeps(s, e);
    StepSafe(s.host, s.clients[e.who], e.step);
    forall i | 0 <= i < |s.clients| && i != e.who
      ensures SafeInv(s'.host, s'.clients[i]) && StaysCovered(s.clients[i], s'.clients[i])
    {
      OtherClientSafe(s.host, s'.host, s.clients[i]);
    }
  }

  lemma {:induction false} RunKeeps(n: nat, states: seq<System>, events: seq<Event>, i: nat)
    requires Run(n, states, events) && i < |states|
    ensures SystemInv(states[i]) && |states[i].clients| == n
    decreases i
  {
    if i == 0 {
      StartKeeps(n);
    } else {
      RunKeeps(n, states, events, i - 1);
      EventKeeps(states[i - 1], events[i - 1]);
    }
  }

  lemma {:induction false} RunSafe(n: nat, states: seq<System>, events: seq<Event>, i: nat)
    requires Run(n, states, events) && ThoroughRun(states, events) && i < |states|
    ensures SystemSafe(states[i])
    decreases i
  {
    if i == 0 {
      StartKeeps(n);
    } else {
      RunKeeps(n, states, events, i - 1);
      RunSafe(n, states, events, i - 1);
      EventSafe(states[i - 1], events[i - 1]);
    }
  }

  /* ---- What a handler leaves alone ---- */

  // No write in progress changes.
  ghost predicate WritesSame(c: Client, c': Client) {
    && c'.stranded == c.stranded
    && forall id :: id in c'.tasks && c'.tasks[id].Write? ==> id in c.tasks && c'.tasks[id] == c.tasks[id]
  }

  lemma DrainFrame(c: Client, id: nat, d: DrainMove)
    requires DrainEnabled(c, id, d)
    ensures WritesSame(c, DrainAct(c, id, d)) && DrainAct(c, id, d).uploads == c.uploads
  {
  }

  lemma PeekFrame(h: Host, c: Client, id: nat, p: PeekMove)
    requires PeekEnabled(h, c, id, p)
    ensures WritesSame(c, PeekAct(h, c, id, p))
  {
  }

  lemma PushFrame(h: Host, c: Client, id: nat, p: PushMove)
    requires PushEnabled(c, id, p)
    ensures WritesSame(c, PushAct(h, c, id, p))
  {
  }

  lemma PullFrame(c: Client, id: nat, p: PullMove)
    requires PullEnabled(c, id, p)
    ensures WritesSame(c, PullAct(c, id, p)) && PullAct(c, id, p).uploads == c.uploads
  {
  }

  lemma NotifFrame(h: Host, c: Client, id: nat, n: NotifMove)
    requires NotifEnabled(h, c, id, n)
    ensures WritesSame(c, NotifAct(h, c, id, n)) && NotifAct(h, c, id, n).uploads == c.uploads
  {
  }

  lemma ReconFrame(h: Host, c: Client, id: nat, q: ReconMove)
    requires ReconEnabled(h, c, id, q)
    ensures WritesSame(c, ReconAct(h, c, id, q))
  {
  }

  lemma WriteFrame(c: Client, id: nat, w: WriteMove)
    requires WriteEnabled(c, id, w)
    ensures c.uploads <= WriteAct(c, id, w).uploads
  {
  }

  lemma TouchFrame(h: Host, c: Client, step: Step)
    requires Enabled(h, c, step) && step.move.TouchCursor?
    ensures WritesSame(c, Act(h, c, step)) && Act(h, c, step).uploads == c.uploads
  {
  }

  /* ---- Safety along runs ---- */

  // Every bag at or below a cursor has its message archived, queued for
  // download, or held by a running handler.
  lemma NothingSkipped(n: nat, states: seq<System>, events: seq<Event>, i: nat, who: nat, r: Realm)
    requires Run(n, states, events) && ThoroughRun(states, events) && i < |states| && who < n
    ensures |states[i].clients| == n
    ensures SafeUpTo(states[i].host, states[i].clients[who], r, CursorOf(states[i].clients[who].cursor, r))
  {
    RunKeeps(n, states, events, i);
    RunSafe(n, states, events, i);
    assert SafeInv(states[i].host, states[i].clients[who]);
  }

  // Nothing that client who has in s is gone in s'.
  ghost predicate Onward(s: System, s': System, who: nat) {
    && who < |s.clients| == |s'.clients|
    && Later(s.host, s.clients[who], s'.host, s'.clients[who])
  }

  lemma OnwardTrans(s: System, s1: System, s2: System, who: nat)
    requires Onward(s, s1, who) && Onward(s1, s2, who)
    ensures Onward(s, s2, who)
  {
    LaterTrans(s.host, s.clients[who], s1.host, s1.clients[who], s2.host, s2.clients[who]);
  }

  lemma NextOnward(n: nat, states: seq<System>, events: seq<Event>, i: nat, who: nat)
    requires Run(n, states, events) && i < |events| && who < n
    ensures Onward(states[i], states[i + 1], who)
  {
    RunKeeps(n, states, events, i);
    EventKeeps(states[i], events[i]);
  }

  lemma OnwardSame(n: nat, states: seq<System>, events: seq<Event>, i: nat, who: nat)
    requires Run(n, states, events) && i < |states| && who < n
    ensures Onward(states[i], states[i], who)
  {
    RunKeeps(n, states, events, i);
    LaterSame(states[i].host, states[i].clients[who]);
  }

  lemma {:induction false} OnwardChain(states: seq<System>, i: nat, j: nat, who: nat)
    requires i <= j < |states| && Onward(states[i], states[i], who)
    requires forall k :: i <= k < j ==> Onward(states[k], states[k + 1], who)
    ensures Onward(states[i], states[j], who)
    decreases j
  {
    if i < j {
      OnwardChain(states, i, j - 1, who);
      assert Onward(states[j - 1], states[j - 1 + 1], who);
      OnwardTrans(states[i], states[j - 1], states[j], who);
    }
  }

  // What a client archived it keeps, and the host never drops or reorders.
  lemma NothingForgotten(n: nat, states: seq<System>, events: seq<Event>, i: nat, j: nat, who: nat)
    requires Run(n, states, events) && i <= j < |states| && who < n
    ensures Onward(states[i], states[j], who)
  {
    OnwardSame(n, states, events, i, who);
    forall k | i <= k < j
      ensures Onward(states[k], states[k + 1], who)
    {
      NextOnward(n, states, events, k, who);
    }
    OnwardChain(states, i, j, who);
  }

  ghost predicate CoverStays(s: System, s': System, who: nat) {
    who < |s.clients| == |s'.clients| && StaysCovered(s.clients[who], s'.clients[who])
  }

  lemma NextCovered(n: nat, states: seq<System>, events: seq<Event>, i: nat, who: nat)
    requires Run(n, states, events) && ThoroughRun(states, events) && i < |events| && who < n
    ensures CoverStays(states[i], states[i + 1], who)
  {
    RunKeeps(n, states, events, i);
    RunSafe(n, states, events, i);
    EventSafe(states[i], events[i]);
    EventKeeps(states[i], events[i]);
  }

  lemma {:induction false} CoverChain(states: seq<System>, i: nat, j: nat, who: nat)
    requires i <= j < |states| && CoverStays(states[i], states[i], who)
    requires forall k :: i <= k < j ==> CoverStays(states[k], states[k + 1], who)
    ensures CoverStays(states[i], states[j], who)
    decreases j
  {
    if i < j {
      CoverChain(states, i, j - 1, who);
      assert CoverStays(states[j - 1], states[j - 1 + 1], who);
    }
  }

  // What is once covered stays covered: no handler lets go of a message that
  // it neither archived nor queued.
  lemma NothingLetGo(n: nat, states: seq<System>, events: seq<Event>, i: nat, j: nat, who: nat)
    requires Run(n, states, events) && ThoroughRun(states, events) && i <= j < |states| && who < n
    ensures CoverStays(states[i], states[j], who)
  {
    RunKeeps(n, states, events, i);
    forall k | i <= k < j
      ensures CoverStays(states[k], states[k + 1], who)
    {
      NextCovered(n, states, events, k, who);
    }
    CoverChain(states, i, j, who);
  }

  lemma LaterSame(h: Host, c: Client)
    ensures Later(h, c, h, c)
  {
  }

  lemma LaterTrans(h: Host, c: Client, h1: Host, c1: Client, h2: Host, c2: Client)
    requires Later(h, c, h1, c1) && Later(h1, c1, h2, c2)
    ensures Later(h, c, h2, c2)
  {
    forall r
      ensures Bags(h, r) <= Bags(h2, r)
    {
      assert Bags(h, r) <= Bags(h1, r) && Bags(h1, r) <= Bags(h2, r);
    }
  }

  // An archived message is on the host, queued for upload, in a write that has
  // not finished, or one its own write never queued.
  lemma NoUploadLost(n: nat, states: seq<System>, events: seq<Event>, i: nat, who: nat, m: Msg)
    requires Run(n, states, events) && i < |states| && who < n
    ensures |states[i].clients| == n
    ensures m in states[i].clients[who].archive ==>
              || OnHost(states[i].host, m)
              || m in states[i].clients[who].uploads
              || InWrite(states[i].clients[who], m)
              || m in states[i].clients[who].stranded
  {
    RunKeeps(n, states, events, i);
    assert UploadsInv(states[i].host, states[i].clients[who]);
  }

  lemma PeekLeaves(h: Host, c: Client, id: nat, p: PeekMove, m: Msg)
    requires PeekEnabled(h, c, id, p) && m in c.uploads && m !in PeekAct(h, c, id, p).uploads
    ensures OnHost(h, m)
  {
    assert OnHostAs(h, Dl(c.tasks[id].realm, c.tasks[id].done + 1, m));
  }

  lemma PushLeaves(h: Host, c: Client, id: nat, p: PushMove, m: Msg)
    requires ClientInv(h, c) && PushEnabled(c, id, p) && m in c.uploads && m !in PushAct(h, c, id, p).uploads
    ensures OnHost(PushHost(h, p), m)
  {
    var t := c.tasks[id];
    assert TaskInv(h, c, t);
    var item := t.items[t.acked];
    if item.outcome.Ok? { assert OnHostAs(h, Dl(t.realm, item.outcome.value, t.batch[item.idx])); }
  }

  lemma ReconLeaves(h: Host, c: Client, id: nat, q: ReconMove, m: Msg)
    requires ClientInv(h, c) && ReconEnabled(h, c, id, q) && m in c.uploads && m !in ReconAct(h, c, id, q).uploads
    ensures OnHost(h, m)
  {
    var t := c.tasks[id];
    assert TaskInv(h, c, t);
    assert OnHostAs(h, Dl(t.inv[m].0, t.inv[m].1, m));
  }

  // Only a message whose bag the host holds ever leaves an upload queue, even
  // when rejected bags shift the positions in the answer.
  lemma OnlyStoredLeave(h: Host, c: Client, step: Step, m: Msg)
    requires ClientInv(h, c) && Enabled(h, c, step)
    requires m in c.uploads && m !in Act(h, c, step).uploads
    ensures OnHost(HostAfter(h, c, step), m)
  {
    match step.move
    case Peeking(p) => PeekLeaves(h, c, step.id, p, m);
    case Pushing(s) => PushLeaves(h, c, step.id, s, m);
    case Reconciling(q) => ReconLeaves(h, c, step.id, q, m);
    case Writing(w) => WriteFrame(c, step.id, w);
    case Draining(d) => DrainFrame(c, step.id, d);
    case Pulling(b) => PullFrame(c, step.id, b);
    case Notifying(n) => NotifFrame(h, c, step.id, n);
    case TouchCursor => TouchFrame(h, c, step);
  }

  lemma NoFalseDequeue(n: nat, states: seq<System>, events: seq<Event>, i: nat, who: nat, m: Msg)
    requires Run(n, states, events) && i < |events| && who < n
    ensures |states[i].clients| == n == |states[i + 1].clients|
    ensures m in states[i].clients[who].uploads && m !in states[i + 1].clients[who].uploads ==> OnHost(states[i + 1].host, m)
  {
    RunKeeps(n, states, events, i);
    RunKeeps(n, states, events, i + 1);
    if m in states[i].clients[who].uploads && m !in states[i + 1].clients[who].uploads {
      OnlyStoredLeave(states[i].host, states[i].clients[who], events[i].step, m);
    }
  }

  /* ---- Writes whose statuses line up ---- */

  predicate AlignedKick(step: Step) {
    step.move.Writing? && step.move.w.Kick? ==> FailuresLast(step.move.w.parts)
  }

  // No batch written locally has a message that parses after one that does not.
  predicate AlignedWrites(events: seq<Event>) {
    forall i :: 0 <= i < |events| ==> AlignedKick(events[i].step)
  }

  ghost predicate AlignedClient(c: Client) {
    && (forall id :: id in c.tasks && c.tasks[id].Write? ==> FailuresLast(c.tasks[id].parts))
    && (forall m :: m in c.stranded ==> !Good(m))
  }

  lemma AlignedQueue(c: Client, id: nat)
    requires AlignedClient(c) && WriteEnabled(c, id, QueueUpload)
    ensures AlignedClient(WriteAct(c, id, QueueUpload))
  {
    var parts := c.tasks[id].parts;
    AllAckedExactly(parts);
    forall m | m in parts && Good(m)
      ensures m in AckedOf(parts)
    {
      var i :| 0 <= i < |parts| && parts[i] == m;
      assert Acked(parts, i);
    }
  }

  lemma AlignedWrite(c: Client, id: nat, w: WriteMove)
    requires AlignedClient(c) && WriteEnabled(c, id, w) && (w.Kick? ==> FailuresLast(w.parts))
    ensures AlignedClient(WriteAct(c, id, w))
  {
    if w.QueueUpload? { AlignedQueue(c, id); }
  }

  lemma AlignedStep(h: Host, c: Client, step: Step)
    requires AlignedClient(c) && Enabled(h, c, step) && AlignedKick(step)
    ensures AlignedClient(Act(h, c, step))
  {
    match step.move
    case Writing(w) => AlignedWrite(c, step.id, w);
    case Draining(d) => DrainFrame(c, step.id, d);
    case Peeking(p) => PeekFrame(h, c, step.id, p);
    case Pushing(s) => PushFrame(h, c, step.id, s);
    case Pulling(b) => PullFrame(c, step.id, b);
    case Notifying(n) => NotifFrame(h, c, step.id, n);
    case Reconciling(q) => ReconFrame(h, c, step.id, q);
    case TouchCursor => TouchFrame(h, c, step);
  }

  lemma {:induction false} AlignedRun(n: nat, states: seq<System>, events: seq<Event>, i: nat)
    requires Run(n, states, events) && AlignedWrites(events) && i < |states|
    ensures forall k :: 0 <= k < |states[i].clients| ==> AlignedClient(states[i].clients[k])
    decreases i
  {
    if i > 0 {
      AlignedRun(n, states, events, i - 1);
      var s, e := states[i - 1], events[i - 1];
      AlignedStep(s.host, s.clients[e.who], e.step);
    }
  }

  /* ---- Quiescence ---- */

  // Nothing queued, nothing running, nothing pending, every cursor at the top.
  ghost predicate QuietClient(h: Host, c: Client) {
    && c.tasks == map[] && c.uploads == {} && c.downloads == map[]
    && (forall m :: m in c.archive ==> c.archive[m].apld != Pending)
    && (forall r :: CursorOf(c.cursor, r) == |Bags(h, r)|)
  }

  ghost predicate Quiescent(s: System) {
    forall i :: 0 <= i < |s.clients| ==> QuietClient(s.host, s.clients[i])
  }

  ghost function HostMsgs(h: Host): set<Msg> { set r, m | r in h && m in h[r] :: m }

  lemma QuietArchive(h: Host, c: Client)
    requires ClientInv(h, c) && SafeInv(h, c) && QuietClient(h, c)
    ensures c.archive.Keys == HostMsgs(h) + c.stranded
    ensures c.execd == GoodSet(HostMsgs(h) + c.stranded)
  {
    forall m | m in HostMsgs(h)
      ensures m in c.archive
    {
      var r :| r in h && m in h[r];
      var q :| 0 <= q < |h[r]| && h[r][q] == m;
      assert SafeUpTo(h, c, r, CursorOf(c.cursor, r));
      assert Covered(c, Bags(h, r)[q]);
    }
    forall m | m in c.archive
      ensures m in HostMsgs(h) + c.stranded
    {
      if OnHost(h, m) {
        var d :| OnHostAs(h, d) && d.msg == m;
        assert d.realm in h && m in h[d.realm];
      }
    }
  }

  ghost function GoodSet(msgs: set<Msg>): set<Msg> { set m | m in msgs && Good(m) }

  // With nothing outstanding, a client's archive is exactly the host's
  // messages and those its own writes never queued; so two archives agree
  // exactly when these leftovers agree.
  lemma QuiescentArchives(n: nat, states: seq<System>, events: seq<Event>, i: nat, a: nat, b: nat)
    requires Run(n, states, events) && ThoroughRun(states, events) && i < |states| && a < n && b < n
    requires Quiescent(states[i])
    ensures |states[i].clients| == n
    ensures var (h, ca, cb) := (states[i].host, states[i].clients[a], states[i].clients[b]);
            && ca.archive.Keys == HostMsgs(h) + ca.stranded
            && (ca.archive.Keys == cb.archive.Keys <==> ca.stranded - HostMsgs(h) == cb.stranded - HostMsgs(h))
  {
    RunKeeps(n, states, events, i);
    RunSafe(n, states, events, i);
    QuietArchive(states[i].host, states[i].clients[a]);
    QuietArchive(states[i].host, states[i].clients[b]);
    var (h, ca, cb) := (states[i].host, states[i].clients[a], states[i].clients[b]);
    if ca.archive.Keys == cb.archive.Keys {
      assert ca.stranded - HostMsgs(h) == ca.archive.Keys - HostMsgs(h);
    } else {
      assert HostMsgs(h) + (ca.stranded - HostMsgs(h)) == ca.archive.Keys;
    }
  }

  // Convergence. With nothing outstanding every client has applied exactly the
  // host's messages that parse; if the newest of them write one row for each
  // eid, all clients hold the same rows, tombstones included. If every message
  // parses they also hold the same archive.
  lemma Convergence(n: nat, states: seq<System>, events: seq<Event>, i: nat, a: nat, b: nat)
    requires Run(n, states, events) && ThoroughRun(states, events) && AlignedWrites(events)
    requires i < |states| && a < n && b < n && Quiescent(states[i])
    ensures |states[i].clients| == n
    ensures var (h, ca, cb) := (states[i].host, states[i].clients[a], states[i].clients[b]);
            && GoodSet(ca.archive.Keys) == GoodSet(HostMsgs(h)) == GoodSet(cb.archive.Keys)
            && (NewestAgree(OpSet(HostMsgs(h))) ==> ca.ents == cb.ents)
            && ((forall m :: m in ca.archive.Keys + cb.archive.Keys ==> Good(m)) ==> ca.archive.Keys == cb.archive.Keys)
  {
    RunKeeps(n, states, events, i);
    RunSafe(n, states, events, i);
    AlignedRun(n, states, events, i);
    QuietAgree(states[i].host, states[i].clients[a], states[i].clients[b]);
  }

  ghost predicate QuietAligned(h: Host, c: Client) {
    ClientInv(h, c) && SafeInv(h, c) && QuietClient(h, c) && AlignedClient(c)
  }

  lemma QuietGood(h: Host, c: Client)
    requires QuietAligned(h, c)
    ensures GoodSet(c.archive.Keys) == GoodSet(HostMsgs(h))
  {
    QuietArchive(h, c);
  }

  lemma QuietAgree(h: Host, ca: Client, cb: Client)
    requires QuietAligned(h, ca) && QuietAligned(h, cb)
    ensures GoodSet(ca.archive.Keys) == GoodSet(HostMsgs(h)) == GoodSet(cb.archive.Keys)
    ensures NewestAgree(OpSet(HostMsgs(h))) ==> ca.ents == cb.ents
    ensures (forall m :: m in ca.archive.Keys + cb.archive.Keys ==> Good(m)) ==> ca.archive.Keys == cb.archive.Keys
  {
    QuietGood(h, ca);
    QuietGood(h, cb);
    QuietRows(h, ca);
    QuietRows(h, cb);
    if NewestAgree(OpSet(HostMsgs(h))) { RendersUnique(ca.ents, cb.ents, OpSet(HostMsgs(h))); }
    AllGood(ca.archive.Keys, cb.archive.Keys);
  }

  lemma AllGood(a: set<Msg>, b: set<Msg>)
    requires GoodSet(a) == GoodSet(b)
    ensures (forall m :: m in a + b ==> Good(m)) ==> a == b
  {
    if forall m :: m in a + b ==> Good(m) { assert GoodSet(a) == a && GoodSet(b) == b; }
  }

  // In particular when no two of them share eid and update time.
  lemma DistinctAgree(ops: set<Op>)
    requires DistinctStamps(ops)
    ensures NewestAgree(ops)
  {
    forall a, b | a in ops && b in ops && Parses(a) && Parses(b) && a.eid == b.eid
                  && Newest(a, RowOf(a), ops) && Newest(b, RowOf(b), ops)
      ensures RowOf(a) == RowOf(b)
    {
      assert Stamp(a) == Stamp(b);
    }
  }

  // A quiet client's rows render the host's messages.
  lemma QuietRows(h: Host, c: Client)
    requires ClientInv(h, c) && SafeInv(h, c) && QuietClient(h, c) && AlignedClient(c)
    ensures Renders(c.ents, OpSet(HostMsgs(h)))
  {
    QuietArchive(h, c);
    assert OpSet(c.execd) == OpSet(HostMsgs(h)) by {
      assert GoodSet(HostMsgs(h) + c.stranded) == GoodSet(HostMsgs(h));
      forall o | o in OpSet(HostMsgs(h))
        ensures o in OpSet(c.execd)
      {
        var m :| m in HostMsgs(h) && Good(m) && MsgToOp(m).value == o;
        assert m in c.execd;
      }
      forall o | o in OpSet(c.execd)
        ensures o in OpSet(HostMsgs(h))
      {
        var m :| m in c.execd && Good(m) && MsgToOp(m).value == o;
        assert m in HostMsgs(h);
      }
    }
  }

  // This message is one of the host's that parse, with this eid, and none of
  // them is newer.
  ghost predicate NewestOf(h: Host, e: Eid, m: Msg) {
    && m in HostMsgs(h) && m.eid == e && e.time.At? && !m.body.BadBody?
    && forall o :: o in HostMsgs(h) && o.eid == e && !o.body.BadBody? ==> o.off <= m.off
  }

  lemma OpOfMsg(h: Host, m: Msg)
    requires m in HostMsgs(h) && !m.body.BadBody?
    ensures MsgToOp(m).Ok? && MsgToOp(m).value in OpSet(HostMsgs(h)) && Carries(MsgToOp(m).value, m)
  {
    OpCarries(m);
    assert Good(m);
  }

  lemma MsgOfOp(h: Host, op: Op) returns (m: Msg)
    requires op in OpSet(HostMsgs(h))
    ensures m in HostMsgs(h) && !m.body.BadBody? && Carries(op, m)
  {
    m :| m in HostMsgs(h) && Good(m) && MsgToOp(m).value == op;
    OpCarries(m);
  }

  // Each row of a quiet client is a newest message of the host: dead exactly
  // when that message is a delete, live with its fields otherwise. Every eid
  // that parses and that a message that parses names has a row.
  lemma QuietRowShows(h: Host, c: Client, e: Eid) returns (m: Msg, op: Op)
    requires QuietAligned(h, c) && e in c.ents
    ensures NewestOf(h, e, m) && Carries(op, m) && Shows(c.ents[e], op)
    ensures c.ents[e].Tomb? <==> m.body.NoBody?
  {
    QuietRows(h, c);
    op := RenderedShows(c.ents, OpSet(HostMsgs(h)), e);
    m := MsgOfOp(h, op);
    forall o | o in HostMsgs(h) && o.eid == e && !o.body.BadBody?
      ensures o.off <= m.off
    {
      OpOfMsg(h, o);
      assert Stamp(MsgToOp(o).value) <= Stamp(op);
    }
  }

  lemma QuietRowThere(h: Host, c: Client, m: Msg)
    requires QuietAligned(h, c) && m in HostMsgs(h) && !m.body.BadBody? && m.eid.time.At?
    ensures m.eid in c.ents
  {
    QuietRows(h, c);
    OpOfMsg(h, m);
  }

  // After any such run a client with nothing outstanding has a row for an eid
  // exactly when some message of the host names it and parses, and the row
  // shows a newest one: dead exactly if it is a delete.
  lemma RowsShowNewest(n: nat, states: seq<System>, events: seq<Event>, i: nat, who: nat, e: Eid)
    requires Run(n, states, events) && ThoroughRun(states, events) && AlignedWrites(events)
    requires i < |states| && who < n && Quiescent(states[i])
    ensures |states[i].clients| == n
    ensures var (h, c) := (states[i].host, states[i].clients[who]);
            && (e in c.ents <==> exists m :: NewestOf(h, e, m))
            && (e in c.ents ==> exists m, op ::
                  NewestOf(h, e, m) && Carries(op, m) && Shows(c.ents[e], op) && (c.ents[e].Tomb? <==> m.body.NoBody?))
  {
    RunKeeps(n, states, events, i);
    RunSafe(n, states, events, i);
    AlignedRun(n, states, events, i);
    var (h, c) := (states[i].host, states[i].clients[who]);
    if e in c.ents {
      var m, op := QuietRowShows(h, c, e);
    }
    if m :| NewestOf(h, e, m) { QuietRowThere(h, c, m); }
  }
}
