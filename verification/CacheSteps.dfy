// Every step of the cache keeps its invariant.

module CacheSteps {
  import opened Basics
  import opened Lww
  import opened CacheState
  import opened CacheInv

  ghost predicate Kept(u: Counters, c: Cache, c': Cache) { Inv(u, c') && Later(c, c') }

  /* ---- Stores under ops ---- */

  lemma {:induction false} FirstIn(ops: seq<Op>, e: Eid, t: int)
    ensures FirstAt(ops, e, t).Some? <==> exists i :: 0 <= i < |ops| && ops[i].eid == e && Parses(ops[i]) && Stamp(ops[i]) == t
    decreases |ops|
  {
    if ops != [] {
      var init, last := ops[..|ops| - 1], ops[|ops| - 1];
      FirstIn(init, e, t);
      if i :| 0 <= i < |init| && init[i].eid == e && Parses(init[i]) && Stamp(init[i]) == t { assert ops[i].eid == e; }
      if i :| 0 <= i < |ops| && ops[i].eid == e && Parses(ops[i]) && Stamp(ops[i]) == t {
        if i < |init| { assert init[i].eid == e; }
      }
    }
  }

  lemma {:induction false} FirstConcat(a: seq<Op>, b: seq<Op>, e: Eid, t: int)
    ensures FirstAt(a + b, e, t) == if FirstAt(a, e, t).Some? then FirstAt(a, e, t) else FirstAt(b, e, t)
    decreases |b|
  {
    if b == [] {
      assert a + b == a;
    } else {
      assert (a + b)[..|a + b| - 1] == a + b[..|b| - 1];
      FirstConcat(a, b[..|b| - 1], e, t);
    }
  }

  // A store only moves forward under ops, and every op is covered. A row that
  // changed is that of the first op with its update time.
  lemma {:induction false} ApplyAllMoves(s: Store, ops: seq<Op>)
    ensures Advances(s, ApplyAll(s, ops)) && Grows(s, ApplyAll(s, ops))
    ensures forall i :: 0 <= i < |ops| && Parses(ops[i]) ==>
              ops[i].eid in ApplyAll(s, ops) && Stamp(ops[i]) <= ApplyAll(s, ops)[ops[i].eid].updatedAt
    ensures forall e :: e in ApplyAll(s, ops) && Find(s, e) != Some(ApplyAll(s, ops)[e]) ==>
              FirstAt(ops, e, ApplyAll(s, ops)[e].updatedAt) == Some(ApplyAll(s, ops)[e])
    decreases |ops|
  {
    if ops != [] {
      var init, last := ops[..|ops| - 1], ops[|ops| - 1];
      ApplyAllMoves(s, init);
      var s1, s2 := ApplyAll(s, init), ApplyAll(s, ops);
      forall e
        ensures Precedes(Find(s1, e), Find(s2, e))
      {
      }
      forall i | 0 <= i < |ops| && Parses(ops[i])
        ensures ops[i].eid in s2 && Stamp(ops[i]) <= s2[ops[i].eid].updatedAt
      {
        if i < |init| { assert init[i] == ops[i]; }
      }
      forall e | e in s2 && Find(s, e) != Some(s2[e])
        ensures FirstAt(ops, e, s2[e].updatedAt) == Some(s2[e])
      {
        if Find(s1, e) != Some(s2[e]) { FirstIn(init, e, s2[e].updatedAt); }
      }
    }
  }

  // The row that an op wrote is that op's.
  lemma {:induction false} FirstWrites(ops: seq<Op>, e: Eid, t: int, row: Row)
    requires FirstAt(ops, e, t) == Some(row)
    ensures exists i :: 0 <= i < |ops| && Parses(ops[i]) && ops[i].eid == e && RowOf(ops[i]) == row
    decreases |ops|
  {
    var init, last := ops[..|ops| - 1], ops[|ops| - 1];
    if FirstAt(init, e, t).Some? {
      FirstWrites(init, e, t, row);
      var i :| 0 <= i < |init| && Parses(init[i]) && init[i].eid == e && RowOf(init[i]) == row;
      assert RowOf(ops[i]) == row;
    } else {
      assert RowOf(last) == row;
    }
  }

  // Every row is one of before, or an op's.
  lemma ApplyAllFacts(u: Counters, s: Store, ops: seq<Op>)
    requires StoreOk(u, s) && forall op :: op in ops ==> OpOk(u, op)
    ensures StoreOk(u, ApplyAll(s, ops)) && Grows(s, ApplyAll(s, ops)) && Advances(s, ApplyAll(s, ops))
    ensures forall op :: op in ops && Parses(op) ==>
              op.eid in ApplyAll(s, ops) && Stamp(op) <= ApplyAll(s, ops)[op.eid].updatedAt
    ensures forall e :: e in ApplyAll(s, ops) && Find(s, e) != Some(ApplyAll(s, ops)[e]) ==>
              exists i :: 0 <= i < |ops| && Parses(ops[i]) && RowOf(ops[i]) == ApplyAll(s, ops)[e]
  {
    var s' := ApplyAll(s, ops);
    ApplyAllMoves(s, ops);
    forall e | e in s'
      ensures Known(u, e, s'[e])
      ensures Find(s, e) != Some(s'[e]) ==> exists i :: 0 <= i < |ops| && Parses(ops[i]) && RowOf(ops[i]) == s'[e]
    {
      if Find(s, e) != Some(s'[e]) {
        FirstWrites(ops, e, s'[e].updatedAt, s'[e]);
        var i :| 0 <= i < |ops| && Parses(ops[i]) && ops[i].eid == e && RowOf(ops[i]) == s'[e];
        assert OpOk(u, ops[i]);
      }
    }
  }

  // An op no newer than the row it meets is rejected.
  lemma {:induction false} OldRejected(s: Store, ops: seq<Op>, i: nat)
    requires i < |ops| && Parses(ops[i]) ==> ops[i].eid in s && Stamp(ops[i]) <= s[ops[i].eid].updatedAt
    ensures i < |ops| ==> Statuses(s, ops)[i] != Success
    decreases |ops|
  {
    if i < |ops| {
      var init := ops[..|ops| - 1];
      ApplyAllMoves(s, init);
      if i < |init| {
        OldRejected(s, init, i);
      } else if Parses(ops[i]) {
        assert NotNewer(Find(s, ops[i].eid), Find(ApplyAll(s, init), ops[i].eid));
      }
    }
  }

  /* ---- Parts of the invariant under a step ---- */

  // Jobs that stay where they are, and the reads, ask only for Later.
  lemma ChainLater(u: Counters, c: Cache, c': Cache)
    requires ChainInv(u, c) && Later(c, c') && |c.chain| <= |c'.chain|
    requires forall j: nat :: j < |c.chain| ==> c'.chain[j] == c.chain[j]
    ensures forall j: nat :: j < |c.chain| ==> JobInv(u, c', j)
  {
    forall j: nat | j < |c.chain|
      ensures JobInv(u, c', j)
    {
      assert JobInv(u, c, j);
      JobLater(u, c, j, c', j);
    }
  }

  lemma ReadLater(u: Counters, c: Cache, c': Cache, r: Read)
    requires Later(c, c') && ReadInv(u, c, r)
    ensures ReadInv(u, c', r)
  {
    match r
    case RowGot(e, row) => GotLater(u, c, c', e, row);
    case ListGot(typ, rows) =>
      forall e | e in rows
        ensures GotOk(u, c', e, Some(rows[e]))
      {
        GotLater(u, c, c', e, Some(rows[e]));
      }
      forall e | e in LiveOf(c'.durable, typ)
        ensures e in rows || e in c'.mem || PeerOwed(c', e)
      {
        LiveLater(c, c', typ, e);
      }
    case _ =>
  }

  // A live durable row is what it was, or is owing.
  lemma LiveLater(c: Cache, c': Cache, typ: string, e: Eid)
    requires Later(c, c') && e in LiveOf(c'.durable, typ)
    ensures e in LiveOf(c.durable, typ) || e in c'.mem || PeerOwed(c', e)
    ensures e in c.mem ==> e in c'.mem
    ensures PeerOwed(c, e) ==> e in c'.mem || PeerOwed(c', e)
  {
    assert NotNewer(Find(c.mem, e), Find(c'.mem, e));
    if Find(c.durable, e) != Find(c'.durable, e) { assert Owing(c', e); }
    if PeerOwed(c, e) { assert Owing(c', e); }
  }

  lemma ReadsLater(u: Counters, c: Cache, c': Cache)
    requires ReadsInv(u, c) && Later(c, c') && forall id :: id in c'.reading ==> id in c.reading && c'.reading[id] == c.reading[id]
    ensures ReadsInv(u, c')
  {
    forall id | id in c'.reading
      ensures ReadInv(u, c', c'.reading[id])
    {
      ReadLater(u, c, c', c.reading[id]);
    }
  }

  lemma LoadedLater(c: Cache, c': Cache)
    requires LoadedInv(c) && Later(c, c') && c'.loaded == c.loaded
    ensures LoadedInv(c')
  {
    forall typ, e | typ in c'.loaded && e in LiveOf(c'.durable, typ)
      ensures e in c'.mem || PeerOwed(c', e)
    {
      LiveLater(c, c', typ, e);
    }
  }

  // What is owed stays owed when jobs and the peer's debts stay.
  lemma OwingKept(c: Cache, c': Cache, e: Eid)
    requires Owing(c, e)
    requires Settled(c, e) ==> Settled(c', e)
    requires e in c.owed ==> PeerOwed(c', e)
    requires forall j: nat :: OwesPull(c, j, e) ==> Owing(c', e)
    ensures Owing(c', e)
  {
    if !Settled(c, e) && e !in c.owed {
      var j: nat :| OwesPull(c, j, e);
    }
  }

  /* ---- Local apply ---- */

  // Jobs that stay keep what they owe at eids whose rows stay.
  lemma OwingStays(c: Cache, c': Cache, e: Eid)
    requires Owing(c, e) && c.chain <= c'.chain
    requires Find(c'.durable, e) == Find(c.durable, e) && (Settled(c, e) ==> Settled(c', e))
    requires e in c.owed ==> PeerOwed(c', e)
    ensures Owing(c', e)
  {
    forall j: nat | OwesPull(c, j, e)
      ensures Owing(c', e)
    {
      assert OwesPull(c', j, e);
    }
    OwingKept(c, c', e);
  }

  lemma {:induction false} QueuedConcat(a: seq<Job>, b: seq<Job>)
    ensures Queued(a + b) == Queued(a) + Queued(b)
    decreases |b|
  {
    if b == [] {
      assert a + b == a;
    } else {
      assert (a + b)[..|a + b| - 1] == a + b[..|b| - 1];
      QueuedConcat(a, b[..|b| - 1]);
    }
  }

  lemma QueuedHead(job: Job, rest: seq<Job>)
    ensures Queued([job] + rest) == OpsIn(job) + Queued(rest)
  {
    QueuedConcat([job], rest);
    assert [job][..0] == [] && [] + OpsIn(job) == OpsIn(job);
  }

  lemma {:induction false} QueuedFrom(chain: seq<Job>, i: nat) returns (j: nat)
    requires i < |Queued(chain)|
    ensures j < |chain| && chain[j].Persist? && Queued(chain)[i] in chain[j].ops
    decreases |chain|
  {
    var init := chain[..|chain| - 1];
    if i < |Queued(init)| { j := QueuedFrom(init, i); } else { j := |init|; }
  }

  // Everything queued is no newer than what mem shows.
  lemma QueuedSeen(u: Counters, c: Cache, e: Eid, t: int)
    requires ChainInv(u, c) && c.optimistic && FirstAt(Queued(c.chain), e, t).Some?
    ensures e in c.mem && t <= c.mem[e].updatedAt
  {
    FirstIn(Queued(c.chain), e, t);
    var ops := Queued(c.chain);
    var i :| 0 <= i < |ops| && ops[i].eid == e && Parses(ops[i]) && Stamp(ops[i]) == t;
    var j := QueuedFrom(c.chain, i);
    assert JobInv(u, c, j);
    assert Seen(c, ops[i], c.chain[j].snap.value);
  }

  lemma AheadStays(c: Cache, c': Cache, e: Eid)
    requires AheadInv(c) && c.chain <= c'.chain && Ahead(c', e)
    requires Find(c'.durable, e) == Find(c.durable, e) && Find(c'.mem, e) == Find(c.mem, e)
    ensures QueuedFirst(c', e)
  {
    assert Ahead(c, e);
    StaysFirst(c, c', e);
  }

  lemma StaysFirst(c: Cache, c': Cache, e: Eid)
    requires QueuedFirst(c, e) && c.chain <= c'.chain && Find(c'.mem, e) == Find(c.mem, e)
    ensures QueuedFirst(c', e)
  {
    var more := c'.chain[|c.chain|..];
    assert c'.chain == c.chain + more;
    QueuedConcat(c.chain, more);
    FirstConcat(Queued(c.chain), Queued(more), e, c.mem[e].updatedAt);
  }

  lemma BehindStays(c: Cache, c': Cache, e: Eid)
    requires BehindInv(c) && c.chain <= c'.chain && e in c'.mem
    requires Owing(c, e) ==> Owing(c', e)
    requires Find(c'.durable, e) == Find(c.durable, e) && Find(c'.mem, e) == Find(c.mem, e)
    ensures Owing(c', e) || LocalOwed(c', e)
  {
    if !Owing(c, e) {
      var j: nat :| OwesLocal(c, j, e);
      assert OwesLocal(c', j, e);
    }
  }

  lemma ApplyLater(u: Counters, c: Cache, ops: seq<Op>)
    requires Inv(u, c) && c.optimistic && forall op :: op in ops ==> OpOk(u, op)
    ensures Later(c, ApplyStep(c, ops))
  {
    var c' := ApplyStep(c, ops);
    ApplyAllFacts(u, c.mem, ops);
    forall e | Owing(c, e)
      ensures Owing(c', e)
    {
      OwingStays(c, c', e);
    }
  }

  lemma ApplySeen(u: Counters, c: Cache, ops: seq<Op>)
    requires StoreOk(u, c.mem) && c.optimistic && forall op :: op in ops ==> OpOk(u, op)
    ensures JobInv(u, ApplyStep(c, ops), |c.chain|)
  {
    var c' := ApplyStep(c, ops);
    ApplyAllFacts(u, c.mem, ops);
    forall op | op in ops
      ensures Seen(c', op, SnapOf(c'.mem, ops))
    {
      EidIn(ops, op);
    }
  }

  // A row that an apply changed is that of the first queued op of its time.
  lemma ChangedFirst(u: Counters, c: Cache, ops: seq<Op>, e: Eid)
    requires Inv(u, c) && c.optimistic
    requires e in ApplyAll(c.mem, ops) && Find(c.mem, e) != Some(ApplyAll(c.mem, ops)[e])
    ensures QueuedFirst(ApplyStep(c, ops), e)
  {
    var c' := ApplyStep(c, ops);
    var (job, t) := (c'.chain[|c.chain|], c'.mem[e].updatedAt);
    ApplyAllMoves(c.mem, ops);
    assert Precedes(Find(c.mem, e), Find(c'.mem, e));
    QueuedConcat(c.chain, [job]);
    QueuedHead(job, []);
    assert [job] + [] == [job] && Queued([]) == [] && ops + [] == ops;
    FirstConcat(Queued(c.chain), ops, e, t);
    if FirstAt(Queued(c.chain), e, t).Some? { QueuedSeen(u, c, e, t); }
  }

  lemma ApplyOptimistic(u: Counters, c: Cache, ops: seq<Op>)
    requires Inv(u, c) && c.optimistic && forall op :: op in ops ==> OpOk(u, op)
    ensures Kept(u, c, ApplyStep(c, ops))
  {
    var c' := ApplyStep(c, ops);
    var n := |c.chain|;
    ApplyLater(u, c, ops);
    ApplySeen(u, c, ops);
    ChainLater(u, c, c');
    ReadsLater(u, c, c');
    LoadedLater(c, c');
    ApplyAllFacts(u, c.mem, ops);
    forall e | Ahead(c', e)
      ensures QueuedFirst(c', e)
    {
      if Find(c.mem, e) == Some(c'.mem[e]) {
        AheadStays(c, c', e);
      } else {
        ChangedFirst(u, c, ops, e);
      }
    }
    forall e | e in c'.mem
      ensures Owing(c', e) || LocalOwed(c', e)
    {
      if e in Eids(ops) {
        assert OwesLocal(c', n, e);
      } else {
        ApplyElsewhere(c.mem, ops, e);
        BehindStays(c, c', e);
      }
    }
  }

  lemma EidIn(ops: seq<Op>, op: Op)
    requires op in ops
    ensures op.eid in Eids(ops)
  {
    var i :| 0 <= i < |ops| && ops[i] == op;
    assert Eids(ops)[i] == op.eid;
  }

  lemma {:induction false} ApplyElsewhere(s: Store, ops: seq<Op>, e: Eid)
    requires e !in Eids(ops)
    ensures Find(ApplyAll(s, ops), e) == Find(s, e)
    decreases |ops|
  {
    if ops != [] {
      var init := ops[..|ops| - 1];
      assert Eids(init) == Eids(ops)[..|init|];
      assert Eids(ops)[|init|] in Eids(ops);
      ApplyElsewhere(s, init, e);
    }
  }

  // A step that only appends a job, changing neither store.
  lemma Append(u: Counters, c: Cache, c': Cache, job: Job)
    requires Inv(u, c) && c' == c.(chain := c.chain + [job], owed := c'.owed)
    requires JobInv(u, c', |c.chain|) && (job.Pull? ==> job.got.None?)
    requires forall e :: e in c.owed ==> PeerOwed(c', e)
    ensures Kept(u, c, c')
  {
    forall e | Owing(c, e)
      ensures Owing(c', e)
    {
      OwingStays(c, c', e);
    }
    ChainLater(u, c, c');
    ReadsLater(u, c, c');
    LoadedLater(c, c');
    forall e | Ahead(c', e)
      ensures QueuedFirst(c', e)
    {
      AheadStays(c, c', e);
    }
    forall e | e in c'.mem
      ensures Owing(c', e) || LocalOwed(c', e)
    {
      BehindStays(c, c', e);
    }
  }

  lemma ApplyPlain(u: Counters, c: Cache, ops: seq<Op>)
    requires Inv(u, c) && !c.optimistic && forall op :: op in ops ==> OpOk(u, op)
    ensures Kept(u, c, ApplyStep(c, ops))
  {
    Append(u, c, ApplyStep(c, ops), Persist(ops, None));
  }

  lemma IngestStep(u: Counters, c: Cache, eids: seq<Eid>)
    requires Inv(u, c) && forall e :: e in eids ==> e in c.durable || e.time.Bad?
    ensures Kept(u, c, Act(c, Ingest(eids)))
  {
    var c' := Act(c, Ingest(eids));
    forall e | e in c.owed
      ensures PeerOwed(c', e)
    {
      if e in eids { assert OwesPull(c', |c.chain|, e); }
    }
    Append(u, c, c', Pull(Distinct(eids), None, None));
  }

  /* ---- Reads off the chain ---- */

  // A step that leaves the chain, the durable store and the debts alone.
  lemma OffChain(u: Counters, c: Cache, c': Cache)
    requires Inv(u, c) && StoreOk(u, c'.mem) && Advances(c.mem, c'.mem)
    requires c'.chain == c.chain && c'.durable == c.durable && c'.owed == c.owed && c'.optimistic == c.optimistic
    requires forall e :: e in c'.mem && Find(c.mem, e) != Some(c'.mem[e]) ==>
               NotNewer(Some(c'.mem[e]), Find(c.durable, e)) && Owing(c', e)
    requires forall id :: id in c'.reading && !(id in c.reading && c'.reading[id] == c.reading[id]) ==> ReadInv(u, c', c'.reading[id])
    requires LoadedInv(c')
    ensures Kept(u, c, c')
  {
    forall e
      ensures NotNewer(Find(c.mem, e), Find(c'.mem, e))
      ensures Owing(c, e) ==> Owing(c', e)
    {
      assert Precedes(Find(c.mem, e), Find(c'.mem, e));
      if Owing(c, e) { OwingStays(c, c', e); }
    }
    ChainLater(u, c, c');
    forall id | id in c'.reading
      ensures ReadInv(u, c', c'.reading[id])
    {
      if id in c.reading && c'.reading[id] == c.reading[id] { ReadLater(u, c, c', c.reading[id]); }
    }
    forall e | Ahead(c', e)
      ensures QueuedFirst(c', e)
    {
      AheadStays(c, c', e);
    }
    forall e | e in c'.mem
      ensures Owing(c', e) || LocalOwed(c', e)
    {
      if Find(c.mem, e) == Some(c'.mem[e]) { BehindStays(c, c', e); }
    }
  }

  lemma AskSteps(u: Counters, c: Cache, step: Step)
    requires Inv(u, c) && CanStep(c, step) && (step.AskRow? || step.AskList?)
    ensures Kept(u, c, Act(c, step))
  {
    InstallLoaded(c, Act(c, step));
    OffChain(u, c, Act(c, step));
  }

  lemma FetchedOk(u: Counters, c: Cache, c': Cache, r: Read)
    requires StoreOk(u, c.durable) && c'.durable == c.durable
    requires match r
             case RowGot(e, row) => row == Find(c.durable, e)
             case ListGot(typ, rows) => rows == LiveOf(c.durable, typ)
             case _ => false
    ensures ReadInv(u, c', r)
  {
  }

  lemma Fetched(u: Counters, c: Cache, id: nat)
    requires Inv(u, c) && CanStep(c, Fetch(id))
    ensures Kept(u, c, FetchStep(c, id))
  {
    var c' := FetchStep(c, id);
    FetchedOk(u, c, c', c'.reading[id]);
    InstallLoaded(c, c');
    OffChain(u, c, c');
  }

  // Installing rows read earlier: each is still the durable one, or owed.
  lemma InstallFacts(u: Counters, c: Cache, rows: Store, c': Cache)
    requires StoreOk(u, c.mem) && StoreOk(u, c.durable) && forall e :: e in rows ==> GotOk(u, c, e, Some(rows[e]))
    requires c'.mem == Install(c.mem, rows) && c'.chain == c.chain && c'.durable == c.durable && c'.owed == c.owed
    ensures StoreOk(u, c'.mem) && Advances(c.mem, c'.mem) && c.mem.Keys + rows.Keys == c'.mem.Keys
    ensures forall e :: e in c'.mem && Find(c.mem, e) != Some(c'.mem[e]) ==>
              NotNewer(Some(c'.mem[e]), Find(c.durable, e)) && Owing(c', e)
  {
    forall e | e in c'.mem && Find(c.mem, e) != Some(c'.mem[e])
      ensures NotNewer(Some(c'.mem[e]), Find(c.durable, e)) && Owing(c', e)
    {
      assert e in rows && c'.mem[e] == rows[e];
      if Some(rows[e]) != Find(c.durable, e) { OwingStays(c, c', e); }
    }
  }

  lemma Installed(u: Counters, c: Cache, id: nat)
    requires Inv(u, c) && CanStep(c, Merge(id))
    ensures Kept(u, c, InstallStep(c, id))
  {
    var c' := InstallStep(c, id);
    assert ReadInv(u, c, c.reading[id]);
    match c.reading[id]
    case RowGot(e, row) =>
      if row.Some? { InstallFacts(u, c, map[e := row.value], c'); }
      InstallLoaded(c, c');
      OffChain(u, c, c');
    case ListGot(typ, rows) =>
      InstallFacts(u, c, rows, c');
      InstallLoaded(c, c');
      OffChain(u, c, c');
  }

  lemma InstallLoaded(c: Cache, c': Cache)
    requires LoadedInv(c) && c.mem.Keys <= c'.mem.Keys && c'.chain == c.chain && c'.durable == c.durable && c'.owed == c.owed
    requires forall typ, e :: typ in c'.loaded - c.loaded && e in LiveOf(c.durable, typ) ==> e in c'.mem || PeerOwed(c, e)
    ensures LoadedInv(c')
  {
    forall e | PeerOwed(c, e)
      ensures PeerOwed(c', e)
    {
      if e !in c.owed {
        var j: nat :| OwesPull(c, j, e);
        assert OwesPull(c', j, e);
      }
    }
    forall typ, e | typ in c'.loaded && e in LiveOf(c'.durable, typ)
      ensures e in c'.mem || PeerOwed(c', e)
    {
      assert e in LiveOf(c.durable, typ);
    }
  }

  /* ---- The peer writes ---- */

  lemma {:induction false} ChangedCovers(s: Store, ops: seq<Op>, e: Eid)
    requires Find(ApplyAll(s, ops), e) != Find(s, e)
    ensures e in Changed(s, ops)
    decreases |ops|
  {
    var init := ops[..|ops| - 1];
    if Find(ApplyAll(s, init), e) != Find(s, e) { ChangedCovers(s, init, e); }
  }

  lemma PeerLater(u: Counters, c: Cache, ops: seq<Op>)
    requires Inv(u, c) && forall op :: op in ops ==> OpOk(u, op)
    ensures Later(c, Act(c, PeerWrite(ops)))
  {
    var c' := Act(c, PeerWrite(ops));
    ApplyAllFacts(u, c.durable, ops);
    forall e | Find(c.durable, e) != Find(c'.durable, e)
      ensures PeerOwed(c', e)
    {
      ChangedCovers(c.durable, ops, e);
    }
    forall e | Owing(c, e)
      ensures Owing(c', e)
    {
      if Find(c.durable, e) == Find(c'.durable, e) { OwingStays(c, c', e); }
    }
  }

  lemma PeerWrites(u: Counters, c: Cache, ops: seq<Op>)
    requires Inv(u, c) && forall op :: op in ops ==> OpOk(u, op)
    ensures Kept(u, c, Act(c, PeerWrite(ops)))
  {
    var c' := Act(c, PeerWrite(ops));
    PeerLater(u, c, ops);
    ApplyAllFacts(u, c.durable, ops);
    ChainLater(u, c, c');
    ReadsLater(u, c, c');
    LoadedLater(c, c');
    forall e | Ahead(c', e)
      ensures QueuedFirst(c', e)
    {
      assert NotNewer(Find(c.durable, e), Find(c'.durable, e));
      assert Ahead(c, e);
    }
    forall e | e in c'.mem
      ensures Owing(c', e) || LocalOwed(c', e)
    {
      if Find(c.durable, e) == Find(c'.durable, e) { BehindStays(c, c', e); }
    }
  }

  /* ---- The head of the chain ---- */

  // Only the head job changed.
  predicate SameTail(c: Cache, c': Cache) {
    |c.chain| > 0 && |c'.chain| == |c.chain| && forall j: nat :: 0 < j < |c.chain| ==> c'.chain[j] == c.chain[j]
  }

  lemma TailLater(u: Counters, c: Cache, c': Cache)
    requires ChainInv(u, c) && Later(c, c') && SameTail(c, c') && JobInv(u, c', 0)
    ensures ChainInv(u, c')
  {
    forall j: nat | j < |c'.chain|
      ensures JobInv(u, c', j)
    {
      if j > 0 {
        assert JobInv(u, c, j);
        JobLater(u, c, j, c', j);
      }
    }
  }

  // What is owed at e stays owed, if the head's debt does.
  lemma OwingTail(c: Cache, c': Cache, e: Eid)
    requires Owing(c, e) && SameTail(c, c') && c'.owed == c.owed
    requires Find(c'.durable, e) == Find(c.durable, e) && (Settled(c, e) ==> Settled(c', e))
    requires OwesPull(c, 0, e) ==> Owing(c', e)
    ensures Owing(c', e)
  {
    forall j: nat | OwesPull(c, j, e)
      ensures Owing(c', e)
    {
      if j > 0 { assert OwesPull(c', j, e); }
    }
    OwingKept(c, c', e);
  }

  lemma BehindTail(c: Cache, c': Cache, e: Eid)
    requires BehindInv(c) && SameTail(c, c') && e in c'.mem
    requires Owing(c, e) ==> Owing(c', e)
    requires Find(c'.durable, e) == Find(c.durable, e) && Find(c'.mem, e) == Find(c.mem, e)
    requires OwesLocal(c, 0, e) && !Owing(c, e) ==> OwesLocal(c', 0, e)
    ensures Owing(c', e) || LocalOwed(c', e)
  {
    if !Owing(c, e) {
      var j: nat :| OwesLocal(c, j, e);
      assert OwesLocal(c', j, e);
    }
  }

  lemma AheadTail(c: Cache, c': Cache, e: Eid)
    requires AheadInv(c) && SameTail(c, c') && Ahead(c, e) && Find(c'.mem, e) == Find(c.mem, e)
    requires c'.chain[0].Pull? && FirstAt(OpsIn(c.chain[0]), e, c.mem[e].updatedAt).None?
    ensures QueuedFirst(c', e)
  {
    var (rest, t) := (c.chain[1..], c.mem[e].updatedAt);
    assert c.chain == [c.chain[0]] + rest && c'.chain == [c'.chain[0]] + rest;
    QueuedHead(c.chain[0], rest);
    QueuedHead(c'.chain[0], rest);
    FirstConcat(OpsIn(c.chain[0]), Queued(rest), e, t);
    assert [] + Queued(rest) == Queued(rest);
  }

  // A row that the head job of an optimistic cache writes is in mem already,
  // or will be pulled.
  lemma PersistSeen(u: Counters, c: Cache, e: Eid, op: Op)
    requires Inv(u, c) && CanStep(c, RunPersist) && c.chain[0].snap.Some?
    requires Parses(op) && op.eid == e && op in c.chain[0].ops && Seen(c, op, c.chain[0].snap.value)
    requires Find(PersistStep(c).durable, e) == Some(RowOf(op)) != Find(c.durable, e)
    requires Precedes(Find(c.durable, e), Some(RowOf(op)))
    requires FirstAt(c.chain[0].ops, e, RowOf(op).updatedAt) == Some(RowOf(op))
    ensures Owing(PersistStep(c), e)
  {
    if c.mem[e].updatedAt == RowOf(op).updatedAt { HeadIsFirst(c, e); }
  }

  // A durable row that a persist changed is in mem already, or will be pulled.
  lemma PersistChanges(u: Counters, c: Cache, e: Eid)
    requires Inv(u, c) && CanStep(c, RunPersist)
    requires Find(c.durable, e) != Find(PersistStep(c).durable, e)
    ensures Owing(PersistStep(c), e)
  {
    var c' := PersistStep(c);
    var (ops, snap) := (c.chain[0].ops, c.chain[0].snap);
    assert JobInv(u, c, 0);
    ApplyAllMoves(c.durable, ops);
    assert Precedes(Find(c.durable, e), Find(c'.durable, e));
    var t := c'.durable[e].updatedAt;
    FirstWrites(ops, e, t, c'.durable[e]);
    var i :| 0 <= i < |ops| && Parses(ops[i]) && ops[i].eid == e && RowOf(ops[i]) == c'.durable[e];
    assert ops[i] in ops;
    if snap.Some? {
      assert Seen(c, ops[i], snap.value);
      PersistSeen(u, c, e, ops[i]);
    } else {
      EidIn(ops, ops[i]);
      assert OwesPull(c', 0, e);
    }
  }

  // A row of mem that is ahead, and whose update time the head job has, is the
  // first with that time there.
  lemma HeadIsFirst(c: Cache, e: Eid)
    requires AheadInv(c) && Ahead(c, e) && c.chain != []
    ensures var first := FirstAt(OpsIn(c.chain[0]), e, c.mem[e].updatedAt);
            first.Some? ==> first == Some(c.mem[e])
  {
    assert QueuedFirst(c, e);
    assert c.chain == [c.chain[0]] + c.chain[1..];
    QueuedHead(c.chain[0], c.chain[1..]);
    FirstConcat(OpsIn(c.chain[0]), Queued(c.chain[1..]), e, c.mem[e].updatedAt);
  }

  lemma PersistLater(u: Counters, c: Cache)
    requires Inv(u, c) && CanStep(c, RunPersist)
    ensures Later(c, PersistStep(c))
  {
    var c' := PersistStep(c);
    assert JobInv(u, c, 0);
    ApplyAllFacts(u, c.durable, c.chain[0].ops);
    forall e
      ensures Find(c.durable, e) != Find(c'.durable, e) ==> Owing(c', e)
      ensures Owing(c, e) ==> Owing(c', e)
    {
      if Find(c.durable, e) != Find(c'.durable, e) {
        PersistChanges(u, c, e);
      } else if Owing(c, e) {
        OwingTail(c, c', e);
      }
    }
  }

  lemma PersistJob(u: Counters, c: Cache)
    requires Inv(u, c) && CanStep(c, RunPersist)
    ensures JobInv(u, PersistStep(c), 0)
  {
    var c' := PersistStep(c);
    var (ops, snap) := (c.chain[0].ops, c.chain[0].snap);
    assert JobInv(u, c, 0);
    ApplyAllFacts(u, c.durable, ops);
    forall e | e in c'.chain[0].rest
      ensures e in c'.durable || e.time.Bad?
      ensures snap.Some? ==> e in snap.value
    {
      var i :| 0 <= i < |ops| && ops[i].eid == e;
      assert ops[i] in ops;
      if snap.Some? { assert Seen(c, ops[i], snap.value); }
    }
  }

  // The durable store is newer at e than all the ops, so e is rejected.
  lemma PersistOwes(u: Counters, c: Cache, e: Eid)
    requires Inv(u, c) && CanStep(c, RunPersist) && e in c.mem && OwesLocal(c, 0, e) && !Owing(c, e)
    ensures OwesLocal(PersistStep(c), 0, e)
  {
    var (ops, snap) := (c.chain[0].ops, c.chain[0].snap.value);
    assert JobInv(u, c, 0);
    var i :| 0 <= i < |ops| && Eids(ops)[i] == e;
    assert ops[i] in ops;
    assert Seen(c, ops[i], snap);
    OldRejected(c.durable, ops, i);
  }

  lemma PersistAhead(u: Counters, c: Cache, e: Eid)
    requires Inv(u, c) && CanStep(c, RunPersist) && Ahead(PersistStep(c), e)
    ensures QueuedFirst(PersistStep(c), e)
  {
    var c' := PersistStep(c);
    var (ops, t) := (c.chain[0].ops, c.mem[e].updatedAt);
    ApplyAllMoves(c.durable, ops);
    assert NotNewer(Find(c.durable, e), Find(c'.durable, e));
    FirstIn(ops, e, t);
    AheadTail(c, c', e);
  }

  lemma PersistBehind(u: Counters, c: Cache, e: Eid)
    requires Inv(u, c) && CanStep(c, RunPersist) && e in c.mem
    requires Later(c, PersistStep(c))
    ensures Owing(PersistStep(c), e) || LocalOwed(PersistStep(c), e)
  {
    var c' := PersistStep(c);
    if Find(c.durable, e) == Find(c'.durable, e) {
      if OwesLocal(c, 0, e) && !Owing(c, e) { PersistOwes(u, c, e); }
      BehindTail(c, c', e);
    }
  }

  lemma Persisted(u: Counters, c: Cache)
    requires Inv(u, c) && CanStep(c, RunPersist)
    ensures Kept(u, c, PersistStep(c))
  {
    var c' := PersistStep(c);
    assert JobInv(u, c, 0);
    PersistLater(u, c);
    PersistJob(u, c);
    TailLater(u, c, c');
    ReadsLater(u, c, c');
    LoadedLater(c, c');
    ApplyAllFacts(u, c.durable, c.chain[0].ops);
    forall e | Ahead(c', e)
      ensures QueuedFirst(c', e)
    {
      PersistAhead(u, c, e);
    }
    forall e | e in c'.mem
      ensures Owing(c', e) || LocalOwed(c', e)
    {
      PersistBehind(u, c, e);
    }
  }

  lemma PullReads(u: Counters, c: Cache)
    requires Inv(u, c) && CanStep(c, PullRead)
    ensures Kept(u, c, ReadStep(c))
  {
    var c' := ReadStep(c);
    assert JobInv(u, c, 0);
    forall e | Owing(c, e)
      ensures Owing(c', e)
    {
      if OwesPull(c, 0, e) { assert OwesPull(c', 0, e); }
      OwingTail(c, c', e);
    }
    TailLater(u, c, c');
    ReadsLater(u, c, c');
    LoadedLater(c, c');
    forall e | Ahead(c', e)
      ensures QueuedFirst(c', e)
    {
      assert Ahead(c, e);
      AheadTail(c, c', e);
    }
    forall e | e in c'.mem
      ensures Owing(c', e) || LocalOwed(c', e)
    {
      BehindTail(c, c', e);
    }
  }

  // Reconciling one eid: its row only moves forward, to the row read; without
  // a guard, or if the guard holds, it ends up as that row or newer.
  lemma PullOneRow(u: Counters, mem: Store, e: Eid, row: Option<Row>, guard: Option<Snap>)
    requires StoreOk(u, mem) && (row.Some? ==> Known(u, e, row.value)) && (row.None? ==> e.time.Bad?)
    ensures var mem' := PullOne(mem, e, row, guard);
            && StoreOk(u, mem') && Grows(mem, mem')
            && (forall x :: x != e ==> Find(mem', x) == Find(mem, x))
            && (Find(mem', e) != Find(mem, e) ==> Find(mem', e) == row)
            && (Precedes(row, Find(mem, e)) ==> Find(mem', e) == Find(mem, e))
            && (guard.None? || (e in guard.value && guard.value[e] == StampOf(Find(mem, e))) ==> Precedes(row, Find(mem', e)))
  {
  }

  lemma PullOneFacts(u: Counters, c: Cache)
    requires Inv(u, c) && CanStep(c, PullMerge)
    ensures var (c', e) := (MergeStep(c), c.chain[0].rest[0]);
            && StoreOk(u, c'.mem) && Grows(c.mem, c'.mem)
            && (forall x :: x != e ==> Find(c'.mem, x) == Find(c.mem, x))
            && (Find(c'.mem, e) != Find(c.mem, e) ==> Find(c'.mem, e) == c.chain[0].got.value)
            && (Settled(c, e) ==> Settled(c', e))
            && (OwesPull(c, 0, e) || OwesLocal(c, 0, e) ==> Settled(c', e))
  {
    assert JobInv(u, c, 0);
    assert GotOk(u, c, c.chain[0].rest[0], c.chain[0].got.value);
    PullOneRow(u, c.mem, c.chain[0].rest[0], c.chain[0].got.value, c.chain[0].guard);
  }

  lemma MergeLater(u: Counters, c: Cache)
    requires Inv(u, c) && CanStep(c, PullMerge)
    ensures Later(c, MergeStep(c))
  {
    var c' := MergeStep(c);
    var rest := c.chain[0].rest;
    assert JobInv(u, c, 0);
    PullOneFacts(u, c);
    forall e | Owing(c, e)
      ensures Owing(c', e)
    {
      if OwesPull(c, 0, e) && e != rest[0] {
        assert rest == [rest[0]] + rest[1..];
        assert OwesPull(c', 0, e);
      }
      OwingTail(c, c', e);
    }
  }

  lemma MergeBehind(u: Counters, c: Cache, e: Eid)
    requires Inv(u, c) && CanStep(c, PullMerge) && e in MergeStep(c).mem
    ensures Owing(MergeStep(c), e) || LocalOwed(MergeStep(c), e)
  {
    var c' := MergeStep(c);
    var job := c.chain[0];
    assert JobInv(u, c, 0);
    PullOneFacts(u, c);
    MergeLater(u, c);
    if e == job.rest[0] && Find(c'.mem, e) != Find(c.mem, e) {
      assert GotOk(u, c, e, job.got.value);
    } else if e == job.rest[0] {
      if !Settled(c', e) { BehindTail(c, c', e); }
    } else {
      assert job.rest == [job.rest[0]] + job.rest[1..];
      BehindTail(c, c', e);
    }
  }

  lemma Merged(u: Counters, c: Cache)
    requires Inv(u, c) && CanStep(c, PullMerge)
    ensures Kept(u, c, MergeStep(c))
  {
    var c' := MergeStep(c);
    var job := c.chain[0];
    assert JobInv(u, c, 0);
    PullOneFacts(u, c);
    MergeLater(u, c);
    TailLater(u, c, c');
    ReadsLater(u, c, c');
    LoadedLater(c, c');
    forall e | Ahead(c', e)
      ensures QueuedFirst(c', e)
    {
      assert GotOk(u, c, job.rest[0], job.got.value);
      AheadTail(c, c', e);
    }
    forall e | e in c'.mem
      ensures Owing(c', e) || LocalOwed(c', e)
    {
      MergeBehind(u, c, e);
    }
  }

  // A pull with nothing left owes nothing; the others move up by one.
  lemma Finished(u: Counters, c: Cache)
    requires Inv(u, c) && CanStep(c, Finish)
    ensures Kept(u, c, Act(c, Finish))
  {
    var c' := Act(c, Finish);
    forall e | Owing(c, e)
      ensures Owing(c', e)
    {
      forall j: nat | OwesPull(c, j, e)
        ensures Owing(c', e)
      {
        assert OwesPull(c', j - 1, e);
      }
      OwingKept(c, c', e);
    }
    forall j: nat | j < |c'.chain|
      ensures JobInv(u, c', j)
    {
      assert JobInv(u, c, j + 1);
      JobLater(u, c, j + 1, c', j);
    }
    ReadsLater(u, c, c');
    LoadedLater(c, c');
    forall e | Ahead(c', e)
      ensures QueuedFirst(c', e)
    {
      assert Ahead(c, e);
      assert c.chain == [c.chain[0]] + c.chain[1..];
      QueuedHead(c.chain[0], c.chain[1..]);
      assert [] + Queued(c.chain[1..]) == Queued(c.chain[1..]);
    }
    forall e | e in c'.mem
      ensures Owing(c', e) || LocalOwed(c', e)
    {
      if !Owing(c, e) {
        var j: nat :| OwesLocal(c, j, e);
        assert OwesLocal(c', j - 1, e);
      }
    }
  }

  /* ---- All steps ---- */

  // Ops come from the universe; an ingest names eids the durable store holds.
  predicate Allowed(u: Counters, c: Cache, step: Step) {
    match step
    case Apply(ops) => forall op :: op in ops ==> OpOk(u, op)
    case PeerWrite(ops) => forall op :: op in ops ==> OpOk(u, op)
    case Ingest(eids) => forall e :: e in eids ==> e in c.durable || e.time.Bad?
    case _ => true
  }

  lemma StepKeeps(u: Counters, c: Cache, step: Step)
    requires Inv(u, c) && CanStep(c, step) && Allowed(u, c, step)
    ensures Kept(u, c, Act(c, step))
  {
    match step
    case Apply(ops) => if c.optimistic { ApplyOptimistic(u, c, ops); } else { ApplyPlain(u, c, ops); }
    case Ingest(eids) => IngestStep(u, c, eids);
    case RunPersist => Persisted(u, c);
    case PullRead => PullReads(u, c);
    case PullMerge => Merged(u, c);
    case Finish => Finished(u, c);
    case AskRow(_, _) => AskSteps(u, c, step);
    case AskList(_, _) => AskSteps(u, c, step);
    case Fetch(id) => Fetched(u, c, id);
    case Merge(id) => Installed(u, c, id);
    case PeerWrite(ops) => PeerWrites(u, c, ops);
  }
}
