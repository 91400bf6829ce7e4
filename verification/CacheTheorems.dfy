// What holds along every run of the cache.

module CacheTheorems {
  import opened Basics
  import opened Lww
  import opened CacheState
  import opened CacheInv
  import opened CacheSteps

  ghost predicate AllowedRun(u: Counters, states: seq<Cache>, steps: seq<Step>) {
    && Run(states, steps)
    && (forall i :: 0 <= i < |steps| ==> Allowed(u, states[i], steps[i]))
    && Opened(u, states[0])
  }

  ghost predicate Opened(u: Counters, c: Cache) {
    exists optimistic, durable, init :: OpenedAs(u, c, optimistic, durable, init)
  }

  ghost predicate OpenedAs(u: Counters, c: Cache, optimistic: bool, durable: Store, init: set<Eid>) {
    && init <= durable.Keys && (forall e :: e in init ==> durable[e].Live?)
    && StoreOk(u, durable) && c == Open(optimistic, durable, init)
  }

  lemma OpenKeeps(u: Counters, c: Cache)
    requires Opened(u, c)
    ensures Inv(u, c)
  {
    forall e
      ensures Settled(c, e) || e !in c.mem
      ensures !Ahead(c, e)
    {
    }
  }

  lemma {:induction false} RunKeeps(u: Counters, states: seq<Cache>, steps: seq<Step>, i: nat)
    requires AllowedRun(u, states, steps) && i < |states|
    ensures Inv(u, states[i])
    decreases i
  {
    if i == 0 {
      OpenKeeps(u, states[0]);
    } else {
      RunKeeps(u, states, steps, i - 1);
      StepKeeps(u, states[i - 1], steps[i - 1]);
    }
  }

  /* ---- Rows never move back, whatever the ops ---- */

  // An ingest names eids the durable store holds, or eids that do not parse.
  predicate IngestHeld(c: Cache, step: Step) {
    step.Ingest? ==> forall e :: e in step.eids ==> e in c.durable || e.time.Bad?
  }

  ghost predicate KeysParse(s: Store) { forall e :: e in s ==> e.time.At? }

  // A pull is for an eid the durable store holds; no row was read only for one
  // that does not parse.
  predicate JobHeld(durable: Store, job: Job) {
    job.Pull? ==>
      && (forall e :: e in job.rest ==> e in durable || e.time.Bad?)
      && (job.got.Some? ==> job.rest != [] && (job.got.value.Some? <==> job.rest[0].time.At?))
  }

  ghost predicate ReadHeld(r: Read) {
    match r
    case RowGot(e, row) => row.Some? ==> e.time.At?
    case ListGot(_, rows) => KeysParse(rows)
    case _ => true
  }

  ghost predicate Held(c: Cache) {
    && KeysParse(c.mem) && KeysParse(c.durable)
    && (forall j :: 0 <= j < |c.chain| ==> JobHeld(c.durable, c.chain[j]))
    && (forall id :: id in c.reading ==> ReadHeld(c.reading[id]))
  }

  // No row is dropped or moves to an older (updatedAt, ctr).
  predicate NoOlder(s: Store, s': Store) { forall e :: e in s ==> e in s' && NotOlderRow(s[e], s'[e]) }

  predicate NotOlderRow(a: Row, b: Row) {
    a.updatedAt < b.updatedAt || (a.updatedAt == b.updatedAt && a.ctr <= b.ctr)
  }

  lemma {:induction false} ApplyParses(s: Store, ops: seq<Op>)
    requires KeysParse(s)
    ensures KeysParse(ApplyAll(s, ops))
    decreases |ops|
  {
    if ops != [] { ApplyParses(s, ops[..|ops| - 1]); }
  }

  lemma DurableGrows(c: Cache, ops: seq<Op>)
    requires Held(c)
    ensures KeysParse(ApplyAll(c.durable, ops))
    ensures forall j :: 0 <= j < |c.chain| ==> JobHeld(ApplyAll(c.durable, ops), c.chain[j])
  {
    ApplyParses(c.durable, ops);
    ApplyAllMoves(c.durable, ops);
    forall e | e in c.durable
      ensures e in ApplyAll(c.durable, ops)
    {
      assert NotNewer(Find(c.durable, e), Find(ApplyAll(c.durable, ops), e));
    }
  }

  lemma PersistHeld(c: Cache)
    requires Held(c) && CanStep(c, RunPersist)
    ensures Held(PersistStep(c))
  {
    var (c', ops) := (PersistStep(c), c.chain[0].ops);
    DurableGrows(c, ops);
    ApplyAllMoves(c.durable, ops);
    forall e | e in c'.chain[0].rest
      ensures e in c'.durable || e.time.Bad?
    {
      var i :| 0 <= i < |ops| && ops[i].eid == e;
    }
  }

  lemma HeadHeld(c: Cache, step: Step)
    requires Held(c) && CanStep(c, step) && (step.PullRead? || step.PullMerge? || step.Finish?)
    ensures Held(Act(c, step)) && NoOlder(c.mem, Act(c, step).mem)
  {
    assert JobHeld(c.durable, c.chain[0]);
  }

  lemma ReadsHeld(c: Cache, step: Step)
    requires Held(c) && CanStep(c, step)
    requires step.AskRow? || step.AskList? || step.Fetch? || step.Merge?
    ensures Held(Act(c, step)) && NoOlder(c.mem, Act(c, step).mem)
  {
  }

  lemma StepHolds(c: Cache, step: Step)
    requires Held(c) && CanStep(c, step) && IngestHeld(c, step)
    ensures Held(Act(c, step)) && NoOlder(c.mem, Act(c, step).mem)
  {
    match step
    case Apply(ops) =>
      ApplyParses(c.mem, ops);
      ApplyAllMoves(c.mem, ops);
      assert forall e :: e in c.mem ==> Precedes(Find(c.mem, e), Find(ApplyAll(c.mem, ops), e));
    case Ingest(_) =>
    case RunPersist => PersistHeld(c);
    case PeerWrite(ops) => DurableGrows(c, ops);
    case PullRead => HeadHeld(c, step);
    case PullMerge => HeadHeld(c, step);
    case Finish => HeadHeld(c, step);
    case AskRow(_, _) => ReadsHeld(c, step);
    case AskList(_, _) => ReadsHeld(c, step);
    case Fetch(_) => ReadsHeld(c, step);
    case Merge(_) => ReadsHeld(c, step);
  }

  // Opened over any durable store whose eids parse; only ingests are held to
  // a condition, ops are not.
  ghost predicate IngestsHeld(states: seq<Cache>, steps: seq<Step>) {
    && Run(states, steps)
    && (forall i :: 0 <= i < |steps| ==> IngestHeld(states[i], steps[i]))
    && exists optimistic, durable, init :: OpensOver(states[0], optimistic, durable, init)
  }

  ghost predicate OpensOver(c: Cache, optimistic: bool, durable: Store, init: set<Eid>) {
    && init <= durable.Keys && (forall e :: e in init ==> durable[e].Live?)
    && KeysParse(durable) && c == Open(optimistic, durable, init)
  }

  lemma {:induction false} RunHolds(states: seq<Cache>, steps: seq<Step>, i: nat)
    requires IngestsHeld(states, steps) && i < |states|
    ensures Held(states[i])
    decreases i
  {
    if i > 0 {
      RunHolds(states, steps, i - 1);
      StepHolds(states[i - 1], steps[i - 1]);
    }
  }

  // A row in mem is never dropped and never moves to an older (updatedAt, ctr).
  lemma {:induction false} NeverOlder(states: seq<Cache>, steps: seq<Step>, i: nat, j: nat, e: Eid)
    requires IngestsHeld(states, steps) && i <= j < |states| && e in states[i].mem
    ensures e in states[j].mem && NotOlderRow(states[i].mem[e], states[j].mem[e])
    decreases j
  {
    if i < j {
      NeverOlder(states, steps, i, j - 1, e);
      RunHolds(states, steps, j - 1);
      StepHolds(states[j - 1], steps[j - 1]);
      assert NoOlder(states[j - 1].mem, states[j].mem);
    }
  }

  // Nothing queued, nothing being read, every peer write ingested.
  predicate Quiet(c: Cache) { c.chain == [] && c.reading == map[] && c.owed == {} }

  // Every row in mem is the durable row, and mem holds every live durable row
  // of each type warmed by reading it.
  ghost predicate Agrees(c: Cache) {
    && (forall e :: e in c.mem ==> e in c.durable && c.mem[e] == c.durable[e])
    && (forall typ, e :: typ in c.loaded && e in c.durable && HasType(Some(c.durable[e]), typ) ==> e in c.mem)
  }

  // Agreement. With nothing outstanding mem agrees with the durable store.
  lemma Agreement(u: Counters, states: seq<Cache>, steps: seq<Step>, i: nat)
    requires AllowedRun(u, states, steps) && i < |states| && Quiet(states[i])
    ensures Agrees(states[i])
  {
    RunKeeps(u, states, steps, i);
    var c := states[i];
    forall e | e in c.mem
      ensures e in c.durable && c.mem[e] == c.durable[e]
    {
      assert Owing(c, e) || LocalOwed(c, e);
      assert Ahead(c, e) ==> QueuedFirst(c, e);
    }
    forall typ, e | typ in c.loaded && e in c.durable && HasType(Some(c.durable[e]), typ)
      ensures e in c.mem
    {
      assert e in LiveOf(c.durable, typ);
    }
  }

  // Before that: any row that mem shows ahead of the durable store is queued
  // to be persisted, and any row behind it is on its way to mem.
  lemma NothingStuck(u: Counters, states: seq<Cache>, steps: seq<Step>, i: nat, e: Eid)
    requires AllowedRun(u, states, steps) && i < |states| && e in states[i].mem
    requires Find(states[i].durable, e) != Some(states[i].mem[e])
    ensures QueuedFirst(states[i], e) || PeerOwed(states[i], e) || LocalOwed(states[i], e)
  {
    RunKeeps(u, states, steps, i);
    var c := states[i];
    assert Owing(c, e) || LocalOwed(c, e);
    if Settled(c, e) { assert Ahead(c, e); }
  }

  /* ---- What one merge does ---- */

  // The row in mem is no longer the one that the guard was taken of.
  predicate Moved(curr: Option<Row>, e: Eid, guard: Snap) {
    match curr
    case None => e in guard && guard[e].Some?
    case Some(row) => e !in guard || guard[e] != Some((row.updatedAt, row.ctr))
  }

  // A pull touches its own eid only. It leaves mem's row when that one is
  // strictly newer than the durable row by (update time, counter) or has moved
  // since the guard was taken, and takes the durable one, or none, otherwise.
  lemma PullMeans(mem: Store, e: Eid, row: Option<Row>, guard: Option<Snap>)
    ensures var (curr, mem') := (Find(mem, e), PullOne(mem, e, row, guard));
            && mem'.Keys - {e} == mem.Keys - {e} && (forall x :: x in mem' && x != e ==> mem'[x] == mem[x])
            && Find(mem', e) ==
               if (curr.Some? && row.Some? && !NotOlderRow(curr.value, row.value)) || (guard.Some? && Moved(curr, e, guard.value))
               then curr else row
  {
  }

  // A read installs each of its rows that mem lacks or has an older one for,
  // and nothing else.
  lemma InstallMeans(mem: Store, rows: Store, e: Eid)
    ensures Find(Install(mem, rows), e) ==
            if e in rows && (e in mem ==> !NotOlderRow(rows[e], mem[e])) then Some(rows[e]) else Find(mem, e)
  {
  }

  // An optimistic apply shows in mem at once, before the durable store has it.
  lemma ShownAtOnce(c: Cache, ops: seq<Op>, i: nat)
    requires c.optimistic && i < |ops| && Parses(ops[i])
    ensures var c' := Act(c, Apply(ops));
            && ops[i].eid in c'.mem && Stamp(ops[i]) <= c'.mem[ops[i].eid].updatedAt
            && c'.durable == c.durable
  {
    ApplyAllMoves(c.mem, ops);
  }
}
