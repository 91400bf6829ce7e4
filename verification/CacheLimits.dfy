// The hypotheses of the cache theorems: where they come from, and runs that
// break agreement without them.

module CacheLimits {
  import opened Basics
  import opened Lww
  import opened CacheState
  import opened CacheInv
  import opened CacheSteps
  import opened CacheTheorems

  predicate Leads(c: Cache, step: Step, c': Cache) { CanStep(c, step) && Act(c, step) == c' }

  ghost predicate RunFrom(c: Cache, states: seq<Cache>, steps: seq<Step>, c': Cache) {
    Run(states, steps) && states[0] == c && states[|steps|] == c'
  }

  // The ops a step writes, here or at the peer.
  function OpsAt(step: Step): seq<Op> {
    match step
    case Apply(ops) => ops
    case PeerWrite(ops) => ops
    case _ => []
  }

  /* ---- An ingest that runs alone ---- */

  // The cache after these steps; None if one of them was not enabled.
  function AfterAll(c: Cache, steps: seq<Step>): Option<Cache>
    decreases |steps|
  {
    if steps == [] then Some(c)
    else if CanStep(c, steps[0]) then AfterAll(Act(c, steps[0]), steps[1..])
    else None
  }

  // n eids are read and merged, one by one.
  function PullSteps(n: nat): seq<Step> { if n == 0 then [Finish] else [PullRead] + ([PullMerge] + PullSteps(n - 1)) }

  // The row of e once the durable one is pulled.
  function PulledRow(c: Cache, e: Eid): Option<Row> { Find(PullOne(c.mem, e, Find(c.durable, e), None), e) }

  lemma AfterOne(c: Cache, step: Step, more: seq<Step>)
    requires CanStep(c, step)
    ensures AfterAll(c, [step] + more) == AfterAll(Act(c, step), more)
  {
    assert ([step] + more)[1..] == more;
  }

  // The cache once the first eid of its only job is pulled.
  lemma PullFirst(c: Cache, rest: seq<Eid>) returns (c': Cache)
    requires c.chain == [Pull(rest, None, None)] && rest != []
    ensures forall more :: AfterAll(c, [PullRead] + ([PullMerge] + more)) == AfterAll(c', more)
    ensures c' == c.(mem := PullOne(c.mem, rest[0], Find(c.durable, rest[0]), None), chain := [Pull(rest[1..], None, None)])
  {
    var read := Act(c, PullRead);
    assert read.chain == [Pull(rest, None, Some(Find(c.durable, rest[0])))];
    c' := Act(read, PullMerge);
    forall more
      ensures AfterAll(c, [PullRead] + ([PullMerge] + more)) == AfterAll(c', more)
    {
      AfterOne(c, PullRead, [PullMerge] + more);
      AfterOne(read, PullMerge, more);
    }
  }

  lemma {:induction false} PullsAlone(c: Cache, rest: seq<Eid>) returns (c': Cache)
    requires c.chain == [Pull(rest, None, None)] && forall i, j :: 0 <= i < j < |rest| ==> rest[i] != rest[j]
    ensures AfterAll(c, PullSteps(|rest|)) == Some(c') && c' == c.(mem := c'.mem, chain := [])
    ensures forall e :: Find(c'.mem, e) == if e in rest then PulledRow(c, e) else Find(c.mem, e)
    decreases |rest|
  {
    if rest == [] {
      c' := Act(c, Finish);
      AfterOne(c, Finish, []);
      assert [Finish] + [] == [Finish];
    } else {
      var c1 := PullFirst(c, rest);
      c' := PullsAlone(c1, rest[1..]);
      FirstPulled(c, c1, c', rest);
    }
  }

  lemma FirstPulled(c: Cache, c1: Cache, c': Cache, rest: seq<Eid>)
    requires rest != [] && c1.durable == c.durable && c1.mem == PullOne(c.mem, rest[0], Find(c.durable, rest[0]), None)
    requires rest[0] !in rest[1..]
    requires forall e :: Find(c'.mem, e) == if e in rest[1..] then PulledRow(c1, e) else Find(c1.mem, e)
    ensures forall e :: Find(c'.mem, e) == if e in rest then PulledRow(c, e) else Find(c.mem, e)
  {
    assert rest == [rest[0]] + rest[1..];
    forall e
      ensures Find(c'.mem, e) == if e in rest then PulledRow(c, e) else Find(c.mem, e)
    {
      if e != rest[0] { assert Find(c1.mem, e) == Find(c.mem, e); }
    }
  }

  // An ingest alone leaves each ingested eid with its durable row, or mem's if
  // that wins. It drops a row exactly when the eid is ingested and the durable
  // store does not hold it.
  lemma IngestDrops(c: Cache, eids: seq<Eid>) returns (c': Cache)
    requires c.chain == []
    ensures AfterAll(c, [Ingest(eids)] + PullSteps(|Distinct(eids)|)) == Some(c')
    ensures forall e :: Find(c'.mem, e) == if e in eids then PulledRow(c, e) else Find(c.mem, e)
    ensures forall e :: e in c.mem ==> (e !in c'.mem <==> e in eids && e !in c.durable)
  {
    var c1 := Act(c, Ingest(eids));
    AfterOne(c, Ingest(eids), PullSteps(|Distinct(eids)|));
    c' := PullsAlone(c1, Distinct(eids));
    forall e | e in c.mem
      ensures e !in c'.mem <==> e in eids && e !in c.durable
    {
      assert Find(c'.mem, e) == if e in eids then PulledRow(c1, e) else Find(c.mem, e);
    }
  }

  /* ---- Runs, step by step ---- */

  // Some run takes the cache from c to c'.
  ghost predicate Reaches(c: Cache, c': Cache) { exists states, steps :: RunFrom(c, states, steps, c') }

  lemma ReachHere(c: Cache)
    ensures Reaches(c, c)
  {
    assert RunFrom(c, [c], [], c);
  }

  lemma ReachNext(c: Cache, c1: Cache, step: Step, c2: Cache)
    requires Reaches(c, c1) && Leads(c1, step, c2)
    ensures Reaches(c, c2)
  {
    var states, steps :| RunFrom(c, states, steps, c1);
    assert RunFrom(c, states + [c2], steps + [step], c2);
  }

  lemma OneOp(s: Store, op: Op)
    ensures ApplyAll(s, [op]) == ApplyOne(s, op) && Statuses(s, [op]) == [StatusOne(s, op)]
    ensures Eids([op]) == [op.eid] && Distinct([op.eid]) == [op.eid] && Distinct([]) == []
    ensures Rejected([op], Statuses(s, [op])) == if StatusOne(s, op) == Success then [] else [op.eid]
  {
    assert [op][..0] == [] && [StatusOne(s, op)][..0] == [];
  }

  // A cache whose chain has these jobs; nothing else is going on.
  function At0(mem: Store, durable: Store, warm: set<string>, chain: seq<Job>): Cache {
    Cache(true, mem, durable, warm, chain, map[], warm, {})
  }

  lemma WarmSteps(typ: string, c0: Cache, c1: Cache, c2: Cache, c3: Cache)
    requires c0 == At0(map[], map[], {}, [])
    requires c1 == c0.(reading := map[0 := ListOut(typ)]) && c2 == c0.(reading := map[0 := ListGot(typ, map[])])
    requires c3 == At0(map[], map[], {typ}, [])
    ensures Leads(c0, AskList(0, typ), c1) && Leads(c1, Fetch(0), c2) && Leads(c2, Merge(0), c3)
  {
    assert LiveOf(c1.durable, typ) == map[];
    assert InstallStep(c2, 0) == c3;
  }

  lemma MakeStep(mem: Store, durable: Store, warm: set<string>, chain: seq<Job>, op: Op, snap: Snap)
    requires StatusOne(mem, op) == Success && snap == map[op.eid := Some((Stamp(op), op.ctr))]
    ensures Leads(At0(mem, durable, warm, chain), Apply([op]),
                  At0(mem[op.eid := RowOf(op)], durable, warm, chain + [Persist([op], Some(snap))]))
  {
    OneOp(mem, op);
    var mem' := mem[op.eid := RowOf(op)];
    assert ApplyAll(mem, [op]) == mem';
    assert SnapOf(mem', [op]) == snap by {
      assert Eids([op]) == [op.eid] && Find(mem', op.eid) == Some(RowOf(op));
    }
  }

  lemma PersistOne(mem: Store, durable: Store, warm: set<string>, op: Op, snap: Snap)
    ensures Leads(At0(mem, durable, warm, [Persist([op], Some(snap))]), RunPersist,
                  At0(mem, ApplyOne(durable, op), warm,
                      [Pull(if StatusOne(durable, op) == Success then [] else [op.eid], Some(snap), None)]))
  {
    OneOp(durable, op);
  }

  lemma PullOneStep(mem: Store, durable: Store, warm: set<string>, e: Eid, guard: Option<Snap>, tail: seq<Job>)
    ensures Leads(At0(mem, durable, warm, [Pull([e], guard, None)] + tail), PullRead,
                  At0(mem, durable, warm, [Pull([e], guard, Some(Find(durable, e)))] + tail))
    ensures Leads(At0(mem, durable, warm, [Pull([e], guard, Some(Find(durable, e)))] + tail), PullMerge,
                  At0(PullOne(mem, e, Find(durable, e), guard), durable, warm, [Pull([], guard, None)] + tail))
  {
    assert [e][1..] == [];
  }

  lemma FinishStep(mem: Store, durable: Store, warm: set<string>, guard: Option<Snap>, tail: seq<Job>)
    ensures Leads(At0(mem, durable, warm, [Pull([], guard, None)] + tail), Finish, At0(mem, durable, warm, tail))
  {
  }

  lemma IngestOne(mem: Store, durable: Store, warm: set<string>, e: Eid)
    ensures Leads(At0(mem, durable, warm, []), Ingest([e]), At0(mem, durable, warm, [Pull([e], None, None)]))
  {
    assert [e][..0] == [];
    assert Distinct([e]) == [e];
    assert ({} - set x | x in [e]) == {};
  }

  /* ---- A row lost for good ---- */

  function SnapOne(op: Op): Snap
    requires Parses(op)
  {
    map[op.eid := Some((Stamp(op), op.ctr))]
  }

  // The job an apply of one op queues.
  function JobOf(op: Op): Job
    requires Parses(op)
  {
    Persist([op], Some(SnapOne(op)))
  }

  // The type is read, and found empty.
  lemma Warmed(typ: string)
    ensures Reaches(Open(true, map[], {}), At0(map[], map[], {typ}, []))
  {
    var c0 := At0(map[], map[], {}, []);
    var (c1, c2) := (c0.(reading := map[0 := ListOut(typ)]), c0.(reading := map[0 := ListGot(typ, map[])]));
    WarmSteps(typ, c0, c1, c2, At0(map[], map[], {typ}, []));
    assert Open(true, map[], {}).mem == c0.mem && Open(true, map[], {}).warmed == c0.warmed;
    ReachHere(c0);
    ReachNext(c0, c0, AskList(0, typ), c1);
    ReachNext(c0, c1, Fetch(0), c2);
    ReachNext(c0, c2, Merge(0), At0(map[], map[], {typ}, []));
  }

  // A peer announces the eid; then an apply makes its row, in mem at once.
  lemma Announced(c0: Cache, warm: set<string>, op: Op)
    requires Parses(op) && Reaches(c0, At0(map[], map[], warm, []))
    ensures Reaches(c0, At0(map[op.eid := RowOf(op)], map[], warm, [Pull([op.eid], None, None), JobOf(op)]))
  {
    var pull := Pull([op.eid], None, None);
    IngestOne(map[], map[], warm, op.eid);
    MakeStep(map[], map[], warm, [pull], op, SnapOne(op));
    assert [pull] + [JobOf(op)] == [pull, JobOf(op)];
    ReachNext(c0, At0(map[], map[], warm, []), Ingest([op.eid]), At0(map[], map[], warm, [pull]));
    ReachNext(c0, At0(map[], map[], warm, [pull]), Apply([op]), At0(map[op.eid := RowOf(op)], map[], warm, [pull, JobOf(op)]));
  }

  // The pull finds no durable row and takes the row out of mem.
  lemma PulledAway(c0: Cache, warm: set<string>, op: Op)
    requires Parses(op)
    requires Reaches(c0, At0(map[op.eid := RowOf(op)], map[], warm, [Pull([op.eid], None, None), JobOf(op)]))
    ensures Reaches(c0, At0(map[], map[], warm, [JobOf(op)]))
  {
    var (e, mem, job) := (op.eid, map[op.eid := RowOf(op)], JobOf(op));
    PullOneStep(mem, map[], warm, e, None, [job]);
    FinishStep(map[], map[], warm, None, [job]);
    assert forall j: Job :: [j] + [job] == [j, job];
    assert PullOne(mem, e, None, None) == map[];
    var c1, c2 := At0(mem, map[], warm, [Pull([e], None, Some(None)), job]), At0(map[], map[], warm, [Pull([], None, None), job]);
    ReachNext(c0, At0(mem, map[], warm, [Pull([e], None, None), job]), PullRead, c1);
    ReachNext(c0, c1, PullMerge, c2);
    ReachNext(c0, c2, Finish, At0(map[], map[], warm, [job]));
  }

  // The row is persisted; nothing pulls it, since it was the newest in mem.
  lemma Persisted(c0: Cache, warm: set<string>, op: Op)
    requires Parses(op) && Reaches(c0, At0(map[], map[], warm, [JobOf(op)]))
    ensures Reaches(c0, At0(map[], map[op.eid := RowOf(op)], warm, []))
  {
    var (durable, last) := (map[op.eid := RowOf(op)], Pull([], Some(SnapOne(op)), None));
    PersistOne(map[], map[], warm, op, SnapOne(op));
    FinishStep(map[], durable, warm, Some(SnapOne(op)), []);
    assert [last] + [] == [last];
    ReachNext(c0, At0(map[], map[], warm, [JobOf(op)]), RunPersist, At0(map[], durable, warm, [last]));
    ReachNext(c0, At0(map[], durable, warm, [last]), Finish, At0(map[], durable, warm, []));
  }

  // For any op that makes a live row: ingesting its eid before the durable
  // store holds it can drop the row that the op has just put in mem. Nothing
  // brings it back: its type is warm, the durable store has it, mem does not.
  lemma LostRow(op: Op) returns (c: Cache)
    requires Parses(op) && op.mutation.Some?
    ensures Reaches(Open(true, map[], {}), c) && Quiet(c)
    ensures op.mutation.value.typ in c.loaded && op.eid in LiveOf(c.durable, op.mutation.value.typ) && op.eid !in c.mem
  {
    var (c0, typ) := (Open(true, map[], {}), op.mutation.value.typ);
    Warmed(typ);
    Announced(c0, {typ}, op);
    PulledAway(c0, {typ}, op);
    Persisted(c0, {typ}, op);
    c := At0(map[], map[op.eid := RowOf(op)], {typ}, []);
  }

  /* ---- Ties ---- */

  // One eid, one update time, different counters.
  predicate Tie(a: Op, b: Op) { Parses(a) && Parses(b) && a.eid == b.eid && Stamp(a) == Stamp(b) && a.ctr < b.ctr }

  lemma NoTail(job: Job)
    ensures [job] + [] == [job]
  {
  }

  lemma TieStates(a: Op, b: Op) returns (c1: Cache, c2: Cache, c3: Cache, c4: Cache, c5: Cache)
    requires Tie(a, b)
    ensures var durable := map[a.eid := RowOf(a)];
            && Leads(Open(true, durable, {}), Apply([b]), c1) && Leads(c1, RunPersist, c2) && Leads(c2, PullRead, c3)
            && Leads(c3, PullMerge, c4) && Leads(c4, Finish, c5)
            && c5 == At0(map[b.eid := RowOf(b)], durable, {}, [])
  {
    var (e, durable, mem, snap) := (a.eid, map[a.eid := RowOf(a)], map[b.eid := RowOf(b)], SnapOne(b));
    assert Open(true, durable, {}) == At0(map[], durable, {}, []);
    MakeStep(map[], durable, {}, [], b, snap);
    assert [] + [JobOf(b)] == [JobOf(b)];
    PersistOne(mem, durable, {}, b, snap);
    PullOneStep(mem, durable, {}, e, Some(snap), []);
    assert PullOne(mem, e, Some(RowOf(a)), Some(snap)) == mem;
    FinishStep(mem, durable, {}, Some(snap), []);
    NoTail(Pull([e], Some(snap), None));
    NoTail(Pull([e], Some(snap), Some(Some(RowOf(a)))));
    NoTail(Pull([], Some(snap), None));
    c1, c2 := At0(mem, durable, {}, [JobOf(b)]), At0(mem, durable, {}, [Pull([e], Some(snap), None)]);
    c3 := At0(mem, durable, {}, [Pull([e], Some(snap), Some(Some(RowOf(a))))]);
    c4, c5 := At0(mem, durable, {}, [Pull([], Some(snap), None)]), At0(mem, durable, {}, []);
  }

  // Steps that ingest nothing and apply no op but this one.
  predicate OnlyOp(steps: seq<Step>, op: Op) {
    forall i :: 0 <= i < |steps| ==> !steps[i].Ingest? && forall o :: o in OpsAt(steps[i]) ==> o == op
  }

  // A run that goes on by one step.
  lemma Then(states: seq<Cache>, steps: seq<Step>, step: Step, c': Cache, op: Op)
    returns (states': seq<Cache>, steps': seq<Step>)
    requires Run(states, steps) && Leads(states[|steps|], step, c') && OnlyOp(steps, op) && OnlyOp([step], op)
    ensures Run(states', steps') && states'[0] == states[0] && states'[|steps'|] == c' && OnlyOp(steps', op)
  {
    states', steps' := states + [c'], steps + [step];
    assert [step][0] == step;
  }

  lemma TieEnd(a: Op, b: Op)
    requires Tie(a, b)
    ensures var c := At0(map[b.eid := RowOf(b)], map[a.eid := RowOf(a)], {}, []);
            Quiet(c) && !Agrees(c)
  {
    var c := At0(map[b.eid := RowOf(b)], map[a.eid := RowOf(a)], {}, []);
    assert b.eid in c.mem && c.mem[b.eid] != c.durable[b.eid];
  }

  // For any tie: mem keeps the op with the higher counter, the durable store
  // the one it saw first, and no pull settles it.
  lemma TieDisagrees(a: Op, b: Op) returns (states: seq<Cache>, steps: seq<Step>)
    requires Tie(a, b)
    ensures Run(states, steps) && states[0] == Open(true, map[a.eid := RowOf(a)], {}) && OnlyOp(steps, b)
    ensures Quiet(states[|steps|]) && states[|steps|].mem == map[b.eid := RowOf(b)]
    ensures states[|steps|].durable == map[a.eid := RowOf(a)] && !Agrees(states[|steps|])
  {
    var c1, c2, c3, c4, c5 := TieStates(a, b);
    states, steps := [Open(true, map[a.eid := RowOf(a)], {})], [];
    states, steps := Then(states, steps, Apply([b]), c1, b);
    states, steps := Then(states, steps, RunPersist, c2, b);
    states, steps := Then(states, steps, PullRead, c3, b);
    states, steps := Then(states, steps, PullMerge, c4, b);
    states, steps := Then(states, steps, Finish, c5, b);
    TieEnd(a, b);
  }

  /* ---- Exactly when the cache agrees ---- */

  // Ops of all, here and at the peer, over a durable store of rows of all.
  ghost predicate RunOver(all: set<Op>, states: seq<Cache>, steps: seq<Step>) {
    && Run(states, steps)
    && (forall i :: 0 <= i < |steps| ==> IngestHeld(states[i], steps[i]) && forall op :: op in OpsAt(steps[i]) ==> op in all)
    && exists optimistic, durable, init :: OpensWith(all, states[0], optimistic, durable, init)
  }

  ghost predicate OpensWith(all: set<Op>, c: Cache, optimistic: bool, durable: Store, init: set<Eid>) {
    && init <= durable.Keys && (forall e :: e in init ==> durable[e].Live?) && c == Open(optimistic, durable, init)
    && forall e :: e in durable ==> exists op :: op in all && Parses(op) && op.eid == e && RowOf(op) == durable[e]
  }

  ghost predicate NoTies(all: set<Op>) { forall a, b :: a in all && b in all ==> !Tie(a, b) }

  // Without ties the counter is a function of eid and update time.
  lemma CountersOf(all: set<Op>) returns (u: Counters)
    requires NoTies(all)
    ensures forall op :: op in all ==> OpOk(u, op)
  {
    var ops := set op | op in all && Parses(op);
    u := map op | op in ops :: (op.eid, Stamp(op)) := op.ctr;
    forall op | op in ops
      ensures Known(u, op.eid, RowOf(op))
    {
      assert (op.eid, Stamp(op)) in u;
      var o :| o in ops && (o.eid, Stamp(o)) == (op.eid, Stamp(op)) && u[(op.eid, Stamp(op))] == o.ctr;
      assert !Tie(o, op) && !Tie(op, o);
    }
  }

  lemma OverAllowed(all: set<Op>, u: Counters, states: seq<Cache>, steps: seq<Step>)
    requires RunOver(all, states, steps) && forall op :: op in all ==> OpOk(u, op)
    ensures AllowedRun(u, states, steps)
  {
    var optimistic, durable, init :| OpensWith(all, states[0], optimistic, durable, init);
    forall e | e in durable
      ensures Known(u, e, durable[e])
    {
      var op :| op in all && Parses(op) && op.eid == e && RowOf(op) == durable[e];
      assert OpOk(u, op);
    }
    assert OpenedAs(u, states[0], optimistic, durable, init);
    forall i | 0 <= i < |steps|
      ensures Allowed(u, states[i], steps[i])
    {
      assert forall op :: op in OpsAt(steps[i]) ==> op in all;
    }
  }

  ghost predicate AlwaysAgrees(all: set<Op>) {
    forall states, steps, i :: RunOver(all, states, steps) && 0 <= i < |states| && Quiet(states[i]) ==> Agrees(states[i])
  }

  // Every run over some ops agrees whenever nothing is outstanding, exactly
  // when no two of them with one eid and one update time differ in counter.
  lemma AgreementExactly(all: set<Op>)
    ensures AlwaysAgrees(all) <==> NoTies(all)
  {
    if NoTies(all) {
      var u := CountersOf(all);
      forall states, steps, i | RunOver(all, states, steps) && 0 <= i < |states| && Quiet(states[i])
        ensures Agrees(states[i])
      {
        OverAllowed(all, u, states, steps);
        Agreement(u, states, steps, i);
      }
    } else {
      var a, b :| a in all && b in all && Tie(a, b);
      var states, steps := TieDisagrees(a, b);
      assert OpensWith(all, states[0], true, map[a.eid := RowOf(a)], {});
      assert RunOver(all, states, steps);
    }
  }
}
