// The optimistic entity cache (web/src/entdb/cached.ts) as a step system: an
// in-memory store over a durable one that a peer also writes. Every await is
// a step of its own, so reading the durable store and merging what was read
// are two steps, with anything in between.

module CacheState {
  import opened Basics
  import opened Lww

  // Update time and counter of a row; None for no row.
  type RowStamp = Option<(int, nat)>

  type Snap = map<Eid, RowStamp>

  // A job on the write chain. Persist: durable.apply, not begun. Pull: the
  // eids still to reconcile, the stamps that must not have moved, and the row
  // read for the first of them.
  datatype Job =
    | Persist(ops: seq<Op>, snap: Option<Snap>)
    | Pull(rest: seq<Eid>, guard: Option<Snap>, got: Option<Option<Row>>)

  // A read off the chain: getRow of one eid, or a warm of one type.
  datatype Read =
    | RowOut(eid: Eid)
    | RowGot(eid: Eid, row: Option<Row>)
    | ListOut(typ: string)
    | ListGot(typ: string, rows: Store)

  datatype Cache = Cache(
    optimistic: bool,
    mem: Store,
    durable: Store,
    warmed: set<string>,
    chain: seq<Job>,
    reading: map<nat, Read>,
    // History, read by no step: types warmed by reading them, and eids the
    // peer wrote for which no ingest was called yet.
    loaded: set<string>,
    owed: set<Eid>)

  predicate RowWins(a: Row, b: Row) {
    if a.updatedAt != b.updatedAt then a.updatedAt > b.updatedAt else a.ctr > b.ctr
  }

  function StampOf(row: Option<Row>): RowStamp {
    match row
    case None => None
    case Some(r) => Some((r.updatedAt, r.ctr))
  }

  function Eids(ops: seq<Op>): seq<Eid> { seq(|ops|, i requires 0 <= i < |ops| => ops[i].eid) }

  // First occurrences, in order.
  function Distinct(eids: seq<Eid>): (out: seq<Eid>)
    ensures forall e :: e in out <==> e in eids
    ensures forall i, j :: 0 <= i < j < |out| ==> out[i] != out[j]
  {
    if eids == [] then []
    else
      var init, e := eids[..|eids| - 1], eids[|eids| - 1];
      assert eids == init + [e];
      if e in init then Distinct(init) else Distinct(init) + [e]
  }

  // Eids of the ops whose status is not Success.
  function Rejected(ops: seq<Op>, stats: seq<Status>): (out: seq<Eid>)
    requires |stats| == |ops|
    ensures forall e :: e in out <==> exists i :: 0 <= i < |ops| && stats[i] != Success && ops[i].eid == e
  {
    if ops == [] then []
    else
      var n := |ops| - 1;
      Rejected(ops[..n], stats[..n]) + (if stats[n] != Success then [ops[n].eid] else [])
  }

  function SnapOf(mem: Store, ops: seq<Op>): Snap { map e | e in Eids(ops) :: StampOf(Find(mem, e)) }

  // One eid of pullEids, once its durable row is known.
  function PullOne(mem: Store, e: Eid, row: Option<Row>, guard: Option<Snap>): Store {
    var curr := Find(mem, e);
    if curr.Some? && row.Some? && RowWins(curr.value, row.value) then mem
    else if guard.Some? && StampOf(curr) != (if e in guard.value then guard.value[e] else None) then mem
    else if row.Some? then mem[e := row.value]
    else mem - {e}
  }

  // getRow and warmType install a row that is missing or wins.
  function Install(mem: Store, rows: Store): Store {
    mem + map e | e in rows && (e !in mem || RowWins(rows[e], mem[e])) :: rows[e]
  }

  function LiveOf(s: Store, typ: string): Store {
    map e | e in s && s[e].Live? && s[e].content.typ == typ :: s[e]
  }

  datatype Step =
    | Apply(ops: seq<Op>)
    | Ingest(eids: seq<Eid>)
    | RunPersist
    | PullRead
    | PullMerge
    | Finish
    | AskRow(id: nat, eid: Eid)
    | AskList(id: nat, typ: string)
    | Fetch(id: nat)
    | Merge(id: nat)
    | PeerWrite(ops: seq<Op>)

  predicate HeadPulls(c: Cache) { c.chain != [] && c.chain[0].Pull? }

  predicate CanStep(c: Cache, step: Step) {
    match step
    case Apply(_) => true
    case Ingest(_) => true
    case RunPersist => c.chain != [] && c.chain[0].Persist?
    case PullRead => HeadPulls(c) && c.chain[0].rest != [] && c.chain[0].got.None?
    case PullMerge => HeadPulls(c) && c.chain[0].rest != [] && c.chain[0].got.Some?
    case Finish => HeadPulls(c) && c.chain[0].rest == []
    case AskRow(id, e) => id !in c.reading && e !in c.mem
    case AskList(id, typ) => id !in c.reading && typ !in c.warmed
    case Fetch(id) => id in c.reading && (c.reading[id].RowOut? || c.reading[id].ListOut?)
    case Merge(id) => id in c.reading && (c.reading[id].RowGot? || c.reading[id].ListGot?)
    case PeerWrite(_) => true
  }

  function ApplyStep(c: Cache, ops: seq<Op>): Cache {
    if c.optimistic then
      var mem := ApplyAll(c.mem, ops);
      c.(mem := mem, chain := c.chain + [Persist(ops, Some(SnapOf(mem, ops)))])
    else
      c.(chain := c.chain + [Persist(ops, None)])
  }

  function PersistStep(c: Cache): Cache
    requires CanStep(c, RunPersist)
  {
    var job := c.chain[0];
    var pull := if job.snap.Some? then Rejected(job.ops, Statuses(c.durable, job.ops)) else Eids(job.ops);
    c.(durable := ApplyAll(c.durable, job.ops), chain := [Pull(Distinct(pull), job.snap, None)] + c.chain[1..])
  }

  function ReadStep(c: Cache): Cache
    requires CanStep(c, PullRead)
  {
    var job := c.chain[0];
    c.(chain := [job.(got := Some(Find(c.durable, job.rest[0])))] + c.chain[1..])
  }

  function MergeStep(c: Cache): Cache
    requires CanStep(c, PullMerge)
  {
    var job := c.chain[0];
    c.(mem := PullOne(c.mem, job.rest[0], job.got.value, job.guard),
       chain := [Pull(job.rest[1..], job.guard, None)] + c.chain[1..])
  }

  function FetchStep(c: Cache, id: nat): Cache
    requires CanStep(c, Fetch(id))
  {
    match c.reading[id]
    case RowOut(e) => c.(reading := c.reading[id := RowGot(e, Find(c.durable, e))])
    case ListOut(typ) => c.(reading := c.reading[id := ListGot(typ, LiveOf(c.durable, typ))])
    case _ => c
  }

  function InstallStep(c: Cache, id: nat): Cache
    requires CanStep(c, Merge(id))
  {
    match c.reading[id]
    case RowGot(e, row) =>
      c.(mem := if row.Some? then Install(c.mem, map[e := row.value]) else c.mem, reading := c.reading - {id})
    case ListGot(typ, rows) =>
      c.(mem := Install(c.mem, rows), reading := c.reading - {id}, warmed := c.warmed + {typ}, loaded := c.loaded + {typ})
    case _ => c
  }

  function Act(c: Cache, step: Step): Cache
    requires CanStep(c, step)
  {
    match step
    case Apply(ops) => ApplyStep(c, ops)
    case Ingest(eids) => c.(chain := c.chain + [Pull(Distinct(eids), None, None)], owed := c.owed - set e | e in eids)
    case RunPersist => PersistStep(c)
    case PullRead => ReadStep(c)
    case PullMerge => MergeStep(c)
    case Finish => c.(chain := c.chain[1..])
    case AskRow(id, e) => c.(reading := c.reading[id := RowOut(e)])
    case AskList(id, typ) => c.(reading := c.reading[id := ListOut(typ)])
    case Fetch(id) => FetchStep(c, id)
    case Merge(id) => InstallStep(c, id)
    case PeerWrite(ops) =>
      c.(durable := ApplyAll(c.durable, ops), owed := c.owed + set e | e in Changed(c.durable, ops))
  }

  // A cache opened over a durable store, with some of its live rows handed in.
  function Open(optimistic: bool, durable: Store, init: set<Eid>): Cache
    requires init <= durable.Keys && forall e :: e in init ==> durable[e].Live?
  {
    var mem := map e | e in init :: durable[e];
    Cache(optimistic, mem, durable, set e | e in init :: durable[e].content.typ, [], map[], {}, {})
  }

  ghost predicate Run(states: seq<Cache>, steps: seq<Step>) {
    && |states| == |steps| + 1
    && forall i :: 0 <= i < |steps| ==> CanStep(states[i], steps[i]) && states[i + 1] == Act(states[i], steps[i])
  }
}
