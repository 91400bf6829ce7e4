// What every step of the cache keeps: rows never move back, whatever is ahead
// of the durable store is queued to be persisted, and whatever is behind it is
// owed a pull.

module CacheInv {
  import opened Basics
  import opened Lww
  import opened CacheState

  // Eid and update time determine the counter: U says which.
  type Counters = map<(Eid, int), nat>

  predicate Known(u: Counters, e: Eid, row: Row) {
    row.eid == e && e.time.At? && (e, row.updatedAt) in u && u[(e, row.updatedAt)] == row.ctr
  }

  ghost predicate StoreOk(u: Counters, s: Store) { forall e :: e in s ==> Known(u, e, s[e]) }

  predicate OpOk(u: Counters, op: Op) { Parses(op) ==> Known(u, op.eid, RowOf(op)) }

  // b is a row at least as new as a; no row is older than any.
  predicate NotNewer(a: Option<Row>, b: Option<Row>) {
    a.Some? ==> b.Some? && a.value.updatedAt <= b.value.updatedAt
  }

  ghost predicate Grows(s: Store, s': Store) { forall e :: NotNewer(Find(s, e), Find(s', e)) }

  // The same row, or a strictly newer one; anything after no row.
  predicate Precedes(a: Option<Row>, b: Option<Row>) {
    a.Some? ==> b.Some? && (a == b || a.value.updatedAt < b.value.updatedAt)
  }

  ghost predicate Advances(s: Store, s': Store) { forall e :: Precedes(Find(s, e), Find(s', e)) }

  /* ---- Who owes a pull ---- */

  // The job will install the durable row of e as it is now.
  predicate WillPull(job: Job, durable: Store, e: Eid) {
    job.Pull? && e in job.rest && (e == job.rest[0] && job.got.Some? ==> job.got.value == Find(durable, e))
  }

  predicate OwesPull(c: Cache, j: nat, e: Eid) {
    j < |c.chain| && WillPull(c.chain[j], c.durable, e) && c.chain[j].guard.None?
  }

  ghost predicate PeerOwed(c: Cache, e: Eid) { e in c.owed || exists j: nat :: OwesPull(c, j, e) }

  // mem has the durable row of e, or a strictly newer one.
  predicate Settled(c: Cache, e: Eid) { Precedes(Find(c.durable, e), Find(c.mem, e)) }

  ghost predicate Owing(c: Cache, e: Eid) { Settled(c, e) || PeerOwed(c, e) }

  // The job was queued by an apply that saw mem as it still is at e, and
  // pulls e unless it is the newest there.
  predicate OwesLocal(c: Cache, j: nat, e: Eid) {
    && j < |c.chain|
    && match c.chain[j]
       case Persist(ops, snap) =>
         snap.Some? && e in Eids(ops) && e in snap.value && snap.value[e] == StampOf(Find(c.mem, e))
       case Pull(rest, guard, _) =>
         && guard.Some? && e in guard.value && guard.value[e] == StampOf(Find(c.mem, e))
         && WillPull(c.chain[j], c.durable, e)
  }

  ghost predicate LocalOwed(c: Cache, e: Eid) { exists j: nat :: OwesLocal(c, j, e) }

  /* ---- The invariant ---- */

  // A row read earlier: still the durable one, or e is owing anyway.
  ghost predicate GotOk(u: Counters, c: Cache, e: Eid, row: Option<Row>) {
    && Precedes(row, Find(c.durable, e))
    && (row.Some? ==> Known(u, e, row.value))
    && (row == Find(c.durable, e) || Owing(c, e))
  }

  // What an optimistic apply saw in mem covers its own ops.
  predicate Seen(c: Cache, op: Op, snap: Snap) {
    && op.eid in snap
    && (Parses(op) ==>
          && op.eid in c.mem && Stamp(op) <= c.mem[op.eid].updatedAt
          && snap[op.eid].Some? && Stamp(op) <= snap[op.eid].value.0)
  }

  ghost predicate JobInv(u: Counters, c: Cache, j: nat)
    requires j < |c.chain|
  {
    match c.chain[j]
    case Persist(ops, snap) =>
      && (forall op :: op in ops ==> OpOk(u, op))
      && (snap.Some? <==> c.optimistic)
      && (snap.Some? ==> forall op :: op in ops ==> Seen(c, op, snap.value))
    case Pull(rest, guard, got) =>
      && (forall i, k :: 0 <= i < k < |rest| ==> rest[i] != rest[k])
      && (forall e :: e in rest ==> e in c.durable || e.time.Bad?)
      && (guard.Some? ==> forall e :: e in rest ==> e in guard.value)
      && (got.Some? ==> j == 0 && rest != [] && GotOk(u, c, rest[0], got.value)
                        && (got.value.None? ==> rest[0].time.Bad?))
  }

  ghost predicate ChainInv(u: Counters, c: Cache) { forall j: nat :: j < |c.chain| ==> JobInv(u, c, j) }

  ghost predicate ReadInv(u: Counters, c: Cache, r: Read) {
    match r
    case RowGot(e, row) => GotOk(u, c, e, row)
    case ListGot(typ, rows) =>
      && (forall e :: e in rows ==> GotOk(u, c, e, Some(rows[e])))
      && (forall e :: e in LiveOf(c.durable, typ) ==> e in rows || e in c.mem || PeerOwed(c, e))
    case _ => true
  }

  ghost predicate ReadsInv(u: Counters, c: Cache) { forall id :: id in c.reading ==> ReadInv(u, c, c.reading[id]) }

  // The ops that are queued to be persisted, in the order of the chain.
  function Queued(chain: seq<Job>): seq<Op>
    decreases |chain|
  {
    if chain == [] then []
    else Queued(chain[..|chain| - 1]) + OpsIn(chain[|chain| - 1])
  }

  function OpsIn(job: Job): seq<Op> { if job.Persist? then job.ops else [] }

  // The row of the first op on e with this update time: it keeps later ones out.
  function FirstAt(ops: seq<Op>, e: Eid, t: int): Option<Row>
    decreases |ops|
  {
    if ops == [] then None
    else
      var first, op := FirstAt(ops[..|ops| - 1], e, t), ops[|ops| - 1];
      if first.Some? then first else if op.eid == e && Parses(op) && Stamp(op) == t then Some(RowOf(op)) else None
  }

  ghost predicate Ahead(c: Cache, e: Eid) {
    e in c.mem && !NotNewer(Some(c.mem[e]), Find(c.durable, e))
  }

  // A row newer than the durable one is queued to be persisted, before any
  // other with its update time.
  predicate QueuedFirst(c: Cache, e: Eid) {
    e in c.mem && FirstAt(Queued(c.chain), e, c.mem[e].updatedAt) == Some(c.mem[e])
  }

  ghost predicate AheadInv(c: Cache) { forall e :: Ahead(c, e) ==> QueuedFirst(c, e) }

  // A row that is neither the durable one nor newer is owed a pull.
  ghost predicate BehindInv(c: Cache) {
    forall e :: e in c.mem ==> Owing(c, e) || LocalOwed(c, e)
  }

  // A type warmed by reading it has every live durable row in mem, or owed.
  ghost predicate LoadedInv(c: Cache) {
    forall typ, e :: typ in c.loaded && e in LiveOf(c.durable, typ) ==> e in c.mem || PeerOwed(c, e)
  }

  ghost predicate Inv(u: Counters, c: Cache) {
    && StoreOk(u, c.mem) && StoreOk(u, c.durable)
    && ChainInv(u, c) && ReadsInv(u, c)
    && AheadInv(c) && BehindInv(c) && LoadedInv(c)
  }

  /* ---- What no step undoes ---- */

  ghost predicate Later(c: Cache, c': Cache) {
    && Grows(c.mem, c'.mem) && Advances(c.durable, c'.durable) && c'.optimistic == c.optimistic
    && (forall e :: Owing(c, e) ==> Owing(c', e))
    && (forall e :: Find(c.durable, e) != Find(c'.durable, e) ==> Owing(c', e))
  }

  lemma GotLater(u: Counters, c: Cache, c': Cache, e: Eid, row: Option<Row>)
    requires Later(c, c') && GotOk(u, c, e, row)
    ensures GotOk(u, c', e, row)
  {
    assert Precedes(Find(c.durable, e), Find(c'.durable, e));
  }

  lemma JobLater(u: Counters, c: Cache, j: nat, c': Cache, j': nat)
    requires Later(c, c') && j < |c.chain| && j' < |c'.chain| && c'.chain[j'] == c.chain[j] && JobInv(u, c, j)
    requires c.chain[j].Pull? && c.chain[j].got.Some? ==> j' == 0
    ensures JobInv(u, c', j')
  {
    match c.chain[j]
    case Persist(ops, snap) =>
      if snap.Some? {
        forall op | op in ops
          ensures Seen(c', op, snap.value)
        {
          assert Seen(c, op, snap.value);
          assert NotNewer(Find(c.mem, op.eid), Find(c'.mem, op.eid));
        }
      }
    case Pull(rest, guard, got) =>
      forall e | e in rest
        ensures e in c'.durable || e.time.Bad?
      {
        assert Precedes(Find(c.durable, e), Find(c'.durable, e));
      }
      if got.Some? { GotLater(u, c, c', rest[0], got.value); }
  }
}
