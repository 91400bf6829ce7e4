// CachedEntDB (web/src/entdb/cached.ts): the stretches of its methods between
// two awaits, on the object they update. Each does to mem and to the write
// chain what the step of the same name does in CacheState.

module EntCache {
  import opened Basics
  import opened Lww
  import opened EntQuery
  import opened EntMemory
  import opened CacheState

  // Field by field; a tombstone has no more fields than its stamp.
  predicate SameRow(a: Row, b: Row) {
    && a.Live? == b.Live? && a.ctr == b.ctr && a.updatedAt == b.updatedAt && a.eid == b.eid
    && (a.Live? ==>
          && a.createdAt == b.createdAt && a.content.typ == b.content.typ && a.content.pid == b.content.pid
          && a.content.tags == b.content.tags && a.content.body == b.content.body)
  }

  // Types of the rows that a reconcile replaced.
  function Noticed(curr: Option<Row>, next: Option<Row>): set<string> {
    if curr == next then {}
    else
      (if curr.Some? && curr.value.Live? then {curr.value.content.typ} else {}) +
      (if next.Some? && next.value.Live? then {next.value.content.typ} else {})
  }

  class CachedEntDB {
    const optimistic: bool
    const mem: EntDBMemory
    var warmed: set<string>
    var inflight: nat
    var chain: seq<Job>

    ghost predicate Valid()
      reads this, mem
    {
      mem.Valid() && inflight == Unfinished(chain)
    }

    // Optimistic applies whose persist has not finished.
    static function Unfinished(chain: seq<Job>): (n: nat)
      ensures n <= |chain|
    {
      if chain == [] then 0
      else Unfinished(chain[..|chain| - 1]) + (if Optimistic(chain[|chain| - 1]) then 1 else 0)
    }

    static predicate Optimistic(job: Job) {
      match job
      case Persist(_, snap) => snap.Some?
      case Pull(_, guard, _) => guard.Some?
    }

    static lemma UnfinishedSnoc(chain: seq<Job>, job: Job)
      ensures Unfinished(chain + [job]) == Unfinished(chain) + (if Optimistic(job) then 1 else 0)
    {
      assert (chain + [job])[..|chain|] == chain;
    }

    static lemma {:induction false} UnfinishedHead(job: Job, rest: seq<Job>)
      ensures Unfinished([job] + rest) == (if Optimistic(job) then 1 else 0) + Unfinished(rest)
      decreases |rest|
    {
      var all := [job] + rest;
      if rest == [] {
        assert all[..0] == [];
        assert all[0] == job;
      } else {
        assert all[..|all| - 1] == [job] + rest[..|rest| - 1];
        UnfinishedHead(job, rest[..|rest| - 1]);
      }
    }

    // The cache this object and the durable store stand for.
    ghost function View(durable: Store, reading: map<nat, Read>, loaded: set<string>, owed: set<Eid>): Cache
      reads this, mem
    {
      Cache(optimistic, mem.ents, durable, warmed, chain, reading, loaded, owed)
    }

    constructor (durable: Store, init: seq<Row>, optimistic: bool, indexes: bool)
      requires Normal(durable) && forall row :: row in init ==> row.Live? && row.eid in durable && durable[row.eid] == row
      ensures Valid() && fresh(mem)
      ensures View(durable, map[], {}, {}) == Open(optimistic, durable, set row | row in init :: row.eid)
      ensures (forall e :: e in mem.ents <==> exists row :: row in init && row.eid == e)
      ensures (forall row :: row in init ==> mem.ents[row.eid] == row)
      ensures (forall t :: t in warmed <==> exists row :: row in init && row.content.typ == t) && chain == []
    {
      this.optimistic := optimistic;
      var m := new EntDBMemory(init, indexes);
      mem := m;
      var types: set<string> := {};
      for i := 0 to |init|
        invariant types == set k | 0 <= k < i :: init[k].content.typ
      {
        types := types + {init[i].content.typ};
      }
      warmed, inflight, chain := types, 0, [];
      new;
      ghost var eids := set row | row in init :: row.eid;
      assert mem.ents == map e | e in eids :: durable[e];
      assert warmed == set e | e in eids :: durable[e].content.typ by {
        forall t | t in warmed
          ensures t in set e | e in eids :: durable[e].content.typ
        {
          var k :| 0 <= k < |init| && init[k].content.typ == t;
          assert init[k] in init && init[k].eid in eids;
        }
        forall e | e in eids
          ensures durable[e].content.typ in warmed
        {
          var row :| row in init && row.eid == e;
          var k :| 0 <= k < |init| && init[k] == row;
        }
      }
    }

    // apply: patch mem, take the stamps, queue the persist; all before the
    // first await.
    method Apply(ops: seq<Op>) returns (types: set<string>)
      requires Valid()
      modifies this`chain, this`inflight, mem
      ensures Valid()
      ensures forall durable, reading, loaded, owed ::
                View(durable, reading, loaded, owed) == ApplyStep(old(View(durable, reading, loaded, owed)), ops)
      ensures types == if optimistic then Types(old(mem.ents), ops) else {}
      ensures mem.ents == if optimistic then ApplyAll(old(mem.ents), ops) else old(mem.ents)
      ensures chain == old(chain) + [Persist(ops, if optimistic then Some(SnapOf(mem.ents, ops)) else None)]
    {
      types := {};
      var snap: Option<Snap> := None;
      if optimistic {
        var stats, eids;
        stats, types, eids := mem.Apply(ops);
        var stamps := Stamps(mem.ents, ops);
        snap := Some(stamps);
        inflight := inflight + 1;
      }
      UnfinishedSnoc(chain, Persist(ops, snap));
      chain := chain + [Persist(ops, snap)];
      forall durable, reading, loaded, owed
        ensures View(durable, reading, loaded, owed) == ApplyStep(old(View(durable, reading, loaded, owed)), ops)
      {
      }
    }

    static method Stamps(ents: Store, ops: seq<Op>) returns (stamps: Snap)
      ensures stamps == SnapOf(ents, ops)
    {
      stamps := map[];
      for i := 0 to |ops|
        invariant stamps == SnapOf(ents, ops[..i])
      {
        assert Eids(ops[..i + 1]) == Eids(ops[..i]) + [ops[i].eid];
        stamps := stamps[ops[i].eid := StampOf(Find(ents, ops[i].eid))];
      }
      assert ops[..|ops|] == ops;
    }

    // The persist job, once durable.apply has answered: what is left to pull.
    method Persisted(stats: seq<Status>)
      requires Valid() && chain != [] && chain[0].Persist? && |stats| == |chain[0].ops|
      modifies this`chain
      ensures Valid()
      ensures chain == [Pull(Distinct(if old(chain)[0].snap.Some? then Rejected(old(chain)[0].ops, stats)
                                      else Eids(old(chain)[0].ops)), old(chain)[0].snap, None)] + old(chain)[1..]
      ensures forall durable, reading, loaded, owed :: stats == Statuses(durable, old(chain)[0].ops) ==>
                View(ApplyAll(durable, old(chain)[0].ops), reading, loaded, owed) ==
                PersistStep(old(View(durable, reading, loaded, owed)))
    {
      var ops, snap := chain[0].ops, chain[0].snap;
      var pull: seq<Eid> := [];
      if snap.Some? {
        for i := 0 to |ops|
          invariant pull == Rejected(ops[..i], stats[..i])
        {
          assert ops[..i + 1][..i] == ops[..i] && stats[..i + 1][..i] == stats[..i];
          if stats[i] != Success { pull := pull + [ops[i].eid]; }
        }
        assert ops[..|ops|] == ops && stats[..|ops|] == stats;
      } else {
        pull := Eids(ops);
      }
      var rest := Unseen(pull);
      UnfinishedHead(chain[0], chain[1..]);
      assert chain == [chain[0]] + chain[1..];
      UnfinishedHead(Pull(rest, snap, None), chain[1..]);
      chain := [Pull(rest, snap, None)] + chain[1..];
    }

    // pullEids reads each eid once.
    static method Unseen(eids: seq<Eid>) returns (out: seq<Eid>)
      ensures out == Distinct(eids)
    {
      out := [];
      var seen: set<Eid> := {};
      for i := 0 to |eids|
        invariant out == Distinct(eids[..i]) && seen == set e | e in eids[..i]
      {
        assert eids[..i + 1][..i] == eids[..i];
        assert eids[..i + 1] == eids[..i] + [eids[i]];
        if eids[i] in seen { continue; }
        seen := seen + {eids[i]};
        out := out + [eids[i]];
      }
      assert eids[..|eids|] == eids;
    }

    // pullEids, after getRow has answered for the first eid of the pull.
    method PullMerged(row: Option<Row>) returns (changed: set<string>)
      requires Valid() && chain != [] && chain[0].Pull? && chain[0].rest != [] && chain[0].got == Some(row)
      requires row.Some? ==> row.value.eid == chain[0].rest[0] && (row.value.Live? ==> "" !in row.value.content.tags)
      modifies this`chain, mem
      ensures Valid()
      ensures forall durable, reading, loaded, owed ::
                View(durable, reading, loaded, owed) == MergeStep(old(View(durable, reading, loaded, owed)))
      ensures chain == [Pull(old(chain)[0].rest[1..], old(chain)[0].guard, None)] + old(chain)[1..]
      ensures mem.ents == PullOne(old(mem.ents), old(chain)[0].rest[0], row, old(chain)[0].guard)
      ensures changed == Noticed(old(Find(mem.ents, chain[0].rest[0])), Find(mem.ents, old(chain[0].rest[0])))
      ensures forall t :: t in changed <==>
                && old(Find(mem.ents, chain[0].rest[0])) != Find(mem.ents, old(chain[0].rest[0]))
                && (HasType(old(Find(mem.ents, chain[0].rest[0])), t) || HasType(Find(mem.ents, old(chain[0].rest[0])), t))
    {
      var job := chain[0];
      var key := job.rest[0];
      var curr := Find(mem.ents, key);
      changed := {};
      UnfinishedHead(job, chain[1..]);
      assert chain == [job] + chain[1..];
      UnfinishedHead(Pull(job.rest[1..], job.guard, None), chain[1..]);
      chain := [Pull(job.rest[1..], job.guard, None)] + chain[1..];
      if curr.Some? && row.Some? && RowWins(curr.value, row.value) { return; }
      if job.guard.Some? && StampOf(curr) != (if key in job.guard.value then job.guard.value[key] else None) { return; }
      if row.Some? {
        mem.Put(row.value);
        if curr.None? || !SameRow(curr.value, row.value) {
          if row.value.Live? { changed := changed + {row.value.content.typ}; }
          if curr.Some? && curr.value.Live? { changed := changed + {curr.value.content.typ}; }
        }
      } else if curr.Some? {
        mem.Remove(key);
        if curr.value.Live? { changed := changed + {curr.value.content.typ}; }
      }
    }

    // A job with nothing left to pull leaves the chain.
    method Finished()
      requires Valid() && chain != [] && chain[0].Pull? && chain[0].rest == []
      modifies this`chain, this`inflight
      ensures Valid()
      ensures forall durable, reading, loaded, owed ::
                View(durable, reading, loaded, owed) == Act(old(View(durable, reading, loaded, owed)), Finish)
      ensures chain == old(chain)[1..]
    {
      UnfinishedHead(chain[0], chain[1..]);
      assert chain == [chain[0]] + chain[1..];
      if chain[0].guard.Some? { inflight := inflight - 1; }
      chain := chain[1..];
    }

    method IngestFromDurable(eids: seq<Eid>)
      requires Valid()
      modifies this`chain
      ensures Valid()
      ensures forall durable, reading, loaded, owed ::
                View(durable, reading, loaded, owed - set e | e in eids) ==
                Act(old(View(durable, reading, loaded, owed)), Ingest(eids))
      ensures chain == old(chain) + [Pull(Distinct(eids), None, None)]
    {
      var rest := Unseen(eids);
      UnfinishedSnoc(chain, Pull(rest, None, None));
      chain := chain + [Pull(rest, None, None)];
    }

    // warmType, after getEntities has answered: a row goes in if mem has none
    // or an older one.
    method WarmMerged(typ: string, ents: seq<Row>)
      requires Valid() && forall row :: row in ents ==> row.Live? && "" !in row.content.tags
      requires forall i, j :: 0 <= i < j < |ents| ==> ents[i].eid != ents[j].eid
      modifies this`warmed, mem
      ensures Valid() && warmed == old(warmed) + {typ}
      ensures mem.ents == Install(old(mem.ents), ByEid(ents))
      ensures forall durable, reading: map<nat, Read>, loaded, owed, id ::
                id in reading && reading[id] == ListGot(typ, ByEid(ents)) ==>
                  View(durable, reading - {id}, loaded + {typ}, owed) ==
                  InstallStep(old(View(durable, reading, loaded, owed)), id)
    {
      for i := 0 to |ents|
        invariant Valid() && warmed == old(warmed)
        invariant mem.ents == Install(old(mem.ents), ByEid(ents[..i]))
      {
        var ent := ents[i];
        assert ents[..i + 1][..i] == ents[..i];
        ByEidKeys(ents[..i]);
        InstallMore(old(mem.ents), ByEid(ents[..i]), ent);
        if ent.eid !in mem.ents || RowWins(ent, mem.ents[ent.eid]) {
          mem.Put(ent);
        }
      }
      assert ents[..|ents|] == ents;
      warmed := warmed + {typ};
    }

    static lemma InstallMore(s: Store, rows: Store, ent: Row)
      requires ent.eid !in rows
      ensures Find(Install(s, rows), ent.eid) == Find(s, ent.eid)
      ensures Install(s, rows[ent.eid := ent]) ==
              if ent.eid !in s || RowWins(ent, s[ent.eid]) then Install(s, rows)[ent.eid := ent] else Install(s, rows)
    {
    }

    static function ByEid(rows: seq<Row>): Store
    {
      if rows == [] then map[] else ByEid(rows[..|rows| - 1])[rows[|rows| - 1].eid := rows[|rows| - 1]]
    }

    static lemma {:induction false} ByEidKeys(rows: seq<Row>)
      ensures forall e :: e in ByEid(rows) <==> exists i :: 0 <= i < |rows| && rows[i].eid == e
      decreases |rows|
    {
      if rows != [] {
        ByEidKeys(rows[..|rows| - 1]);
        assert rows[|rows| - 1].eid in ByEid(rows);
      }
    }

    // getRow, after the durable store has answered.
    method RowMerged(key: Eid, row: Option<Row>)
      requires Valid() && (row.Some? ==> row.value.eid == key && (row.value.Live? ==> "" !in row.value.content.tags))
      modifies mem
      ensures Valid()
      ensures forall durable, reading: map<nat, Read>, loaded, owed, id ::
                id in reading && reading[id] == RowGot(key, row) ==>
                  View(durable, reading - {id}, loaded, owed) == InstallStep(old(View(durable, reading, loaded, owed)), id)
      ensures mem.ents == if row.Some? then Install(old(mem.ents), map[key := row.value]) else old(mem.ents)
    {
      if row.Some? {
        if key !in mem.ents || RowWins(row.value, mem.ents[key]) { mem.Put(row.value); }
      }
    }
  }
}
