// EntIDB (web/src/entdb/idb.ts): the durable store. One batch is grouped by
// eid, each group is folded in memory, and only its final row is written.

module EntIdb {
  import opened Basics
  import opened Lww

  // A row as stored: absent fields stand for defaults.
  datatype Stored =
    | StoredEnt(eid: Eid, bod: Option<seq<byte>>, crd: int, cnt: Option<nat>, pid: Option<seq<byte>>, tgs: seq<string>,
                typ: string, upd: int)
    | StoredTomb(eid: Eid, upd: int, cnt: Option<nat>)

  type Table = map<Eid, Stored>

  function RowToStored(row: Row): Stored {
    var cnt := if row.ctr != 0 then Some(row.ctr) else None;
    match row
    case Live(e, c, createdAt, updatedAt, _) => StoredEnt(e, c.body, createdAt, cnt, c.pid, c.tags, c.typ, updatedAt)
    case Tomb(e, updatedAt, _) => StoredTomb(e, updatedAt, cnt)
  }

  // An empty parent reads back as no parent.
  function StoredToRow(stored: Stored): Row {
    var ctr := if stored.cnt.Some? then stored.cnt.value else 0;
    match stored
    case StoredEnt(e, bod, crd, _, pid, tgs, typ, upd) =>
      Live(e, Content(typ, if pid == Some([]) then None else pid, tgs, bod), crd, upd, ctr)
    case StoredTomb(e, upd, _) => Tomb(e, upd, ctr)
  }

  // Storing a row keeps all of it exactly when it has no empty parent.
  lemma StoredRoundTrip(row: Row)
    ensures StoredToRow(RowToStored(row)) == TrimRow(row)
    ensures TrimRow(row) == row <==> !(row.Live? && row.content.pid == Some([]))
  {
    if row.Live? && row.content.pid == Some([]) { assert TrimRow(row).content.pid != row.content.pid; }
  }

  function TrimRow(row: Row): Row {
    if row.Live? && row.content.pid == Some([]) then row.(content := row.content.(pid := None)) else row
  }

  function Rows(table: Table): Store { map e | e in table :: StoredToRow(table[e]) }

  // Find, as the store reads it back.
  function Trim(row: Option<Row>): Option<Row> { if row.Some? then Some(TrimRow(row.value)) else None }

  /* ---- Ops of one eid among others ---- */

  // Ops of other eids do not touch the row of e.
  lemma {:induction false} Untouched(s: Store, ops: seq<Op>, e: Eid, i: nat, j: nat)
    requires i <= j <= |ops| && forall k :: i <= k < j ==> ops[k].eid != e
    ensures Find(ApplyAll(s, ops[..j]), e) == Find(ApplyAll(s, ops[..i]), e)
    decreases j
  {
    if i < j {
      Untouched(s, ops, e, i, j - 1);
      ApplyAllStep(s, ops, j - 1);
    }
  }

  // Op i of the batch reports type t when applied one by one.
  ghost predicate Reports(s: Store, ops: seq<Op>, i: nat, t: string) {
    i < |ops| && t in TypesOne(ApplyAll(s, ops[..i]), ops[i])
  }

  lemma ReportsBefore(s: Store, ops: seq<Op>, i: nat, t: string)
    requires i < |ops| - 1
    ensures Reports(s, ops[..|ops| - 1], i, t) <==> Reports(s, ops, i, t)
  {
    assert ops[..|ops| - 1][..i] == ops[..i];
  }

  lemma {:induction false} TypesAt(s: Store, ops: seq<Op>, t: string)
    ensures t in Types(s, ops) <==> exists i: nat :: Reports(s, ops, i, t)
    decreases |ops|
  {
    if ops != [] {
      var init := ops[..|ops| - 1];
      TypesAt(s, init, t);
      if i: nat :| Reports(s, init, i, t) { ReportsBefore(s, ops, i, t); }
      if i: nat :| Reports(s, ops, i, t) {
        if i < |init| { ReportsBefore(s, ops, i, t); }
      }
      assert t in TypesOne(ApplyAll(s, init), ops[|init|]) <==> Reports(s, ops, |init|, t);
    }
  }

  // g lists the indexes below n of the ops on e, in order.
  ghost predicate IsGroup(ops: seq<Op>, n: nat, e: Eid, g: seq<nat>)
    requires n <= |ops|
  {
    && (forall k :: 0 <= k < |g| ==> g[k] < n && ops[g[k]].eid == e)
    && (forall j, k :: 0 <= j < k < |g| ==> g[j] < g[k])
    && (forall i :: 0 <= i < n && ops[i].eid == e ==> i in g)
  }

  // Between two members of its group, and after the last, e is untouched.
  lemma GroupGap(s: Store, ops: seq<Op>, e: Eid, g: seq<nat>, k: nat)
    requires IsGroup(ops, |ops|, e, g) && k < |g|
    ensures var next := if k + 1 < |g| then g[k + 1] else |ops|;
            Find(ApplyAll(s, ops[..next]), e) == Find(ApplyAll(s, ops[..g[k] + 1]), e)
  {
    var next := if k + 1 < |g| then g[k + 1] else |ops|;
    forall i | g[k] + 1 <= i < next
      ensures ops[i].eid != e
    {
    }
    Untouched(s, ops, e, g[k] + 1, next);
  }

  lemma GroupStart(s: Store, ops: seq<Op>, e: Eid, g: seq<nat>)
    requires IsGroup(ops, |ops|, e, g) && g != []
    ensures Find(ApplyAll(s, ops[..g[0]]), e) == Find(s, e)
  {
    forall i | 0 <= i < g[0]
      ensures ops[i].eid != e
    {
    }
    Untouched(s, ops, e, 0, g[0]);
  }

  method GroupOps(ops: seq<Op>) returns (groups: map<Eid, seq<nat>>)
    ensures forall e :: e in groups <==> exists i :: 0 <= i < |ops| && ops[i].eid == e
    ensures forall e :: e in groups ==> groups[e] != [] && IsGroup(ops, |ops|, e, groups[e])
  {
    groups := map[];
    for n := 0 to |ops|
      invariant forall e :: e in groups <==> exists i :: 0 <= i < n && ops[i].eid == e
      invariant forall e :: e in groups ==> groups[e] != [] && IsGroup(ops, n, e, groups[e])
    {
      var e := ops[n].eid;
      if e in groups {
        groups := groups[e := groups[e] + [n]];
      } else {
        groups := groups[e := [n]];
      }
    }
  }

  // Where the fold of a group stands before its k-th member.
  function Upto(ops: seq<Op>, g: seq<nat>, k: nat): nat { if k < |g| then g[k] else |ops| }

  // What one member does, read off the row of e alone.
  lemma GroupStep(s: Store, ops: seq<Op>, e: Eid, g: seq<nat>, k: nat)
    requires IsGroup(ops, |ops|, e, g) && k < |g|
    ensures Upto(ops, g, k + 1) <= |ops|
    ensures var (i, curr) := (g[k], Find(ApplyAll(s, ops[..g[k]]), e));
            match ApplyOp(curr, ops[i])
            case Err(status) =>
              && Statuses(s, ops)[i] == status && TypesOne(ApplyAll(s, ops[..i]), ops[i]) == {}
              && Find(ApplyAll(s, ops[..Upto(ops, g, k + 1)]), e) == curr
            case Ok(next) =>
              && Statuses(s, ops)[i] == Success && TypesOne(ApplyAll(s, ops[..i]), ops[i]) == TypesChanged(curr, next)
              && Find(ApplyAll(s, ops[..Upto(ops, g, k + 1)]), e) == Some(next)
  {
    StatusAt(s, ops, g[k]);
    ApplyAllStep(s, ops, g[k]);
    GroupGap(s, ops, e, g, k);
  }

  // Types reported by the first k members of a group.
  ghost predicate SomeReports(s: Store, ops: seq<Op>, g: seq<nat>, k: nat, t: string)
    requires k <= |g|
  {
    exists j :: 0 <= j < k && Reports(s, ops, g[j], t)
  }

  ghost predicate SomeSucceeds(s: Store, ops: seq<Op>, g: seq<nat>, k: nat)
    requires k <= |g| && forall j :: 0 <= j < |g| ==> g[j] < |ops|
  {
    exists j :: 0 <= j < k && Statuses(s, ops)[g[j]] == Success
  }

  lemma SomeStep(s: Store, ops: seq<Op>, g: seq<nat>, k: nat)
    requires k < |g| && forall j :: 0 <= j < |g| ==> g[j] < |ops|
    ensures forall t :: SomeReports(s, ops, g, k + 1, t) <==> SomeReports(s, ops, g, k, t) || Reports(s, ops, g[k], t)
    ensures SomeSucceeds(s, ops, g, k + 1) <==> SomeSucceeds(s, ops, g, k) || Statuses(s, ops)[g[k]] == Success
  {
  }

  // The statuses of the first k members are in.
  ghost predicate ResultsUpto(s: Store, ops: seq<Op>, g: seq<nat>, results0: seq<Status>, k: nat, results: seq<Status>)
    requires k <= |g| && |results0| == |ops|
  {
    |results| == |ops| && forall i :: 0 <= i < |ops| ==> results[i] == if i in g[..k] then Statuses(s, ops)[i] else results0[i]
  }

  lemma ResultsMore(s: Store, ops: seq<Op>, g: seq<nat>, results0: seq<Status>, k: nat, results: seq<Status>)
    requires k < |g| && g[k] < |ops| && |results0| == |ops| && ResultsUpto(s, ops, g, results0, k, results)
    requires forall j :: 0 <= j < k ==> g[j] != g[k]
    ensures ResultsUpto(s, ops, g, results0, k + 1, results[g[k] := Statuses(s, ops)[g[k]]])
    ensures results[g[k]] == results0[g[k]]
  {
    assert g[..k + 1] == g[..k] + [g[k]];
  }

  // The fold over a group, after its first k members.
  ghost predicate FoldedUpto(s: Store, ops: seq<Op>, e: Eid, g: seq<nat>, results0: seq<Status>, k: nat, curr: Option<Row>,
                             groupChanged: bool, types: set<string>, results: seq<Status>)
    requires IsGroup(ops, |ops|, e, g) && k <= |g| && |results0| == |ops|
  {
    && Upto(ops, g, k) <= |ops| && curr == Find(ApplyAll(s, ops[..Upto(ops, g, k)]), e)
    && ResultsUpto(s, ops, g, results0, k, results)
    && (groupChanged <==> SomeSucceeds(s, ops, g, k))
    && (forall t :: t in types <==> SomeReports(s, ops, g, k, t))
  }

  method FoldOne(ghost s: Store, ops: seq<Op>, ghost e: Eid, g: seq<nat>, ghost results0: seq<Status>, k: nat,
                 curr0: Option<Row>, groupChanged0: bool, types0: set<string>, results1: seq<Status>)
    returns (curr: Option<Row>, groupChanged: bool, types: set<string>, results: seq<Status>)
    requires IsGroup(ops, |ops|, e, g) && k < |g| && |results0| == |ops|
    requires forall k :: 0 <= k < |g| ==> results0[g[k]] == Success
    requires FoldedUpto(s, ops, e, g, results0, k, curr0, groupChanged0, types0, results1)
    ensures FoldedUpto(s, ops, e, g, results0, k + 1, curr, groupChanged, types, results)
  {
    curr, groupChanged, types, results := curr0, groupChanged0, types0, results1;
    var i := g[k];
    GroupStep(s, ops, e, g, k);
    SomeStep(s, ops, g, k);
    ResultsMore(s, ops, g, results0, k, results);
    assert Statuses(s, ops)[i] == Success ==> results[i := Success] == results;
    match ApplyOp(curr, ops[i])
    case Err(status) =>
      results := results[i := status];
    case Ok(next) =>
      groupChanged := true;
      types := types + TypesChanged(curr, next);
      curr := Some(next);
  }

  // The fold over one group.
  method RunGroup(ghost s: Store, ops: seq<Op>, e: Eid, g: seq<nat>, start: Option<Row>, results0: seq<Status>)
    returns (curr: Option<Row>, groupChanged: bool, types: set<string>, results: seq<Status>)
    requires IsGroup(ops, |ops|, e, g) && g != [] && |results0| == |ops| && start == Find(s, e)
    requires forall k :: 0 <= k < |g| ==> results0[g[k]] == Success
    ensures curr == Find(ApplyAll(s, ops), e)
    ensures |results| == |ops|
    ensures forall i :: 0 <= i < |ops| ==> results[i] == if i in g then Statuses(s, ops)[i] else results0[i]
    ensures groupChanged <==> SomeSucceeds(s, ops, g, |g|)
    ensures forall t :: t in types <==> SomeReports(s, ops, g, |g|, t)
  {
    curr, groupChanged, types, results := start, false, {}, results0;
    GroupStart(s, ops, e, g);
    for k := 0 to |g|
      invariant FoldedUpto(s, ops, e, g, results0, k, curr, groupChanged, types, results)
    {
      curr, groupChanged, types, results := FoldOne(s, ops, e, g, results0, k, curr, groupChanged, types, results);
    }
    assert g[..|g|] == g && ops[..|ops|] == ops;
  }

  // What a fold found, for the whole batch.
  lemma GroupMeans(s: Store, ops: seq<Op>, e: Eid, g: seq<nat>)
    requires IsGroup(ops, |ops|, e, g)
    ensures forall i :: 0 <= i < |ops| ==> (i in g <==> ops[i].eid == e)
    ensures SomeSucceeds(s, ops, g, |g|) <==> e in Changed(s, ops)
    ensures forall t :: SomeReports(s, ops, g, |g|, t) <==> exists i: nat :: Reports(s, ops, i, t) && ops[i].eid == e
  {
    ChangedExactly(s, ops, e);
    forall t | exists i: nat :: Reports(s, ops, i, t) && ops[i].eid == e
      ensures SomeReports(s, ops, g, |g|, t)
    {
      var i: nat :| Reports(s, ops, i, t) && ops[i].eid == e;
      var j :| 0 <= j < |g| && g[j] == i;
      assert Reports(s, ops, g[j], t);
    }
    if i :| 0 <= i < |ops| && ops[i].eid == e && Statuses(s, ops)[i] == Success {
      var j :| 0 <= j < |g| && g[j] == i;
      assert Statuses(s, ops)[g[j]] == Success;
    }
  }

  /* ---- Groups done so far ---- */

  function EidSet(ops: seq<Op>): set<Eid> { set op | op in ops :: op.eid }

  ghost predicate TableDone(s: Store, ops: seq<Op>, table: Table, done: set<Eid>) {
    forall e :: Find(Rows(table), e) == if e in done then Trim(Find(ApplyAll(s, ops), e)) else Find(s, e)
  }

  ghost predicate StatsDone(s: Store, ops: seq<Op>, stats: seq<Status>, done: set<Eid>) {
    && |stats| == |ops|
    && forall i :: 0 <= i < |ops| ==> stats[i] == if ops[i].eid in done then Statuses(s, ops)[i] else Success
  }

  ghost predicate TypesDone(s: Store, ops: seq<Op>, types: set<string>, done: set<Eid>) {
    forall t :: t in types <==> exists i: nat :: Reports(s, ops, i, t) && ops[i].eid in done
  }

  ghost predicate EidsDone(s: Store, ops: seq<Op>, eids: seq<Eid>, done: set<Eid>) {
    && (forall e :: e in eids <==> e in done && e in Changed(s, ops))
    && (forall i, j :: 0 <= i < j < |eids| ==> eids[i] != eids[j])
  }

  lemma TableMore(s: Store, ops: seq<Op>, table: Table, done: set<Eid>, e: Eid, curr: Option<Row>)
    requires TableDone(s, ops, table, done) && e !in done && curr == Find(ApplyAll(s, ops), e)
    requires curr.None? ==> e !in table
    ensures TableDone(s, ops, if curr.Some? then table[e := RowToStored(curr.value)] else table, done + {e})
  {
    var table' := if curr.Some? then table[e := RowToStored(curr.value)] else table;
    forall x
      ensures Find(Rows(table'), x) == if x in done + {e} then Trim(Find(ApplyAll(s, ops), x)) else Find(s, x)
    {
      assert Find(Rows(table), x) == if x in done then Trim(Find(ApplyAll(s, ops), x)) else Find(s, x);
      if x == e && curr.Some? { StoredRoundTrip(curr.value); }
    }
  }

  lemma TypesMore(s: Store, ops: seq<Op>, types: set<string>, done: set<Eid>, e: Eid, more: set<string>)
    requires TypesDone(s, ops, types, done)
    requires forall t :: t in more <==> exists i: nat :: Reports(s, ops, i, t) && ops[i].eid == e
    ensures TypesDone(s, ops, types + more, done + {e})
  {
    forall t
      ensures t in types + more <==> exists i: nat :: Reports(s, ops, i, t) && ops[i].eid in done + {e}
    {
      if t in types { var i: nat :| Reports(s, ops, i, t) && ops[i].eid in done; }
      if t in more { var i: nat :| Reports(s, ops, i, t) && ops[i].eid == e; }
    }
  }

  lemma EidsMore(s: Store, ops: seq<Op>, eids: seq<Eid>, done: set<Eid>, e: Eid, changed: bool)
    requires EidsDone(s, ops, eids, done) && e !in done && (changed <==> e in Changed(s, ops))
    ensures EidsDone(s, ops, if changed then eids + [e] else eids, done + {e})
  {
  }

  // The fold over one group, in terms of the whole batch.
  method FoldGroup(ghost s: Store, ops: seq<Op>, e: Eid, g: seq<nat>, start: Option<Row>, stats: seq<Status>, ghost done: set<Eid>)
    returns (curr: Option<Row>, changed: bool, more: set<string>, stats': seq<Status>)
    requires IsGroup(ops, |ops|, e, g) && g != [] && start == Find(s, e)
    requires StatsDone(s, ops, stats, done) && e !in done
    ensures curr == Find(ApplyAll(s, ops), e) && (changed <==> e in Changed(s, ops))
    ensures StatsDone(s, ops, stats', done + {e})
    ensures forall t :: t in more <==> exists i: nat :: Reports(s, ops, i, t) && ops[i].eid == e
  {
    curr, changed, more, stats' := RunGroup(s, ops, e, g, start, stats);
    GroupMeans(s, ops, e, g);
  }

  // The store only grows, so a row that is there stays there.
  lemma {:induction false} RowStays(s: Store, ops: seq<Op>, e: Eid)
    requires e in s
    ensures e in ApplyAll(s, ops)
    decreases |ops|
  {
    if ops != [] { RowStays(s, ops[..|ops| - 1], e); }
  }

  lemma AllDone(s: Store, ops: seq<Op>, stats: seq<Status>, types: set<string>, done: set<Eid>)
    requires forall e :: e in done <==> exists i :: 0 <= i < |ops| && ops[i].eid == e
    requires StatsDone(s, ops, stats, done) && TypesDone(s, ops, types, done)
    ensures stats == Statuses(s, ops) && types == Types(s, ops)
  {
    forall t
      ensures t in types <==> t in Types(s, ops)
    {
      TypesAt(s, ops, t);
    }
  }

  // One group: get, fold, put.
  method DoGroup(ghost s: Store, ops: seq<Op>, e: Eid, group: seq<nat>, ghost done: set<Eid>,
                 table0: Table, stats0: seq<Status>, types0: set<string>, eids0: seq<Eid>)
    returns (table: Table, stats: seq<Status>, types: set<string>, eids: seq<Eid>)
    requires IsGroup(ops, |ops|, e, group) && group != [] && e !in done
    requires TableDone(s, ops, table0, done) && StatsDone(s, ops, stats0, done)
    requires TypesDone(s, ops, types0, done) && EidsDone(s, ops, eids0, done)
    ensures TableDone(s, ops, table, done + {e}) && StatsDone(s, ops, stats, done + {e})
    ensures TypesDone(s, ops, types, done + {e}) && EidsDone(s, ops, eids, done + {e})
  {
    table, types, eids := table0, types0, eids0;
    var curr := if e in table then Some(StoredToRow(table[e])) else None;
    assert curr == Find(Rows(table), e) == Find(s, e);
    var changed, more;
    curr, changed, more, stats := FoldGroup(s, ops, e, group, curr, stats0, done);
    TypesMore(s, ops, types, done, e, more);
    types := types + more;
    EidsMore(s, ops, eids, done, e, changed);
    if changed { eids := eids + [ops[group[0]].eid]; }
    if e in s { RowStays(s, ops, e); }
    TableMore(s, ops, table, done, e, curr);
    if curr.Some? { table := table[e := RowToStored(curr.value)]; }
  }

  lemma NoneDone(s: Store, ops: seq<Op>, table: Table, stats: seq<Status>)
    requires s == Rows(table) && stats == seq(|ops|, _ => Success)
    ensures TableDone(s, ops, table, {}) && StatsDone(s, ops, stats, {})
    ensures TypesDone(s, ops, {}, {}) && EidsDone(s, ops, [], {})
  {
  }

  // Group after group, in any order.
  method DoGroups(ghost s: Store, ops: seq<Op>, table0: Table, groups: map<Eid, seq<nat>>)
    returns (table: Table, stats: seq<Status>, types: set<string>, eids: seq<Eid>)
    requires s == Rows(table0)
    requires forall e :: e in groups ==> groups[e] != [] && IsGroup(ops, |ops|, e, groups[e])
    ensures TableDone(s, ops, table, groups.Keys) && StatsDone(s, ops, stats, groups.Keys)
    ensures TypesDone(s, ops, types, groups.Keys) && EidsDone(s, ops, eids, groups.Keys)
  {
    table, stats, types, eids := table0, seq(|ops|, _ => Success), {}, [];
    NoneDone(s, ops, table, stats);
    var todo := groups.Keys;
    ghost var done: set<Eid> := {};
    while todo != {}
      invariant todo <= groups.Keys && done == groups.Keys - todo
      invariant TableDone(s, ops, table, done) && StatsDone(s, ops, stats, done)
      invariant TypesDone(s, ops, types, done) && EidsDone(s, ops, eids, done)
    {
      var e :| e in todo;
      table, stats, types, eids := DoGroup(s, ops, e, groups[e], done, table, stats, types, eids);
      todo, done := todo - {e}, done + {e};
    }
    assert done == groups.Keys;
  }

  lemma BatchEids(ops: seq<Op>, keys: set<Eid>)
    requires forall e :: e in keys <==> exists i :: 0 <= i < |ops| && ops[i].eid == e
    ensures keys == EidSet(ops)
  {
  }

  method ApplyTable(table0: Table, ops: seq<Op>) returns (table: Table, stats: seq<Status>, types: set<string>, eids: seq<Eid>)
    ensures TableDone(Rows(table0), ops, table, EidSet(ops))
    ensures stats == Statuses(Rows(table0), ops) && types == Types(Rows(table0), ops)
    ensures EidsDone(Rows(table0), ops, eids, EidSet(ops))
  {
    var groups := GroupOps(ops);
    table, stats, types, eids := DoGroups(Rows(table0), ops, table0, groups);
    AllDone(Rows(table0), ops, stats, types, groups.Keys);
    BatchEids(ops, groups.Keys);
  }

  class EntIDB {
    var table: Table

    constructor ()
      ensures table == map[]
    {
      table := map[];
    }

    // Same rows, same status per op, same types and same eids as one by one.
    method Apply(ops: seq<Op>) returns (stats: seq<Status>, types: set<string>, eids: seq<Eid>)
      modifies this
      ensures TableDone(Rows(old(table)), ops, table, EidSet(ops))
      ensures stats == Statuses(Rows(old(table)), ops) && types == Types(Rows(old(table)), ops)
      ensures EidsDone(Rows(old(table)), ops, eids, EidSet(ops))
    {
      table, stats, types, eids := ApplyTable(table, ops);
    }
  }

  // In rows: the grouped batch leaves what applying one by one would, as the
  // store reads it back.
  lemma GroupedIsSequential(s: Store, ops: seq<Op>, table: Table)
    requires TableDone(s, ops, table, EidSet(ops))
    requires forall e :: e in s ==> TrimRow(s[e]) == s[e]
    ensures forall e :: Find(Rows(table), e) == Trim(Find(ApplyAll(s, ops), e))
    ensures (forall op :: op in ops && op.mutation.Some? ==> op.mutation.value.pid != Some([])) ==> Rows(table) == ApplyAll(s, ops)
  {
    forall e
      ensures Find(Rows(table), e) == Trim(Find(ApplyAll(s, ops), e))
    {
      if e !in EidSet(ops) {
        assert forall k :: 0 <= k < |ops| ==> ops[k].eid != e by {
          forall k | 0 <= k < |ops|
            ensures ops[k].eid != e
          {
            assert ops[k] in ops;
          }
        }
        Untouched(s, ops, e, 0, |ops|);
        assert ops[..|ops|] == ops && ops[..0] == [];
      }
    }
    if forall op :: op in ops && op.mutation.Some? ==> op.mutation.value.pid != Some([]) {
      Untrimmed(s, ops);
      forall e
        ensures Find(Rows(table), e) == Find(ApplyAll(s, ops), e)
      {
        assert Find(Rows(table), e) == Trim(Find(ApplyAll(s, ops), e));
      }
      SameFinds(Rows(table), ApplyAll(s, ops));
    }
  }

  lemma SameFinds(a: Store, b: Store)
    requires forall e :: Find(a, e) == Find(b, e)
    ensures a == b
  {
    assert forall e :: e in a ==> Find(b, e) == Some(a[e]);
    assert forall e :: e in b ==> Find(a, e) == Some(b[e]);
  }

  lemma {:induction false} Untrimmed(s: Store, ops: seq<Op>)
    requires forall e :: e in s ==> TrimRow(s[e]) == s[e]
    requires forall op :: op in ops && op.mutation.Some? ==> op.mutation.value.pid != Some([])
    ensures forall e :: e in ApplyAll(s, ops) ==> TrimRow(ApplyAll(s, ops)[e]) == ApplyAll(s, ops)[e]
    decreases |ops|
  {
    if ops != [] {
      assert forall op :: op in ops[..|ops| - 1] ==> op in ops;
      Untrimmed(s, ops[..|ops| - 1]);
    }
  }
}
