// Last-writer-wins rendering (web/src/entdb/entdb.ts): one op against one row,
// a run of ops against a store, and what the run leaves behind.

module Lww {
  import opened Basics

  // What eidCodec reads out of the eid bytes: a creation time, or a failure.
  datatype EidTime = At(ms: int) | Bad(status: Failure)

  // An entity id: its bytes, and what they parse to.
  datatype Eid = Eid(bytes: seq<byte>, time: EidTime)

  datatype Content = Content(typ: string, pid: Option<seq<byte>>, tags: seq<string>, body: Option<seq<byte>>)

  // A delete carries no content.
  datatype Op = Op(eid: Eid, off: int, ctr: nat, mutation: Option<Content>)

  datatype Row =
    | Live(eid: Eid, content: Content, createdAt: int, updatedAt: int, ctr: nat)
    | Tomb(eid: Eid, updatedAt: int, ctr: nat)

  type Store = map<Eid, Row>

  /* ---- Tags ---- */

  // Some a comes in tags before any b.
  predicate Before(tags: seq<string>, a: string, b: string) {
    exists k :: 0 <= k < |tags| && tags[k] == a && b !in tags[..k + 1]
  }

  // Drops empty tags and repeats; the first occurrence stays.
  function NormTags(tags: seq<string>): (out: seq<string>)
    ensures forall t :: t in out <==> t in tags && t != ""
    ensures forall i, j :: 0 <= i < j < |out| ==> out[i] != out[j]
  {
    if tags == [] then []
    else
      var out := NormTags(tags[..|tags| - 1]);
      var t := tags[|tags| - 1];
      assert tags == tags[..|tags| - 1] + [t];
      if t == "" || t in out then out else out + [t]
  }

  lemma {:induction false} NormTagsOrder(tags: seq<string>, i: nat, j: nat)
    requires i < j < |NormTags(tags)|
    ensures Before(tags, NormTags(tags)[i], NormTags(tags)[j])
    decreases |tags|
  {
    var (n, out) := (|tags| - 1, NormTags(tags));
    var init := NormTags(tags[..n]);
    assert tags == tags[..n] + [tags[n]];
    if j < |init| {
      NormTagsOrder(tags[..n], i, j);
      var k :| 0 <= k < n && tags[..n][k] == out[i] && out[j] !in tags[..n][..k + 1];
      assert tags[..n][..k + 1] == tags[..k + 1];
    } else {
      assert init[i] in tags[..n] && out[j] !in tags[..n];
      var k :| 0 <= k < n && tags[k] == out[i];
      assert tags[..k + 1] == tags[..n][..k + 1];
    }
  }

  method NormalizeTags(tags: seq<string>) returns (out: seq<string>)
    ensures out == NormTags(tags)
  {
    var seen: set<string> := {};
    out := [];
    for i := 0 to |tags|
      invariant out == NormTags(tags[..i])
      invariant forall t :: t in seen <==> t in out
    {
      assert tags[..i + 1][..i] == tags[..i];
      var t := tags[i];
      if |t| == 0 || t in seen { continue; }
      seen := seen + {t};
      out := out + [t];
    }
    assert tags[..|tags|] == tags;
  }

  /* ---- One op ---- */

  predicate Parses(op: Op) { op.eid.time.At? }

  function Stamp(op: Op): int
    requires Parses(op)
  {
    op.eid.time.ms + op.off
  }

  // The row an op writes when it wins.
  function RowOf(op: Op): (row: Row)
    requires Parses(op)
    ensures row.eid == op.eid && row.updatedAt == Stamp(op) && row.ctr == op.ctr
  {
    match op.mutation
    case Some(c) =>
      Live(op.eid, c.(tags := NormTags(c.tags)), op.eid.time.ms, Stamp(op), op.ctr)
    case None =>
      Tomb(op.eid, Stamp(op), op.ctr)
  }

  function ApplyOp(curr: Option<Row>, op: Op): Result<Row>
  {
    match op.eid.time
    case Bad(status) => Err(status)
    case At(ms) =>
      if curr.Some? && ms + op.off <= curr.value.updatedAt then Err(NoChange)
      else Ok(RowOf(op))
  }

  function TypesChanged(curr: Option<Row>, next: Row): set<string> {
    (if curr.Some? && curr.value.Live? then {curr.value.content.typ} else {}) +
    (if next.Live? then {next.content.typ} else {})
  }

  /* ---- A run of ops ---- */

  function Find(s: Store, e: Eid): Option<Row> {
    if e in s then Some(s[e]) else None
  }

  function ApplyOne(s: Store, op: Op): Store {
    match ApplyOp(Find(s, op.eid), op)
    case Ok(row) => s[op.eid := row]
    case Err(_) => s
  }

  function StatusOne(s: Store, op: Op): Status {
    match ApplyOp(Find(s, op.eid), op)
    case Ok(_) => Success
    case Err(status) => status
  }

  function TypesOne(s: Store, op: Op): set<string> {
    match ApplyOp(Find(s, op.eid), op)
    case Ok(row) => TypesChanged(Find(s, op.eid), row)
    case Err(_) => {}
  }

  function ApplyAll(s: Store, ops: seq<Op>): Store
    decreases |ops|
  {
    if ops == [] then s
    else ApplyOne(ApplyAll(s, ops[..|ops| - 1]), ops[|ops| - 1])
  }

  function Statuses(s: Store, ops: seq<Op>): (stats: seq<Status>)
    ensures |stats| == |ops|
    decreases |ops|
  {
    if ops == [] then []
    else
      var init := ops[..|ops| - 1];
      Statuses(s, init) + [StatusOne(ApplyAll(s, init), ops[|ops| - 1])]
  }

  function Types(s: Store, ops: seq<Op>): set<string>
    decreases |ops|
  {
    if ops == [] then {}
    else
      var init := ops[..|ops| - 1];
      Types(s, init) + TypesOne(ApplyAll(s, init), ops[|ops| - 1])
  }

  // Eids of the ops that succeeded, in op order.
  function Changed(s: Store, ops: seq<Op>): seq<Eid>
    decreases |ops|
  {
    if ops == [] then []
    else
      var init := ops[..|ops| - 1];
      var op := ops[|ops| - 1];
      Changed(s, init) + (if StatusOne(ApplyAll(s, init), op) == Success then [op.eid] else [])
  }

  lemma ApplyAllStep(s: Store, ops: seq<Op>, i: nat)
    requires i < |ops|
    ensures ApplyAll(s, ops[..i + 1]) == ApplyOne(ApplyAll(s, ops[..i]), ops[i])
    ensures Statuses(s, ops[..i + 1]) == Statuses(s, ops[..i]) + [StatusOne(ApplyAll(s, ops[..i]), ops[i])]
    ensures Types(s, ops[..i + 1]) == Types(s, ops[..i]) + TypesOne(ApplyAll(s, ops[..i]), ops[i])
    ensures Changed(s, ops[..i + 1]) ==
            Changed(s, ops[..i]) + (if StatusOne(ApplyAll(s, ops[..i]), ops[i]) == Success then [ops[i].eid] else [])
  {
    assert ops[..i + 1][..i] == ops[..i];
  }

  // Splitting a run into batches does not change what it leaves.
  lemma {:induction false} ApplyAllSplit(s: Store, a: seq<Op>, b: seq<Op>)
    ensures ApplyAll(s, a + b) == ApplyAll(ApplyAll(s, a), b)
    decreases |b|
  {
    if b == [] {
      assert a + b == a;
    } else {
      var init := b[..|b| - 1];
      assert (a + b)[..|a + b| - 1] == a + init;
      ApplyAllSplit(s, a, init);
    }
  }

  /* ---- What a store renders ---- */

  // op wrote row, and nothing in ops for the same eid is newer.
  predicate Newest(op: Op, row: Row, ops: set<Op>) {
    && op in ops && Parses(op) && row == RowOf(op)
    && forall o :: o in ops && Parses(o) && o.eid == op.eid ==> Stamp(o) <= Stamp(op)
  }

  // The rows of s are exactly the newest ops of each eid in ops.
  ghost predicate Renders(s: Store, ops: set<Op>) {
    && (forall e :: e in s ==> s[e].eid == e && exists op :: Newest(op, s[e], ops))
    && (forall op :: op in ops && Parses(op) ==> op.eid in s)
  }

  lemma ApplyOneRenders(s: Store, ops: set<Op>, op: Op)
    requires Renders(s, ops)
    ensures Renders(ApplyOne(s, op), ops + {op})
  {
    var s', ops' := ApplyOne(s, op), ops + {op};
    forall e | e in s'
      ensures s'[e].eid == e && exists o :: Newest(o, s'[e], ops')
    {
      if e in s {
        var w :| Newest(w, s[e], ops);
        if s'[e] == s[e] {
          assert Newest(w, s'[e], ops');
        } else {
          assert e == op.eid && Newest(op, s'[e], ops');
        }
      } else {
        assert e == op.eid && Newest(op, s'[e], ops');
      }
    }
  }

  lemma {:induction false} ApplyAllRenders(s: Store, seen: set<Op>, ops: seq<Op>)
    requires Renders(s, seen)
    ensures Renders(ApplyAll(s, ops), seen + (set o | o in ops))
    decreases |ops|
  {
    if ops == [] {
      assert seen + (set o | o in ops) == seen;
    } else {
      var init, op := ops[..|ops| - 1], ops[|ops| - 1];
      assert ops == init + [op];
      ApplyAllRenders(s, seen, init);
      ApplyOneRenders(ApplyAll(s, init), seen + (set o | o in init), op);
      assert seen + (set o | o in init) + {op} == seen + (set o | o in ops);
    }
  }

  // Two different ops of one eid never carry the same update time.
  ghost predicate DistinctStamps(ops: set<Op>) {
    forall a, b :: a in ops && b in ops && Parses(a) && Parses(b) && a.eid == b.eid && Stamp(a) == Stamp(b) ==> a == b
  }

  // The newest ops of each eid all write the same row.
  ghost predicate NewestAgree(ops: set<Op>) {
    forall a, b | a in ops && b in ops && Parses(a) && Parses(b) && a.eid == b.eid
                  && Newest(a, RowOf(a), ops) && Newest(b, RowOf(b), ops) ::
      RowOf(a) == RowOf(b)
  }

  lemma RendersUnique(s: Store, t: Store, ops: set<Op>)
    requires Renders(s, ops) && Renders(t, ops) && NewestAgree(ops)
    ensures s == t
  {
    forall e | e in s
      ensures e in t && s[e] == t[e]
    {
      var a :| Newest(a, s[e], ops);
      var b :| Newest(b, t[e], ops);
    }
    forall e | e in t
      ensures e in s
    {
      var b :| Newest(b, t[e], ops);
    }
  }

  // The op that comes first among the newest wins: applyOp compares with <=.
  lemma {:induction false} FirstNewestWins(s: Store, op: Op, ops: seq<Op>)
    requires op.eid in s && Parses(op) && s[op.eid] == RowOf(op)
    requires forall o :: o in ops && Parses(o) && o.eid == op.eid ==> Stamp(o) <= Stamp(op)
    ensures op.eid in ApplyAll(s, ops) && ApplyAll(s, ops)[op.eid] == RowOf(op)
    decreases |ops|
  {
    if ops != [] {
      FirstNewestWins(s, op, ops[..|ops| - 1]);
    }
  }

  function Elems(ops: seq<Op>): set<Op> { set o | o in ops }

  // Any order, with any repeats, gives the same rows exactly when the newest
  // ops of each eid write the same row.
  lemma OrderIndependence(ops: seq<Op>)
    ensures (forall a: seq<Op>, b: seq<Op> :: Elems(a) == Elems(ops) == Elems(b) ==>
               ApplyAll(map[], a) == ApplyAll(map[], b))
            <==> NewestAgree(Elems(ops))
  {
    var all := Elems(ops);
    if NewestAgree(all) {
      forall a: seq<Op>, b: seq<Op> | Elems(a) == all == Elems(b)
        ensures ApplyAll(map[], a) == ApplyAll(map[], b)
      {
        ApplyAllRenders(map[], {}, a);
        ApplyAllRenders(map[], {}, b);
        assert {} + Elems(a) == all == {} + Elems(b);
        RendersUnique(ApplyAll(map[], a), ApplyAll(map[], b), all);
      }
    } else {
      var x, y :| x in all && y in all && Parses(x) && Parses(y) && x.eid == y.eid
                  && Newest(x, RowOf(x), all) && Newest(y, RowOf(y), all) && RowOf(x) != RowOf(y);
      LeadWins(x, ops);
      LeadWins(y, ops);
      assert Elems([x] + ops) == all == Elems([y] + ops);
    }
  }

  lemma LeadWins(op: Op, ops: seq<Op>)
    requires Parses(op) && Newest(op, RowOf(op), Elems(ops))
    ensures op.eid in ApplyAll(map[], [op] + ops)
    ensures ApplyAll(map[], [op] + ops)[op.eid] == RowOf(op)
  {
    ApplyAllSplit(map[], [op], ops);
    assert ApplyAll(map[], [op]) == ApplyOne(map[], op) by {
      assert [op][..0] == [];
    }
    forall o | o in ops && Parses(o) && o.eid == op.eid
      ensures Stamp(o) <= Stamp(op)
    {
      assert o in Elems(ops);
    }
    FirstNewestWins(ApplyAll(map[], [op]), op, ops);
  }

  // With distinct update times, order, repeats and batching never matter.
  lemma DistinctStampsConverge(a: seq<Op>, b: seq<Op>)
    requires Elems(a) == Elems(b) && DistinctStamps(Elems(a))
    ensures ApplyAll(map[], a) == ApplyAll(map[], b)
  {
    OrderIndependence(a);
    assert NewestAgree(Elems(a)) by {
      forall x, y | x in Elems(a) && y in Elems(a) && Parses(x) && Parses(y) && x.eid == y.eid
                    && Newest(x, RowOf(x), Elems(a)) && Newest(y, RowOf(y), Elems(a))
        ensures RowOf(x) == RowOf(y)
      {
        assert Stamp(x) == Stamp(y);
      }
    }
  }

  // A row only ever gives way to a strictly newer op. In particular a
  // tombstone is never undone by an older mutate.
  lemma {:induction false} NoResurrection(s: Store, ops: seq<Op>, e: Eid)
    requires e in s
    ensures e in ApplyAll(s, ops) && s[e].updatedAt <= ApplyAll(s, ops)[e].updatedAt
    ensures ApplyAll(s, ops)[e] != s[e] ==>
              exists op :: op in ops && op.eid == e && Parses(op) && Stamp(op) > s[e].updatedAt
                           && ApplyAll(s, ops)[e] == RowOf(op)
    decreases |ops|
  {
    if ops != [] {
      var init, op := ops[..|ops| - 1], ops[|ops| - 1];
      NoResurrection(s, init, e);
      assert forall o :: o in init ==> o in ops;
      if ApplyAll(s, ops)[e] != ApplyAll(s, init)[e] {
        assert op in ops && op.eid == e;
      }
    }
  }

  /* ---- What a row shows, field by field ---- */

  // The tags of a row: the tags that are not empty, each once, in the order of
  // their first occurrences.
  ghost predicate FirstsOf(out: seq<string>, tags: seq<string>) {
    && (forall t :: t in out <==> t in tags && t != "")
    && (forall i, j :: 0 <= i < j < |out| ==> out[i] != out[j] && Before(tags, out[i], out[j]))
  }

  // The row is what this op leaves: a tombstone for a delete, else a live row
  // with the op's content, created when its eid was.
  ghost predicate Shows(row: Row, op: Op) {
    && row.eid == op.eid && row.ctr == op.ctr
    && op.eid.time.At? && row.updatedAt == op.eid.time.ms + op.off
    && (row.Tomb? <==> op.mutation.None?)
    && (row.Live? ==>
          && row.createdAt == op.eid.time.ms
          && row.content.typ == op.mutation.value.typ && row.content.pid == op.mutation.value.pid
          && row.content.body == op.mutation.value.body && FirstsOf(row.content.tags, op.mutation.value.tags))
  }

  // One op: refused if its eid does not parse or the row is no older, else
  // shown.
  lemma ApplyOpMeans(curr: Option<Row>, op: Op)
    ensures match ApplyOp(curr, op)
            case Ok(row) => Shows(row, op) && (curr.Some? ==> curr.value.updatedAt < row.updatedAt)
            case Err(st) =>
              if op.eid.time.Bad? then st == op.eid.time.status
              else st == NoChange && curr.Some? && op.eid.time.ms + op.off <= curr.value.updatedAt
  {
    if op.mutation.Some? {
      forall i, j | 0 <= i < j < |NormTags(op.mutation.value.tags)| {
        NormTagsOrder(op.mutation.value.tags, i, j);
      }
    }
  }

  // A store that renders ops shows, for each eid, one of its newest ops.
  lemma RenderedShows(s: Store, ops: set<Op>, e: Eid) returns (op: Op)
    requires Renders(s, ops) && e in s
    ensures op in ops && op.eid == e && Shows(s[e], op)
    ensures forall o :: o in ops && Parses(o) && o.eid == e ==> Stamp(o) <= Stamp(op)
  {
    op :| Newest(op, s[e], ops);
    ApplyOpMeans(None, op);
  }

  // Op i wins its eid: nothing is newer, and what came before it is older.
  predicate Wins(ops: seq<Op>, i: nat) {
    && i < |ops| && Parses(ops[i])
    && forall j :: 0 <= j < |ops| && Parses(ops[j]) && ops[j].eid == ops[i].eid ==>
         Stamp(ops[j]) <= Stamp(ops[i]) && (j < i ==> Stamp(ops[j]) < Stamp(ops[i]))
  }

  // Every row is the winning op's, from an empty store on.
  lemma {:induction false} WinnerShows(ops: seq<Op>, e: Eid) returns (i: nat)
    requires e in ApplyAll(map[], ops)
    ensures Wins(ops, i) && ops[i].eid == e && Shows(ApplyAll(map[], ops)[e], ops[i])
    decreases |ops|
  {
    var n := |ops| - 1;
    var (init, op) := (ops[..n], ops[n]);
    if e in ApplyAll(map[], init) && ApplyAll(map[], ops)[e] == ApplyAll(map[], init)[e] {
      i := WinnerShows(init, e);
    } else {
      i := n;
      ApplyOpMeans(Find(ApplyAll(map[], init), e), op);
      if e in ApplyAll(map[], init) { var j := WinnerShows(init, e); }
      forall j | 0 <= j < n && Parses(ops[j]) && ops[j].eid == e
        ensures Stamp(ops[j]) < Stamp(op)
      {
        assert init[j].eid == e;
        EveryEid(init, j);
      }
    }
  }

  lemma {:induction false} EveryEid(ops: seq<Op>, i: nat)
    requires i < |ops| && Parses(ops[i])
    ensures ops[i].eid in ApplyAll(map[], ops)
    decreases |ops|
  {
    if i < |ops| - 1 { EveryEid(ops[..|ops| - 1], i); }
  }

  // An eid is dead exactly when the op that wins it is a delete, and live with
  // that op's content otherwise.
  lemma DeadExactly(ops: seq<Op>, i: nat)
    requires Wins(ops, i)
    ensures ops[i].eid in ApplyAll(map[], ops)
    ensures Shows(ApplyAll(map[], ops)[ops[i].eid], ops[i])
    ensures ApplyAll(map[], ops)[ops[i].eid].Tomb? <==> ops[i].mutation.None?
  {
    EveryEid(ops, i);
    var j := WinnerShows(ops, ops[i].eid);
    assert i == j;
  }

  lemma {:induction false} StatusAt(s: Store, ops: seq<Op>, i: nat)
    requires i < |ops|
    ensures Statuses(s, ops)[i] == StatusOne(ApplyAll(s, ops[..i]), ops[i])
    decreases |ops|
  {
    if i < |ops| - 1 {
      var init := ops[..|ops| - 1];
      StatusAt(s, init, i);
      assert init[..i] == ops[..i];
    }
  }

  // Older than this are all ops of the eid so far.
  ghost predicate AllOlder(ops: seq<Op>, e: Eid, stamp: int) {
    forall j :: 0 <= j < |ops| && Parses(ops[j]) && ops[j].eid == e ==> Stamp(ops[j]) < stamp
  }

  lemma OlderAll(ops: seq<Op>, e: Eid, stamp: int)
    ensures AllOlder(ops, e, stamp) <==> (e in ApplyAll(map[], ops) ==> ApplyAll(map[], ops)[e].updatedAt < stamp)
  {
    if e in ApplyAll(map[], ops) {
      var w := WinnerShows(ops, e);
    } else {
      forall j | 0 <= j < |ops| && Parses(ops[j]) && ops[j].eid == e
        ensures false
      {
        EveryEid(ops, j);
      }
    }
  }

  // An op succeeds exactly when all ops of its eid before it are older; the
  // others report that nothing changed, or that the eid does not parse.
  lemma StatusesMean(ops: seq<Op>, i: nat)
    requires i < |ops|
    ensures var st := Statuses(map[], ops)[i];
            if ops[i].eid.time.Bad? then st == ops[i].eid.time.status
            else st == if AllOlder(ops[..i], ops[i].eid, Stamp(ops[i])) then Success else NoChange
  {
    StatusAt(map[], ops, i);
    if Parses(ops[i]) { OlderAll(ops[..i], ops[i].eid, Stamp(ops[i])); }
  }

  predicate HasType(row: Option<Row>, t: string) { row.Some? && row.value.Live? && row.value.content.typ == t }

  // Op i of the run succeeds.
  predicate Succeeds(s: Store, ops: seq<Op>, i: nat) { i < |ops| && Statuses(s, ops)[i] == Success }

  // And finds or leaves a live row of type t.
  predicate Affects(s: Store, ops: seq<Op>, i: nat, t: string) {
    && Succeeds(s, ops, i)
    && (HasType(Find(ApplyAll(s, ops[..i]), ops[i].eid), t) || HasType(Find(ApplyAll(s, ops[..i + 1]), ops[i].eid), t))
  }

  lemma AffectsPrefix(s: Store, ops: seq<Op>, n: nat, i: nat, t: string)
    requires i < n <= |ops|
    ensures Affects(s, ops[..n], i, t) <==> Affects(s, ops, i, t)
    ensures Succeeds(s, ops[..n], i) <==> Succeeds(s, ops, i)
  {
    StatusAt(s, ops, i);
    StatusAt(s, ops[..n], i);
    assert ops[..n][..i] == ops[..i] && ops[..n][..i + 1] == ops[..i + 1];
  }

  lemma AffectsLast(s: Store, ops: seq<Op>, t: string)
    requires ops != []
    ensures t in TypesOne(ApplyAll(s, ops[..|ops| - 1]), ops[|ops| - 1]) <==> Affects(s, ops, |ops| - 1, t)
  {
    assert ops[..|ops| - 1 + 1] == ops;
  }

  // A type is reported exactly when a successful op found or left a live row
  // of it.
  lemma {:induction false} TypesExactly(s: Store, ops: seq<Op>, t: string)
    ensures t in Types(s, ops) <==> exists i: nat :: Affects(s, ops, i, t)
    decreases |ops|
  {
    if ops != [] {
      var n := |ops| - 1;
      TypesExactly(s, ops[..n], t);
      AffectsLast(s, ops, t);
      if i: nat :| Affects(s, ops, i, t) {
        if i < n { AffectsPrefix(s, ops, n, i, t); }
      }
      if i: nat :| Affects(s, ops[..n], i, t) { AffectsPrefix(s, ops, n, i, t); }
    }
  }

  // An eid is reported exactly when some op of it succeeded.
  lemma {:induction false} ChangedExactly(s: Store, ops: seq<Op>, e: Eid)
    ensures e in Changed(s, ops) <==> exists i: nat :: Succeeds(s, ops, i) && ops[i].eid == e
    decreases |ops|
  {
    if ops != [] {
      var n := |ops| - 1;
      ChangedExactly(s, ops[..n], e);
      ApplyAllStep(s, ops, n);
      assert ops[..n + 1] == ops;
      if i: nat :| Succeeds(s, ops, i) && ops[i].eid == e {
        if i < n { AffectsPrefix(s, ops, n, i, ""); }
      }
      if i: nat :| Succeeds(s, ops[..n], i) && ops[..n][i].eid == e {
        AffectsPrefix(s, ops, n, i, "");
        assert ops[i].eid == e;
      }
    }
  }

  // Every type list that an ops run changes is among the reported types.
  lemma {:induction false} TypesCover(s: Store, ops: seq<Op>, e: Eid)
    requires Find(s, e) != Find(ApplyAll(s, ops), e)
    ensures forall row :: (Find(s, e) == Some(row) || Find(ApplyAll(s, ops), e) == Some(row)) && row.Live? ==>
              row.content.typ in Types(s, ops)
    decreases |ops|
  {
    var init, op := ops[..|ops| - 1], ops[|ops| - 1];
    if Find(s, e) != Find(ApplyAll(s, init), e) {
      TypesCover(s, init, e);
    }
  }
}
