// The host: in-memory bag storage (shared/storage/memory.ts) and the PUSH
// handler on top of it (shared/api/push.ts).

module Host {
  import opened Basics
  import opened Codec
  import opened Structs
  import opened Sealing
  import opened PushItems

  // Bags of one realm by sequence number.
  type Realm = map<nat, HostItem>

  // Sequence numbers are exactly 1..n.
  ghost predicate Contiguous(realm: Realm) { forall q: nat :: q in realm <==> 1 <= q <= |realm| }

  ghost function LogOf(realm: Realm): seq<HostItem>
    requires Contiguous(realm)
  {
    seq(|realm|, i requires 0 <= i < |realm| => realm[i + 1])
  }

  // The bag is refused on its own, or its head can be encoded.
  predicate Storable(b: Bag) { |b.rlm| != HASH_BYTES || HostItemOf(b).Ok? }

  predicate AllStorable(bags: seq<Bag>) { forall i :: 0 <= i < |bags| ==> Storable(bags[i]) }

  // Only a head of 2 to the 56th bytes or more, longer than any buffer, cannot
  // be encoded.
  lemma StorableExactly(b: Bag)
    ensures Storable(b) <==> |b.rlm| != HASH_BYTES || |b.headCph| < LIMIT
    ensures Fits(b.headCph) ==> HostItemOf(b).Ok?
  {
    PutVarIntExactly(|b.headCph|);
  }

  // What one bag adds to a realm's log.
  function AddedBy(b: Bag, rlm: bytes): seq<HostItem> {
    if |b.rlm| == HASH_BYTES && b.rlm == rlm && HostItemOf(b).Ok? then [HostItemOf(b).value] else []
  }

  // The items that a batch adds to one realm, in order.
  function ItemsFor(bags: seq<Bag>, rlm: bytes): seq<HostItem> {
    if bags == [] then [] else ItemsFor(bags[..|bags| - 1], rlm) + AddedBy(bags[|bags| - 1], rlm)
  }

  // Where a batch puts its i-th bag, given how many bags its realm has.
  function OutcomeAt(bags: seq<Bag>, i: nat, before: nat): Result<nat>
    requires i < |bags|
  {
    if |bags[i].rlm| != HASH_BYTES then Err(InvalidParam)
    else Ok(before + |ItemsFor(bags[..i], bags[i].rlm)| + 1)
  }

  lemma AddNext(realm: Realm, item: HostItem)
    requires Contiguous(realm)
    ensures var realm' := realm[|realm| + 1 := item];
            Contiguous(realm') && LogOf(realm') == LogOf(realm) + [item]
  {
    assert |realm| + 1 !in realm;
  }

  // One user's realms.
  type Realms = map<bytes, Realm>

  ghost predicate Sound(mine: Realms) { forall rlm :: rlm in mine ==> Contiguous(mine[rlm]) }

  ghost function LogAt(mine: Realms, rlm: bytes): seq<HostItem>
    requires Sound(mine)
  {
    if rlm in mine then LogOf(mine[rlm]) else []
  }

  // The running maxima are those of the realms they were taken from.
  ghost predicate MaxOk(mine: Realms, maxBy: map<bytes, nat>) {
    forall rlm :: rlm in maxBy ==> rlm in mine && maxBy[rlm] == |mine[rlm]|
  }

  method MaxSeq(realm: Realm) returns (max: nat)
    requires Contiguous(realm)
    ensures max == |realm|
  {
    max := 0;
    var keys := realm.Keys;
    while keys != {}
      invariant keys <= realm.Keys && max <= |realm|
      invariant forall q :: q in realm && q !in keys ==> q <= max
    {
      var q :| q in keys;
      keys := keys - {q};
      if q > max { max := q; }
    }
    if |realm| > 0 { assert |realm| in realm; }
  }

  // What storing one bag does to the realms, and answers.
  ghost predicate StoredOne(before: Realms, after: Realms, b: Bag, r: Result<Result<nat>>)
    requires Sound(before) && Sound(after)
  {
    && (forall rlm :: LogAt(after, rlm) == LogAt(before, rlm) + AddedBy(b, rlm))
    && r == if |b.rlm| != HASH_BYTES then Ok(Err(InvalidParam))
            else if HostItemOf(b).Err? then Err(HostItemOf(b).status)
            else Ok(Ok(|LogAt(before, b.rlm)| + 1))
  }

  lemma NothingAdded(before: Realms, after: Realms, b: Bag)
    requires Sound(before) && Sound(after) && forall rlm :: LogAt(after, rlm) == LogAt(before, rlm)
    requires |b.rlm| != HASH_BYTES || HostItemOf(b).Err?
    ensures StoredOne(before, after, b, if |b.rlm| != HASH_BYTES then Ok(Err(InvalidParam)) else Err(HostItemOf(b).status))
  {
    forall rlm
      ensures LogAt(after, rlm) == LogAt(before, rlm) + AddedBy(b, rlm)
    {
      assert LogAt(before, rlm) + [] == LogAt(before, rlm);
    }
  }

  lemma OneAdded(before: Realms, realm: Realm, b: Bag)
    requires Sound(before) && |b.rlm| == HASH_BYTES && HostItemOf(b).Ok?
    requires realm == if b.rlm in before then before[b.rlm] else map[]
    ensures var after := before[b.rlm := realm[|realm| + 1 := HostItemOf(b).value]];
            Sound(after) && StoredOne(before, after, b, Ok(Ok(|realm| + 1)))
  {
    AddNext(realm, HostItemOf(b).value);
    var after := before[b.rlm := realm[|realm| + 1 := HostItemOf(b).value]];
    forall rlm
      ensures LogAt(after, rlm) == LogAt(before, rlm) + AddedBy(b, rlm)
    {
      if rlm != b.rlm { assert LogAt(before, rlm) + [] == LogAt(before, rlm); }
    }
  }

  lemma MaxAfter(before: Realms, maxBy: map<bytes, nat>, rlm: bytes, realm: Realm, item: HostItem)
    requires MaxOk(before, maxBy) && |realm| + 1 !in realm
    ensures MaxOk(before[rlm := realm[|realm| + 1 := item]], maxBy[rlm := |realm| + 1])
  {
  }

  // One bag of a batch. An outer error ends the batch.
  method StoreOne(mine0: Realms, maxBy0: map<bytes, nat>, b: Bag)
    returns (r: Result<Result<nat>>, mine: Realms, maxBy: map<bytes, nat>)
    requires Sound(mine0) && MaxOk(mine0, maxBy0)
    ensures Sound(mine) && (r.Ok? ==> MaxOk(mine, maxBy))
    ensures StoredOne(mine0, mine, b, r)
  {
    mine, maxBy := mine0, maxBy0;
    if |b.rlm| != HASH_BYTES {
      NothingAdded(mine0, mine, b);
      return Ok(Err(InvalidParam)), mine, maxBy;
    }
    if b.rlm !in mine { mine := mine[b.rlm := map[]]; }
    var realm := mine[b.rlm];
    var max;
    if b.rlm in maxBy { max := maxBy[b.rlm]; } else { max := MaxSeq(realm); }
    max := max + 1;
    maxBy := maxBy[b.rlm := max];
    var item := HostItemOf(b);
    if item.Err? {
      NothingAdded(mine0, mine, b);
      return Err(item.status), mine, maxBy;
    }
    OneAdded(mine0, realm, b);
    MaxAfter(mine0, maxBy0, b.rlm, realm, item.value);
    mine := mine[b.rlm := realm[max := item.value]];
    assert mine == mine0[b.rlm := realm[max := item.value]];
    r := Ok(Ok(max));
  }

  // A batch stored so far: each realm has its bags of it at the end.
  ghost predicate Appended(before: Realms, after: Realms, bags: seq<Bag>)
    requires Sound(before) && Sound(after)
  {
    forall rlm :: LogAt(after, rlm) == LogAt(before, rlm) + ItemsFor(bags, rlm)
  }

  ghost predicate Answered(before: Realms, bags: seq<Bag>, out: seq<Result<nat>>)
    requires Sound(before) && |out| <= |bags|
  {
    forall i :: 0 <= i < |out| ==> out[i] == OutcomeAt(bags, i, |LogAt(before, bags[i].rlm)|)
  }

  lemma AppendedNext(before: Realms, mid: Realms, after: Realms, bags: seq<Bag>, k: nat, r: Result<Result<nat>>)
    requires Sound(before) && Sound(mid) && Sound(after) && k < |bags|
    requires Appended(before, mid, bags[..k]) && StoredOne(mid, after, bags[k], r)
    ensures Appended(before, after, bags[..k + 1])
    ensures r.Err? ==> Appended(before, after, bags[..k])
  {
    var b := bags[k];
    assert bags[..k + 1][..k] == bags[..k];
    forall rlm
      ensures LogAt(after, rlm) == LogAt(before, rlm) + ItemsFor(bags[..k + 1], rlm)
    {
      Associates(LogAt(before, rlm), ItemsFor(bags[..k], rlm), AddedBy(b, rlm));
    }
    if r.Err? {
      forall rlm
        ensures LogAt(after, rlm) == LogAt(before, rlm) + ItemsFor(bags[..k], rlm)
      {
        assert AddedBy(b, rlm) == [];
        assert LogAt(mid, rlm) + [] == LogAt(mid, rlm);
      }
    }
  }

  lemma AppendedNone(mine: Realms)
    requires Sound(mine)
    ensures Appended(mine, mine, [])
  {
    forall rlm
      ensures LogAt(mine, rlm) == LogAt(mine, rlm) + ItemsFor([], rlm)
    {
      assert LogAt(mine, rlm) + [] == LogAt(mine, rlm);
    }
  }

  lemma NewAnswer(before: Realms, mid: Realms, after: Realms, bags: seq<Bag>, k: nat, r: Result<Result<nat>>)
    requires Sound(before) && Sound(mid) && Sound(after) && k < |bags|
    requires Appended(before, mid, bags[..k]) && StoredOne(mid, after, bags[k], r)
    ensures r.Ok? ==> r.value == OutcomeAt(bags, k, |LogAt(before, bags[k].rlm)|)
    ensures r.Err? ==> |bags[k].rlm| == HASH_BYTES && HostItemOf(bags[k]) == Err(r.status)
  {
    var rlm := bags[k].rlm;
    assert LogAt(mid, rlm) == LogAt(before, rlm) + ItemsFor(bags[..k], rlm);
    assert |LogAt(mid, rlm)| == |LogAt(before, rlm)| + |ItemsFor(bags[..k], rlm)|;
  }

  lemma AnsweredMore(before: Realms, bags: seq<Bag>, out: seq<Result<nat>>, x: Result<nat>)
    requires Sound(before) && |out| < |bags| && Answered(before, bags, out)
    requires x == OutcomeAt(bags, |out|, |LogAt(before, bags[|out|].rlm)|)
    ensures Answered(before, bags, out + [x])
  {
    forall i | 0 <= i < |out + [x]|
      ensures (out + [x])[i] == OutcomeAt(bags, i, |LogAt(before, bags[i].rlm)|)
    {
      if i < |out| { assert (out + [x])[i] == out[i]; }
    }
  }

  lemma Associates(a: seq<HostItem>, b: seq<HostItem>, c: seq<HostItem>)
    ensures (a + b) + c == a + (b + c)
  {
  }

  /* ---- Reading a log ---- */

  function Above(log: seq<HostItem>, minSeq: nat): seq<PeekItem> {
    if |log| <= minSeq then []
    else seq(|log| - minSeq, i requires 0 <= i < |log| - minSeq => PeekItem(minSeq + i + 1, log[minSeq + i].headCph))
  }

  // The heads above a number, each under its own, in rising order.
  lemma AboveMeans(log: seq<HostItem>, minSeq: nat, p: PeekItem)
    ensures p in Above(log, minSeq) <==> minSeq < p.seqno <= |log| && p.headCph == log[p.seqno - 1].headCph
    ensures forall i, j :: 0 <= i < j < |Above(log, minSeq)| ==> Above(log, minSeq)[i].seqno < Above(log, minSeq)[j].seqno
  {
    if minSeq < p.seqno <= |log| && p.headCph == log[p.seqno - 1].headCph {
      assert Above(log, minSeq)[p.seqno - minSeq - 1] == p;
    }
  }

  function BodiesAt(log: seq<HostItem>, seqs: seq<nat>): seq<PullItem> {
    if seqs == [] then []
    else
      var q := seqs[|seqs| - 1];
      BodiesAt(log, seqs[..|seqs| - 1]) + (if 1 <= q <= |log| then [PullItem(q, log[q - 1].bodyCph)] else [])
  }

  predicate InLog(log: seq<HostItem>, q: nat) { 1 <= q <= |log| }

  lemma LastAsked(seqs: seq<nat>, q: int)
    requires seqs != []
    ensures q in seqs <==> q in seqs[..|seqs| - 1] || q == seqs[|seqs| - 1]
  {
    assert seqs == seqs[..|seqs| - 1] + [seqs[|seqs| - 1]];
  }

  // The bodies asked for that are in the log, one by one: asking for one number
  // more adds its body, or nothing if there is none.
  lemma {:induction false} BodiesMean(log: seq<HostItem>, seqs: seq<nat>, p: PullItem)
    ensures p in BodiesAt(log, seqs) <==> p.seqno in seqs && 1 <= p.seqno <= |log| && p.bodyCph == log[p.seqno - 1].bodyCph
    decreases |seqs|
  {
    if seqs != [] {
      BodiesMean(log, seqs[..|seqs| - 1], p);
      LastAsked(seqs, p.seqno);
    }
  }

  // When all of them are there, each comes at the place it was asked for.
  lemma {:induction false} BodiesInOrder(log: seq<HostItem>, seqs: seq<nat>, i: nat)
    requires i < |seqs| && forall k :: 0 <= k < |seqs| ==> InLog(log, seqs[k])
    ensures |BodiesAt(log, seqs)| == |seqs| && InLog(log, seqs[i])
    ensures BodiesAt(log, seqs)[i] == PullItem(seqs[i], log[seqs[i] - 1].bodyCph)
    decreases |seqs|
  {
    var n := |seqs| - 1;
    assert InLog(log, seqs[n]);
    if n > 0 { BodiesInOrder(log, seqs[..n], if i < n then i else 0); }
  }

  predicate Rising(list: seq<PeekItem>) { forall i, j :: 0 <= i < j < |list| ==> list[i].seqno < list[j].seqno }

  predicate Listed(realm: Realm, minSeq: nat, p: PeekItem) {
    p.seqno > minSeq && p.seqno in realm && p.headCph == realm[p.seqno].headCph
  }

  function InsertItem(list: seq<PeekItem>, p: PeekItem): (out: seq<PeekItem>)
    requires Rising(list) && forall x :: x in list ==> x.seqno != p.seqno
    ensures Rising(out) && forall x :: x in out <==> x == p || x in list
  {
    if list == [] || list[|list| - 1].seqno < p.seqno then list + [p]
    else
      RisingSplit(list);
      InsertItem(list[..|list| - 1], p) + [list[|list| - 1]]
  }

  lemma RisingSplit(list: seq<PeekItem>)
    requires list != [] && Rising(list)
    ensures Rising(list[..|list| - 1])
    ensures forall x :: x in list <==> x in list[..|list| - 1] || x == list[|list| - 1]
    ensures forall x :: x in list[..|list| - 1] ==> x.seqno < list[|list| - 1].seqno
  {
    assert list == list[..|list| - 1] + [list[|list| - 1]];
  }

  lemma RisingInit(a: seq<PeekItem>, p: PeekItem)
    requires a != [] && Rising(a)
    ensures p in a[..|a| - 1] <==> p in a && p.seqno < a[|a| - 1].seqno
  {
    if p in a && p.seqno < a[|a| - 1].seqno {
      var i :| 0 <= i < |a| && a[i] == p;
      assert a[..|a| - 1][i] == p;
    }
  }

  lemma RisingLast(a: seq<PeekItem>, b: seq<PeekItem>)
    requires a != [] && b != [] && Rising(a) && Rising(b)
    requires a[|a| - 1] in b && b[|b| - 1] in a
    ensures a[|a| - 1] == b[|b| - 1]
  {
    var i :| 0 <= i < |b| && b[i] == a[|a| - 1];
    var j :| 0 <= j < |a| && a[j] == b[|b| - 1];
  }

  // Rising, with the same items: there is only one such list.
  lemma {:induction false} RisingUnique(a: seq<PeekItem>, b: seq<PeekItem>)
    requires Rising(a) && Rising(b) && forall p :: p in a <==> p in b
    ensures a == b
    decreases |a|
  {
    assert b != [] ==> b[0] in b;
    if a != [] {
      var (m, n) := (|a| - 1, |b| - 1);
      assert a[m] in b;
      assert b[n] in a;
      RisingLast(a, b);
      forall p
        ensures p in a[..m] <==> p in b[..n]
      {
        RisingInit(a, p);
        RisingInit(b, p);
      }
      RisingUnique(a[..m], b[..n]);
      assert a == a[..m] + [a[m]] && b == b[..n] + [b[n]];
    }
  }

  lemma ListedIsAbove(realm: Realm, minSeq: nat, list: seq<PeekItem>)
    requires Contiguous(realm) && Rising(list) && forall p :: p in list <==> Listed(realm, minSeq, p)
    ensures list == Above(LogOf(realm), minSeq)
  {
    var above := Above(LogOf(realm), minSeq);
    forall p
      ensures p in above <==> Listed(realm, minSeq, p)
    {
      if Listed(realm, minSeq, p) { assert above[p.seqno - minSeq - 1] == p; }
    }
    RisingUnique(list, above);
  }

  // Bag k cannot be encoded; those before it are stored.
  ghost predicate Stopped(before: Realms, after: Realms, bags: seq<Bag>, k: int, st: Status)
    requires Sound(before) && Sound(after) && 0 <= k < |bags|
  {
    |bags[k].rlm| == HASH_BYTES && HostItemOf(bags[k]).Err? && HostItemOf(bags[k]).status == st && Appended(before, after, bags[..k])
  }

  // The first k bags are stored and answered.
  ghost predicate StoredSoFar(before: Realms, mine: Realms, bags: seq<Bag>, k: nat, out: seq<Result<nat>>)
    requires Sound(before) && Sound(mine)
  {
    && |out| == k <= |bags| && AllStorable(bags[..k])
    && Appended(before, mine, bags[..k]) && Answered(before, bags, out)
  }

  lemma StorableMore(bags: seq<Bag>, k: nat)
    requires k < |bags| && AllStorable(bags[..k]) && Storable(bags[k])
    ensures AllStorable(bags[..k + 1])
  {
  }

  lemma StoredMore(before: Realms, mid: Realms, after: Realms, bags: seq<Bag>, k: nat, out: seq<Result<nat>>,
                   r: Result<Result<nat>>)
    requires Sound(before) && Sound(mid) && Sound(after) && k < |bags|
    requires StoredSoFar(before, mid, bags, k, out) && StoredOne(mid, after, bags[k], r)
    ensures match r
            case Ok(x) => StoredSoFar(before, after, bags, k + 1, out + [x])
            case Err(st) => Stopped(before, after, bags, k, st) && !AllStorable(bags)
  {
    AppendedNext(before, mid, after, bags, k, r);
    NewAnswer(before, mid, after, bags, k, r);
    if r.Ok? {
      AnsweredMore(before, bags, out, r.value);
      StorableMore(bags, k);
    } else {
      assert !Storable(bags[k]);
    }
  }

  // The loop of setBags, in one turn of the event loop.
  method StoreAll(before: Realms, bags: seq<Bag>) returns (r: Result<seq<Result<nat>>>, mine: Realms)
    requires Sound(before)
    ensures Sound(mine)
    ensures match r
            case Ok(out) => |out| == |bags| && Appended(before, mine, bags) && Answered(before, bags, out)
            case Err(st) => exists k :: 0 <= k < |bags| && Stopped(before, mine, bags, k, st)
    ensures r.Ok? <==> AllStorable(bags)
  {
    mine := before;
    var out: seq<Result<nat>> := [];
    var maxBy: map<bytes, nat> := map[];
    AppendedNone(before);
    for k := 0 to |bags|
      invariant Sound(mine) && MaxOk(mine, maxBy) && StoredSoFar(before, mine, bags, k, out)
    {
      ghost var mid := mine;
      var res;
      res, mine, maxBy := StoreOne(mine, maxBy, bags[k]);
      StoredMore(before, mid, mine, bags, k, out, res);
      if res.Err? { return Err(res.status), mine; }
      out := out + [res.value];
    }
    assert bags[..|bags|] == bags;
    r := Ok(out);
  }

  class MemoryStorage {
    var users: set<bytes>
    var bag: map<bytes, Realms>

    ghost predicate Valid()
      reads this
    {
      forall u :: u in bag ==> Sound(bag[u])
    }

    constructor ()
      ensures Valid() && users == {} && bag == map[]
    {
      users, bag := {}, map[];
    }

    function Of(u: bytes): Realms
      reads this
    {
      if u in bag then bag[u] else map[]
    }

    // The bags of one user and realm, oldest first: seq n is at n - 1.
    ghost function Log(u: bytes, rlm: bytes): seq<HostItem>
      reads this
      requires Valid()
    {
      LogAt(Of(u), rlm)
    }

    method AddUser(u: bytes)
      modifies this`users
      ensures users == old(users) + {u}
    {
      users := users + {u};
    }

    // Each realm of the user gets its bags of the batch at its end; nothing
    // else changes. That fails exactly if some bag's head cannot be encoded,
    // and then the bags before it stay.
    method SetBags(u: bytes, bags: seq<Bag>) returns (r: Result<seq<Result<nat>>>)
      requires Valid()
      modifies this`bag
      ensures Valid()
      ensures forall v :: v != u ==> Of(v) == old(Of(v))
      ensures match r
              case Ok(out) => |out| == |bags| && Appended(old(Of(u)), Of(u), bags) && Answered(old(Of(u)), bags, out)
              case Err(st) => exists k :: 0 <= k < |bags| && Stopped(old(Of(u)), Of(u), bags, k, st)
      ensures r.Ok? <==> AllStorable(bags)
    {
      if |bags| < 1 {
        AppendedNone(Of(u));
        return Ok([]);
      }
      if u !in bag { bag := bag[u := map[]]; }
      var mine;
      ghost var before := bag[u];
      r, mine := StoreAll(bag[u], bags);
      bag := bag[u := mine];
      if r.Err? {
        ghost var k :| 0 <= k < |bags| && Stopped(before, mine, bags, k, r.status);
        assert Stopped(old(Of(u)), Of(u), bags, k, r.status);
      }
    }

    // The heads above minSeq, in sequence order.
    method ListHeads(u: bytes, rlm: bytes, minSeq: nat) returns (r: Result<seq<PeekItem>>)
      requires Valid()
      ensures |rlm| != HASH_BYTES ==> r == Err(InvalidParam)
      ensures |rlm| == HASH_BYTES ==> r == Ok(Above(Log(u, rlm), minSeq))
    {
      if |rlm| != HASH_BYTES { return Err(InvalidParam); }
      var list: seq<PeekItem> := [];
      var realm: Realm := if u in bag && rlm in bag[u] then bag[u][rlm] else map[];
      var keys := realm.Keys;
      while keys != {}
        invariant keys <= realm.Keys && Rising(list)
        invariant forall p :: p in list <==> Listed(realm, minSeq, p) && p.seqno !in keys
      {
        var q :| q in keys;
        keys := keys - {q};
        if q > minSeq {
          list := InsertItem(list, PeekItem(q, realm[q].headCph));
        }
      }
      ListedIsAbove(realm, minSeq, list);
      r := Ok(list);
    }

    // The bodies that are there, in the order asked for.
    method GetBodies(u: bytes, rlm: bytes, seqs: seq<nat>) returns (r: Result<seq<PullItem>>)
      requires Valid()
      ensures |rlm| != HASH_BYTES ==> r == Err(InvalidParam)
      ensures |rlm| == HASH_BYTES ==> r == Ok(BodiesAt(Log(u, rlm), seqs))
    {
      if |rlm| != HASH_BYTES { return Err(InvalidParam); }
      if |seqs| < 1 { return Ok([]); }
      var realm: Realm := if u in bag && rlm in bag[u] then bag[u][rlm] else map[];
      var out: seq<PullItem> := [];
      for i := 0 to |seqs|
        invariant out == BodiesAt(LogOf(realm), seqs[..i])
      {
        assert seqs[..i + 1][..i] == seqs[..i];
        if seqs[i] in realm { out := out + [PullItem(seqs[i], realm[seqs[i]].bodyCph)]; }
      }
      assert seqs[..|seqs|] == seqs;
      r := Ok(out);
    }
  }

  /* ---- The PUSH handler ---- */

  predicate SigValid(check: (bytes, bytes) -> bool, b: Bag) {
    |b.rlm| == HASH_BYTES && check(b.sig, BagSigMsg(b.rlm, b.headCph))
  }

  function Verdicts(check: (bytes, bytes) -> bool, bags: seq<Bag>): seq<bool> {
    seq(|bags|, i requires 0 <= i < |bags| => SigValid(check, bags[i]))
  }

  // The bags that go to storage.
  function ValidBags(bags: seq<Bag>, valid: seq<bool>): seq<Bag>
    requires |valid| == |bags|
  {
    seq(|Accepted(valid)|, i requires 0 <= i < |Accepted(valid)| => bags[Accepted(valid)[i]])
  }

  ghost predicate BagsAt(bags: seq<Bag>, idxs: seq<nat>, picked: seq<Bag>) {
    |picked| == |idxs| && forall i :: 0 <= i < |idxs| ==> idxs[i] < |bags| && picked[i] == bags[idxs[i]]
  }

  // The first n bags are sorted into rejected and accepted ones.
  ghost predicate VerifiedUpto(bags: seq<Bag>, valid: seq<bool>, n: nat, items: seq<PushItem>, validIdx: seq<nat>,
                               validBags: seq<Bag>)
    requires n <= |valid|
  {
    items == Rejections(valid[..n]) && validIdx == Accepted(valid[..n]) && BagsAt(bags, validIdx, validBags)
  }

  lemma VerifiedMore(bags: seq<Bag>, valid: seq<bool>, n: nat, items: seq<PushItem>, validIdx: seq<nat>, validBags: seq<Bag>)
    requires n < |valid| == |bags| && VerifiedUpto(bags, valid, n, items, validIdx, validBags)
    ensures if valid[n] then VerifiedUpto(bags, valid, n + 1, items, validIdx + [n], validBags + [bags[n]])
            else VerifiedUpto(bags, valid, n + 1, items + [PushItem(n, Err(InvalidSignature))], validIdx, validBags)
  {
    TakeOne(valid, n);
    assert items + [] == items && validIdx + [] == validIdx;
    BagsAtMore(bags, validIdx, validBags, n);
  }

  lemma BagsAtMore(bags: seq<Bag>, idxs: seq<nat>, picked: seq<Bag>, n: nat)
    requires BagsAt(bags, idxs, picked) && n < |bags|
    ensures BagsAt(bags, idxs + [n], picked + [bags[n]])
  {
  }

  lemma VerifiedAll(bags: seq<Bag>, valid: seq<bool>, items: seq<PushItem>, validIdx: seq<nat>, validBags: seq<Bag>)
    requires |valid| == |bags| && VerifiedUpto(bags, valid, |valid|, items, validIdx, validBags)
    ensures items == Rejections(valid) && validIdx == Accepted(valid) && validBags == ValidBags(bags, valid)
  {
    assert valid[..|valid|] == valid;
  }

  // Signatures first: an item for each bag that fails, and the others aside.
  method VerifyAll(check: (bytes, bytes) -> bool, bags: seq<Bag>)
    returns (items: seq<PushItem>, validIdx: seq<nat>, validBags: seq<Bag>)
    ensures items == Rejections(Verdicts(check, bags)) && validIdx == Accepted(Verdicts(check, bags))
    ensures validBags == ValidBags(bags, Verdicts(check, bags))
  {
    ghost var valid := Verdicts(check, bags);
    items, validIdx, validBags := [], [], [];
    for idx := 0 to |bags|
      invariant VerifiedUpto(bags, valid, idx, items, validIdx, validBags)
    {
      VerifiedMore(bags, valid, idx, items, validIdx, validBags);
      if !SigValid(check, bags[idx]) {
        items := items + [PushItem(idx, Err(InvalidSignature))];
        continue;
      }
      validIdx := validIdx + [idx];
      validBags := validBags + [bags[idx]];
    }
    VerifiedAll(bags, valid, items, validIdx, validBags);
  }

  method AnswerStored(ghost valid: seq<bool>, items0: seq<PushItem>, validIdx: seq<nat>, stored: seq<Result<nat>>)
    returns (items: seq<PushItem>)
    requires items0 == Rejections(valid) && validIdx == Accepted(valid) && |stored| == |validIdx|
    ensures items == Items(valid, stored)
  {
    items := items0;
    for i := 0 to |stored|
      invariant items == items0 + seq(i, k requires 0 <= k < i => PushItem(validIdx[k], stored[k]))
    {
      items := items + [PushItem(validIdx[i], stored[i])];
    }
  }

  // What a push leaves: the valid bags at the end of their realms' logs, and
  // an answer that goes with them.
  ghost predicate Pushed(before: Realms, after: Realms, bags: seq<Bag>, valid: seq<bool>, stored: seq<Result<nat>>, items: seq<PushItem>)
    requires Sound(before) && Sound(after) && |valid| == |bags|
  {
    && |stored| == |Accepted(valid)| && items == Items(valid, stored) && AllStorable(ValidBags(bags, valid))
    && Appended(before, after, ValidBags(bags, valid)) && Answered(before, ValidBags(bags, valid), stored)
  }

  // Verify, store the valid bags as one batch (storage answers one result per
  // bag, so the source's check of their number never fires), then answer: the rejected
  // bags, and each stored bag under its index in the request.
  method HandlePush(storage: MemoryStorage, u: bytes, check: (bytes, bytes) -> bool, bags: seq<Bag>)
    returns (r: Result<seq<PushItem>>)
    requires storage.Valid()
    modifies storage`bag
    ensures storage.Valid() && forall v :: v != u ==> storage.Of(v) == old(storage.Of(v))
    ensures r.Ok? ==> exists stored ::
              Pushed(old(storage.Of(u)), storage.Of(u), bags, Verdicts(check, bags), stored, r.value)
    ensures r.Err? ==> exists k ::
              0 <= k < |Accepted(Verdicts(check, bags))|
              && Stopped(old(storage.Of(u)), storage.Of(u), ValidBags(bags, Verdicts(check, bags)), k, r.status)
    ensures r.Ok? <==> AllStorable(ValidBags(bags, Verdicts(check, bags)))
  {
    var items, validIdx, validBags := VerifyAll(check, bags);
    var stored := storage.SetBags(u, validBags);
    if stored.Err? { return Err(stored.status); }
    items := AnswerStored(Verdicts(check, bags), items, validIdx, stored.value);
    assert Pushed(old(storage.Of(u)), storage.Of(u), bags, Verdicts(check, bags), stored.value, items);
    r := Ok(items);
  }

  lemma {:induction false} ItemsForAt(bags: seq<Bag>, i: nat)
    requires i < |bags| && |bags[i].rlm| == HASH_BYTES && HostItemOf(bags[i]).Ok?
    ensures var (log, k) := (ItemsFor(bags, bags[i].rlm), |ItemsFor(bags[..i], bags[i].rlm)|);
            k < |log| && log[k] == HostItemOf(bags[i]).value
    decreases |bags|
  {
    var n := |bags| - 1;
    if i < n {
      assert bags[..n][..i] == bags[..i];
      ItemsForAt(bags[..n], i);
    }
  }

  // The place that the answer to a stored bag names holds that bag.
  lemma StoredThere(before: Realms, after: Realms, sent: seq<Bag>, stored: seq<Result<nat>>, i: nat)
    requires Sound(before) && Sound(after) && |stored| == |sent| && i < |sent|
    requires Appended(before, after, sent) && Answered(before, sent, stored) && stored[i].Ok? && AllStorable(sent)
    ensures var (b, q) := (sent[i], stored[i].value);
            && |LogAt(before, b.rlm)| < q <= |LogAt(after, b.rlm)|
            && LogAt(after, b.rlm)[q - 1] == HostItemOf(b).value
            && LogAt(before, b.rlm) <= LogAt(after, b.rlm)
  {
    var b := sent[i];
    assert stored[i] == OutcomeAt(sent, i, |LogAt(before, b.rlm)|);
    ItemsForAt(sent, i);
    assert LogAt(after, b.rlm) == LogAt(before, b.rlm) + ItemsFor(sent, b.rlm);
  }

  // A success names the place where its own bag now is, after every bag that
  // was there before.
  ghost predicate NamesItsBag(before: Realms, after: Realms, bags: seq<Bag>, valid: seq<bool>, item: PushItem)
    requires Sound(before) && Sound(after) && |valid| == |bags|
  {
    item.outcome.Ok? ==>
      && item.idx < |bags| && valid[item.idx] && HostItemOf(bags[item.idx]).Ok?
      && var (b, q) := (bags[item.idx], item.outcome.value);
         && |LogAt(before, b.rlm)| < q <= |LogAt(after, b.rlm)|
         && LogAt(after, b.rlm)[q - 1] == HostItemOf(b).value
         && LogAt(before, b.rlm) <= LogAt(after, b.rlm)
  }

  lemma SuccessAt(before: Realms, after: Realms, bags: seq<Bag>, valid: seq<bool>, stored: seq<Result<nat>>,
                  items: seq<PushItem>, n: nat)
    requires Sound(before) && Sound(after) && |valid| == |bags| && Pushed(before, after, bags, valid, stored, items)
    requires n < |items|
    ensures NamesItsBag(before, after, bags, valid, items[n])
  {
    if items[n].outcome.Ok? {
      var i := SuccessOf(valid, stored, n);
      assert ValidBags(bags, valid)[i] == bags[items[n].idx];
      StoredThere(before, after, ValidBags(bags, valid), stored, i);
    }
  }

  // Each request index is answered once, and each success names its own bag.
  lemma SuccessNamesItsBag(before: Realms, after: Realms, bags: seq<Bag>, valid: seq<bool>, stored: seq<Result<nat>>,
                           items: seq<PushItem>)
    requires Sound(before) && Sound(after) && |valid| == |bags| && Pushed(before, after, bags, valid, stored, items)
    ensures |items| == |bags| && forall k: nat :: k < |bags| ==> AnsweredOnce(items, k)
    ensures forall n :: 0 <= n < |items| ==> NamesItsBag(before, after, bags, valid, items[n])
  {
    OneItemPerIndex(valid, stored);
    forall n | 0 <= n < |items|
      ensures NamesItsBag(before, after, bags, valid, items[n])
    {
      SuccessAt(before, after, bags, valid, stored, items, n);
    }
  }

  // What the host answers with success was signed for its own realm and head.
  lemma StoredVouched(before: Realms, after: Realms, bags: seq<Bag>, check: (bytes, bytes) -> bool, stored: seq<Result<nat>>,
                      items: seq<PushItem>, n: nat, authored: iset<(bytes, bytes)>)
    requires Sound(before) && Sound(after) && Pushed(before, after, bags, Verdicts(check, bags), stored, items)
    requires OnlyThese(check, authored) && n < |items| && items[n].outcome.Ok?
    ensures items[n].idx < |bags| && (bags[items[n].idx].rlm, bags[items[n].idx].headCph) in authored
  {
    SuccessAt(before, after, bags, Verdicts(check, bags), stored, items, n);
    var b := bags[items[n].idx];
    Authored(check, authored, b.sig, b.rlm, b.headCph);
  }

  // So was every bag that went to storage.
  lemma SentVouched(bags: seq<Bag>, check: (bytes, bytes) -> bool, authored: iset<(bytes, bytes)>, b: Bag)
    requires OnlyThese(check, authored) && b in ValidBags(bags, Verdicts(check, bags))
    ensures (b.rlm, b.headCph) in authored
  {
    var i :| 0 <= i < |Accepted(Verdicts(check, bags))| && b == bags[Accepted(Verdicts(check, bags))[i]];
    Authored(check, authored, b.sig, b.rlm, b.headCph);
  }

  // A bag is answered with success exactly when its realm has 32 bytes and its
  // signature checks over realm and head, and with InvalidSignature otherwise.
  lemma AnsweredBySignature(before: Realms, after: Realms, bags: seq<Bag>, check: (bytes, bytes) -> bool,
                            stored: seq<Result<nat>>, items: seq<PushItem>, n: nat)
    requires Sound(before) && Sound(after) && Pushed(before, after, bags, Verdicts(check, bags), stored, items)
    requires n < |items|
    ensures items[n].idx < |bags|
    ensures var b := bags[items[n].idx];
            if |b.rlm| == HASH_BYTES && check(b.sig, b.rlm + b.headCph) then items[n].outcome.Ok?
            else items[n].outcome == Err(InvalidSignature)
  {
    var valid := Verdicts(check, bags);
    ItemAt(valid, stored, n);
    if n >= |Rejections(valid)| {
      var i := n - |Rejections(valid)|;
      assert stored[i] == OutcomeAt(ValidBags(bags, valid), i, |LogAt(before, ValidBags(bags, valid)[i].rlm)|);
    }
  }

  predicate OneRealm(bags: seq<Bag>, rlm: bytes) {
    |rlm| == HASH_BYTES && forall i :: 0 <= i < |bags| ==> bags[i].rlm == rlm
  }

  lemma {:induction false} AllForOne(bags: seq<Bag>, i: nat, rlm: bytes)
    requires OneRealm(bags, rlm) && AllStorable(bags) && i <= |bags|
    ensures |ItemsFor(bags[..i], rlm)| == i
  {
    if i > 0 {
      assert bags[..i][..i - 1] == bags[..i - 1];
      AllForOne(bags, i - 1, rlm);
    }
  }

  // A batch of one realm gets consecutive numbers, right after what was there.
  lemma OneRealmBatch(before: Realms, sent: seq<Bag>, stored: seq<Result<nat>>, rlm: bytes, i: nat)
    requires Sound(before) && |stored| == |sent| && i < |sent| && Answered(before, sent, stored)
    requires OneRealm(sent, rlm) && AllStorable(sent)
    ensures stored[i] == Ok(|LogAt(before, rlm)| + i + 1)
  {
    AllForOne(sent, i, rlm);
    assert stored[i] == OutcomeAt(sent, i, |LogAt(before, sent[i].rlm)|);
  }
}
