// Canonical checksums of collections of byte records (shared/checksum.ts):
// the records sorted and put end to end.

module Checksum {
  import opened Basics
  import opened Codec
  import opened Structs

  /* ---- Order ---- */

  // Negative, zero or positive: byte by byte, then by length.
  function Cmp(a: bytes, b: bytes): int {
    if a == [] || b == [] then |a| - |b|
    else if a[0] != b[0] then a[0] - b[0]
    else Cmp(a[1..], b[1..])
  }

  // a comes before b: it is a proper beginning of b, or it has the smaller byte
  // at the first place where they differ.
  ghost predicate ComesFirst(a: bytes, b: bytes) {
    a < b || exists i :: 0 <= i < |a| && i < |b| && a[..i] == b[..i] && a[i] < b[i]
  }

  lemma {:induction false} CmpMeans(a: bytes, b: bytes)
    ensures Cmp(a, b) < 0 <==> ComesFirst(a, b)
    decreases |a|
  {
    if a != [] && b != [] {
      var (x, y) := (a[1..], b[1..]);
      assert a == [a[0]] + x && b == [b[0]] + y;
      if a[0] == b[0] {
        CmpMeans(x, y);
        if i :| 0 <= i < |x| && i < |y| && x[..i] == y[..i] && x[i] < y[i] {
          assert a[..i + 1] == [a[0]] + x[..i] && b[..i + 1] == [b[0]] + y[..i];
          assert a[i + 1] < b[i + 1];
        }
        if i :| 0 <= i < |a| && i < |b| && a[..i] == b[..i] && a[i] < b[i] {
          assert x[..i - 1] == a[..i][1..] && y[..i - 1] == b[..i][1..];
          assert x[i - 1] < y[i - 1];
        }
      } else {
        assert a[..0] == b[..0];
        assert forall i :: 0 < i < |a| && i < |b| ==> a[..i][0] != b[..i][0];
      }
    }
  }

  method CmpBytes(a: bytes, b: bytes) returns (r: int)
    ensures r == Cmp(a, b)
    ensures (r < 0 <==> ComesFirst(a, b)) && (r == 0 <==> a == b)
  {
    CmpMeans(a, b);
    CmpTotal(a, b);
    var n := if |a| < |b| then |a| else |b|;
    assert a[0..] == a && b[0..] == b;
    for i := 0 to n
      invariant Cmp(a[i..], b[i..]) == Cmp(a, b)
    {
      if a[i] != b[i] { return a[i] as int - b[i] as int; }
      assert a[i..][1..] == a[i + 1..] && b[i..][1..] == b[i + 1..];
    }
    r := |a| - |b|;
  }

  predicate NotAfter(a: bytes, b: bytes) { Cmp(a, b) <= 0 }

  lemma {:induction false} CmpTotal(a: bytes, b: bytes)
    ensures Cmp(a, b) == 0 <==> a == b
    ensures Cmp(a, b) < 0 <==> Cmp(b, a) > 0
    decreases |a|
  {
    if a != [] && b != [] && a[0] == b[0] {
      CmpTotal(a[1..], b[1..]);
      assert a == [a[0]] + a[1..] && b == [b[0]] + b[1..];
    }
  }

  lemma {:induction false} CmpTrans(a: bytes, b: bytes, c: bytes)
    requires NotAfter(a, b) && NotAfter(b, c)
    ensures NotAfter(a, c)
    decreases |a|
  {
    if a != [] && b != [] && c != [] && a[0] == b[0] && b[0] == c[0] {
      CmpTrans(a[1..], b[1..], c[1..]);
    }
  }

  predicate Sorted(items: seq<bytes>) { forall i, j :: 0 <= i < j < |items| ==> NotAfter(items[i], items[j]) }

  function Insert(items: seq<bytes>, x: bytes): seq<bytes> {
    if items == [] || NotAfter(items[|items| - 1], x) then items + [x]
    else Insert(items[..|items| - 1], x) + [items[|items| - 1]]
  }

  function Sort(items: seq<bytes>): seq<bytes> {
    if items == [] then [] else Insert(Sort(items[..|items| - 1]), items[|items| - 1])
  }

  lemma {:induction false} InsertSorts(items: seq<bytes>, x: bytes)
    requires Sorted(items)
    ensures Sorted(Insert(items, x)) && multiset(Insert(items, x)) == multiset(items) + multiset{x}
    decreases |items|
  {
    if items != [] {
      var init, last := items[..|items| - 1], items[|items| - 1];
      assert items == init + [last];
      if NotAfter(last, x) {
        forall i | 0 <= i < |items|
          ensures NotAfter(items[i], x)
        {
          CmpTotal(last, last);
          CmpTrans(items[i], last, x);
        }
      } else {
        InsertSorts(init, x);
        CmpTotal(last, x);
        CmpTotal(x, last);
        forall y | y in Insert(init, x)
          ensures NotAfter(y, last)
        {
          assert y in multiset(Insert(init, x));
          assert y in init || y == x;
        }
      }
    }
  }

  lemma {:induction false} SortSorts(items: seq<bytes>)
    ensures Sorted(Sort(items)) && multiset(Sort(items)) == multiset(items)
    decreases |items|
  {
    if items != [] {
      var init, last := items[..|items| - 1], items[|items| - 1];
      assert items == init + [last];
      SortSorts(init);
      InsertSorts(Sort(init), last);
    }
  }

  lemma SameLast(a: seq<bytes>, b: seq<bytes>)
    requires a != [] && b != [] && Sorted(a) && Sorted(b) && multiset(a) == multiset(b)
    ensures a[|a| - 1] == b[|b| - 1]
  {
    var (x, y) := (a[|a| - 1], b[|b| - 1]);
    assert x in multiset(b) && y in multiset(a);
    LastIsGreatest(a, y);
    LastIsGreatest(b, x);
    CmpTotal(x, y);
    CmpTotal(y, x);
  }

  lemma DropLast(a: seq<bytes>)
    requires a != []
    ensures multiset(a[..|a| - 1]) == multiset(a) - multiset{a[|a| - 1]}
  {
    assert a == a[..|a| - 1] + [a[|a| - 1]];
  }

  lemma LastSplits(a: seq<bytes>)
    requires a != []
    ensures a == a[..|a| - 1] + [a[|a| - 1]]
  {
  }

  // One order only: a sorted collection is determined by what is in it.
  lemma {:induction false} SortedUnique(a: seq<bytes>, b: seq<bytes>)
    requires Sorted(a) && Sorted(b) && multiset(a) == multiset(b)
    ensures a == b
    decreases |a|
  {
    assert |a| == |multiset(a)| == |multiset(b)| == |b|;
    if a != [] {
      var (m, n) := (a[..|a| - 1], b[..|b| - 1]);
      SameLast(a, b);
      DropLast(a);
      DropLast(b);
      SortedUnique(m, n);
      LastSplits(a);
      LastSplits(b);
    }
  }

  lemma LastIsGreatest(a: seq<bytes>, x: bytes)
    requires a != [] && Sorted(a) && x in a
    ensures NotAfter(x, a[|a| - 1])
  {
    CmpTotal(x, x);
  }

  /* ---- Preimage ---- */

  function Concat(items: seq<bytes>): bytes {
    if items == [] then [] else items[0] + Concat(items[1..])
  }

  // End to end, in order.
  lemma {:induction false} ConcatJoins(a: seq<bytes>, b: seq<bytes>)
    ensures Concat(a + b) == Concat(a) + Concat(b)
    ensures forall x :: Concat([x]) == x
    decreases |a|
  {
    forall x: bytes
      ensures Concat([x]) == x
    {
      assert [x][1..] == [] && x + [] == x;
    }
    if a == [] {
      assert a + b == b;
    } else {
      ConcatJoins(a[1..], b);
      assert (a + b)[1..] == a[1..] + b;
      Regroup(a[0], Concat(a[1..]), Concat(b));
    }
  }

  function Canonical(items: seq<bytes>): bytes { Concat(Sort(items)) }

  // The records of a collection, the smaller first.
  ghost predicate InOrder(arr: seq<bytes>, items: seq<bytes>) {
    && multiset(arr) == multiset(items)
    && forall i, j :: 0 <= i < j < |arr| ==> arr[i] == arr[j] || ComesFirst(arr[i], arr[j])
  }

  lemma SortInOrder(items: seq<bytes>)
    ensures InOrder(Sort(items), items)
  {
    var arr := Sort(items);
    SortSorts(items);
    forall i, j | 0 <= i < j < |arr|
      ensures arr[i] == arr[j] || ComesFirst(arr[i], arr[j])
    {
      assert NotAfter(arr[i], arr[j]);
      CmpTotal(arr[i], arr[j]);
      CmpMeans(arr[i], arr[j]);
    }
  }

  // What checksumSet hashes: one buffer, filled record by record.
  method ChecksumPreimage(items: seq<bytes>) returns (buf: array<byte>)
    ensures fresh(buf) && buf[..] == Canonical(items)
    ensures exists arr :: InOrder(arr, items) && buf[..] == Concat(arr)
  {
    var arr := Sort(items);
    SortInOrder(items);
    var total := 0;
    assert arr[0..] == arr;
    for i := 0 to |arr|
      invariant total + |Concat(arr[i..])| == |Concat(arr)|
    {
      assert arr[i..][1..] == arr[i + 1..];
      total := total + |arr[i]|;
    }
    buf := new byte[total];
    var off := 0;
    for i := 0 to |arr|
      invariant 0 <= off <= total && off + |Concat(arr[i..])| == total
      invariant buf[..off] + Concat(arr[i..]) == Concat(arr)
    {
      assert arr[i..][1..] == arr[i + 1..];
      ghost var (done, tail) := (buf[..off], Concat(arr[i + 1..]));
      forall k | 0 <= k < |arr[i]| { buf[off + k] := arr[i][k]; }
      assert buf[..off + |arr[i]|] == done + arr[i];
      Regroup(done, arr[i], tail);
      off := off + |arr[i]|;
    }
    assert buf[..off] + [] == buf[..];
  }

  // No record starts another, and none is empty.
  ghost predicate SelfDelimiting(items: seq<bytes>) {
    && (forall x :: x in items ==> x != [])
    && (forall x, y :: x in items && y in items && x <= y ==> x == y)
  }

  lemma {:induction false} ConcatInjective(a: seq<bytes>, b: seq<bytes>)
    requires SelfDelimiting(a + b) && Concat(a) == Concat(b)
    ensures a == b
    decreases |a|
  {
    if a != [] { assert a[0] in a + b; }
    if b != [] { assert b[0] in a + b; }
    if a != [] && b != [] {
      Comparable(a[0], b[0], Concat(a));
      assert Concat(a[1..]) == Concat(a)[|a[0]|..] == Concat(b[1..]);
      assert forall x :: x in a[1..] + b[1..] ==> x in a + b;
      ConcatInjective(a[1..], b[1..]);
      assert a == [a[0]] + a[1..] && b == [b[0]] + b[1..];
    }
  }

  lemma Comparable(x: bytes, y: bytes, s: bytes)
    requires x <= s && y <= s
    ensures x <= y || y <= x
  {
    if |x| <= |y| { assert x == y[..|x|]; } else { assert y == x[..|y|]; }
  }

  // The preimage does not depend on the order of the input, and two
  // collections of self-delimiting records have it in common exactly when
  // they hold the same records, equally often.
  lemma CanonicalExactly(a: seq<bytes>, b: seq<bytes>)
    ensures multiset(a) == multiset(b) ==> Canonical(a) == Canonical(b)
    ensures SelfDelimiting(a + b) ==> (Canonical(a) == Canonical(b) <==> multiset(a) == multiset(b))
  {
    SortSorts(a);
    SortSorts(b);
    if multiset(a) == multiset(b) { SortedUnique(Sort(a), Sort(b)); }
    if SelfDelimiting(a + b) && Canonical(a) == Canonical(b) {
      forall x | x in Sort(a) + Sort(b)
        ensures x in a + b
      {
        if x in Sort(a) { assert x in multiset(Sort(a)); } else { assert x in multiset(Sort(b)); }
      }
      ConcatInjective(Sort(a), Sort(b));
    }
  }

  // Hashes of one length, not zero, delimit themselves.
  lemma EqualLengths(items: seq<bytes>, n: nat)
    requires n > 0 && forall x :: x in items ==> |x| == n
    ensures SelfDelimiting(items)
  {
  }

  /* ---- Entity revisions ---- */

  datatype Rev = Rev(eid: bytes, updatedAt: int, ctr: int)

  function PutRev(r: Rev): Result<bytes> {
    var eid :- PutVarBytes(r.eid);
    var at :- PutVarInt(r.updatedAt);
    var ctr :- PutVarInt(r.ctr);
    Ok(eid + (at + ctr))
  }

  // A revision's bytes determine it, whatever follows them.
  lemma RevPrefixFree(a: Rev, b: Rev, s: bytes, t: bytes)
    requires PutRev(a).Ok? && PutRev(b).Ok? && PutRev(a).value + s == PutRev(b).value + t
    ensures a == b && s == t
  {
    var (ea, eb) := (Leb(|a.eid|), Leb(|b.eid|));
    var (ua, ub) := (Leb(a.updatedAt), Leb(b.updatedAt));
    var (ca, cb) := (Leb(a.ctr), Leb(b.ctr));
    Spread(ea, a.eid, ua, ca, s);
    Spread(eb, b.eid, ub, cb, t);
    LebPrefixFree(|a.eid|, |b.eid|, a.eid + (ua + (ca + s)), b.eid + (ub + (cb + t)));
    assert a.eid == (a.eid + (ua + (ca + s)))[..|a.eid|] == b.eid;
    assert ua + (ca + s) == (a.eid + (ua + (ca + s)))[|a.eid|..] == ub + (cb + t);
    LebPrefixFree(a.updatedAt, b.updatedAt, ca + s, cb + t);
    LebPrefixFree(a.ctr, b.ctr, s, t);
  }

  lemma Spread(e: bytes, eid: bytes, u: bytes, c: bytes, s: bytes)
    ensures ((e + eid) + (u + c)) + s == e + (eid + (u + (c + s)))
  {
    Regroup(u, c, s);
    Regroup(e + eid, u + c, s);
    Regroup(e, eid, u + (c + s));
  }

  function Recs(revs: seq<Rev>): seq<bytes>
    requires forall r :: r in revs ==> PutRev(r).Ok?
  {
    if revs == [] then [] else [PutRev(revs[0]).value] + Recs(revs[1..])
  }

  lemma {:induction false} RecsFrom(revs: seq<Rev>, x: bytes)
    requires (forall r :: r in revs ==> PutRev(r).Ok?) && x in Recs(revs)
    ensures exists r :: r in revs && PutRev(r).value == x
    decreases |revs|
  {
    if x == PutRev(revs[0]).value {
      assert revs[0] in revs;
    } else {
      RecsFrom(revs[1..], x);
      var r :| r in revs[1..] && PutRev(r).value == x;
      assert r in revs;
    }
  }

  lemma RecsDelimited(a: seq<Rev>, b: seq<Rev>)
    requires (forall r :: r in a ==> PutRev(r).Ok?) && forall r :: r in b ==> PutRev(r).Ok?
    ensures SelfDelimiting(Recs(a) + Recs(b))
  {
    forall x | x in Recs(a) + Recs(b)
      ensures exists r :: (r in a || r in b) && PutRev(r) == Ok(x)
    {
      if x in Recs(a) { RecsFrom(a, x); } else { RecsFrom(b, x); }
    }
    forall x | x in Recs(a) + Recs(b)
      ensures x != []
    {
      var p :| (p in a || p in b) && PutRev(p) == Ok(x);
      NoRevStarts(p, p);
    }
    forall x, y | x in Recs(a) + Recs(b) && y in Recs(a) + Recs(b) && x <= y
      ensures x == y
    {
      var p :| (p in a || p in b) && PutRev(p) == Ok(x);
      var q :| (q in a || q in b) && PutRev(q) == Ok(y);
      NoRevStarts(p, q);
    }
  }

  // The bytes of one revision never start those of another.
  lemma NoRevStarts(p: Rev, q: Rev)
    requires PutRev(p).Ok? && PutRev(q).Ok?
    ensures PutRev(p).value != []
    ensures PutRev(p).value <= PutRev(q).value ==> p == q
  {
    var (x, y) := (PutRev(p).value, PutRev(q).value);
    if x <= y {
      assert x + y[|x|..] == y + [];
      RevPrefixFree(p, q, y[|x|..], []);
    }
  }

  lemma SameRec(a: Rev, b: Rev)
    requires PutRev(a).Ok? && PutRev(b).Ok?
    ensures PutRev(a).value == PutRev(b).value <==> a == b
  {
    if PutRev(a).value == PutRev(b).value {
      assert PutRev(a).value + [] == PutRev(b).value + [];
      RevPrefixFree(a, b, [], []);
    }
  }

  lemma {:induction false} RecsCount(revs: seq<Rev>, r: Rev)
    requires (forall x :: x in revs ==> PutRev(x).Ok?) && PutRev(r).Ok?
    ensures multiset(Recs(revs))[PutRev(r).value] == multiset(revs)[r]
    decreases |revs|
  {
    if revs != [] {
      RecsCount(revs[1..], r);
      assert revs == [revs[0]] + revs[1..];
      SameRec(revs[0], r);
      assert multiset(Recs(revs)) == multiset{PutRev(revs[0]).value} + multiset(Recs(revs[1..]));
    }
  }

  // A record is listed as often as its revision.
  lemma RecsOccur(a: seq<Rev>, b: seq<Rev>, x: bytes)
    requires (forall r :: r in a ==> PutRev(r).Ok?) && (forall r :: r in b ==> PutRev(r).Ok?) && x in Recs(a)
    requires multiset(a) == multiset(b)
    ensures multiset(Recs(a))[x] == multiset(Recs(b))[x]
  {
    RecsFrom(a, x);
    var r :| r in a && PutRev(r).value == x;
    RecsCount(a, r);
    RecsCount(b, r);
  }

  lemma SameRecs(a: seq<Rev>, b: seq<Rev>)
    requires (forall r :: r in a ==> PutRev(r).Ok?) && (forall r :: r in b ==> PutRev(r).Ok?)
    ensures multiset(Recs(a)) == multiset(Recs(b)) <==> multiset(a) == multiset(b)
  {
    if multiset(Recs(a)) == multiset(Recs(b)) {
      forall r
        ensures multiset(a)[r] == multiset(b)[r]
      {
        if r in a || r in b {
          RecsCount(a, r);
          RecsCount(b, r);
        }
      }
      assert multiset(a) == multiset(b);
    }
    if multiset(a) == multiset(b) {
      forall x
        ensures multiset(Recs(a))[x] == multiset(Recs(b))[x]
      {
        if x in Recs(a) {
          RecsOccur(a, b, x);
        } else if x in Recs(b) {
          RecsOccur(b, a, x);
        }
      }
      assert multiset(Recs(a)) == multiset(Recs(b));
    }
  }

  // Two stores have one frontier preimage exactly when they hold the same
  // revisions.
  lemma RevsExactly(a: seq<Rev>, b: seq<Rev>)
    requires (forall r :: r in a ==> PutRev(r).Ok?) && forall r :: r in b ==> PutRev(r).Ok?
    ensures Canonical(Recs(a)) == Canonical(Recs(b)) <==> multiset(a) == multiset(b)
  {
    RecsDelimited(a, b);
    CanonicalExactly(Recs(a), Recs(b));
    SameRecs(a, b);
  }

  // checksumEntRevs: encode each revision; the first that cannot be encoded
  // decides the status.
  method EncodeRevs(revs: seq<Rev>) returns (recs: Result<seq<bytes>>)
    ensures recs.Ok? <==> forall r :: r in revs ==> PutRev(r).Ok?
    ensures recs.Ok? ==> recs.value == Recs(revs)
    ensures recs.Err? ==> exists i :: 0 <= i < |revs| && PutRev(revs[i]) == Err(recs.status)
                                      && forall j :: 0 <= j < i ==> PutRev(revs[j]).Ok?
  {
    var out: seq<bytes> := [];
    assert revs[0..] == revs;
    for i := 0 to |revs|
      invariant forall j :: 0 <= j < i ==> PutRev(revs[j]).Ok?
      invariant (forall r :: r in revs ==> PutRev(r).Ok?) ==> out + Recs(revs[i..]) == Recs(revs)
    {
      var rec := PutRev(revs[i]);
      if rec.Err? { return Err(rec.status); }
      assert revs[i..][1..] == revs[i + 1..];
      out := out + [rec.value];
    }
    assert out + [] == out;
    recs := Ok(out);
  }
}
