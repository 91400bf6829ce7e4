// Request batches under a soft byte budget (web/src/batch.ts).

module Batch {
  function Sum<T>(items: seq<T>, sizeOf: T -> nat): nat {
    if items == [] then 0 else Sum(items[..|items| - 1], sizeOf) + sizeOf(items[|items| - 1])
  }

  function Flat<T>(batches: seq<seq<T>>): seq<T> {
    if batches == [] then [] else Flat(batches[..|batches| - 1]) + batches[|batches| - 1]
  }

  // Within the limit, or a single item.
  predicate Fits<T>(batch: seq<T>, sizeOf: T -> nat, limit: int) {
    batch != [] && (Sum(batch, sizeOf) <= limit || |batch| == 1)
  }

  // A split of items into batches that fit.
  ghost predicate Split<T(!new)>(batches: seq<seq<T>>, items: seq<T>, sizeOf: T -> nat, limit: int) {
    Flat(batches) == items && forall k :: 0 <= k < |batches| ==> Fits(batches[k], sizeOf, limit)
  }

  // How many items the first k batches take.
  function End<T>(batches: seq<seq<T>>, k: nat): nat
    requires k <= |batches|
  {
    |Flat(batches[..k])|
  }

  // Each batch is the last, has reached the limit, or cannot take the item
  // that follows it.
  ghost predicate Greedy<T(!new)>(batches: seq<seq<T>>, items: seq<T>, sizeOf: T -> nat, limit: int) {
    forall k :: 0 <= k < |batches| ==> CannotGrow(batches, k, items, sizeOf, limit)
  }

  ghost predicate CannotGrow<T(!new)>(batches: seq<seq<T>>, k: nat, items: seq<T>, sizeOf: T -> nat, limit: int)
    requires k < |batches|
  {
    var e := End(batches, k + 1);
    e < |items| ==> Sum(batches[k], sizeOf) >= limit || Sum(batches[k], sizeOf) + sizeOf(items[e]) > limit
  }

  // No batch goes on once it has reached the limit.
  predicate StopsAtLimit<T>(batch: seq<T>, sizeOf: T -> nat, limit: int) {
    |batch| > 1 ==> Sum(batch[..|batch| - 1], sizeOf) < limit
  }

  ghost predicate Prompt<T(!new)>(batches: seq<seq<T>>, sizeOf: T -> nat, limit: int) {
    forall k :: 0 <= k < |batches| ==> StopsAtLimit(batches[k], sizeOf, limit)
  }

  lemma Joined<T>(a: seq<T>, b: seq<T>, c: seq<T>)
    ensures (a + b) + c == a + (b + c)
  {
  }

  lemma FlatSnoc<T>(batches: seq<seq<T>>, batch: seq<T>)
    ensures Flat(batches + [batch]) == Flat(batches) + batch
  {
    assert (batches + [batch])[..|batches|] == batches;
  }

  lemma EndSnoc<T>(batches: seq<seq<T>>, batch: seq<T>, k: nat)
    requires k <= |batches| + 1
    ensures End(batches + [batch], k) == if k <= |batches| then End(batches, k) else |Flat(batches)| + |batch|
  {
    if k <= |batches| {
      assert (batches + [batch])[..k] == batches[..k];
    } else {
      assert (batches + [batch])[..k] == batches + [batch];
      FlatSnoc(batches, batch);
    }
  }

  // The first n items are in batches that fit and are as large as they can be.
  ghost predicate Closed<T(!new)>(batches: seq<seq<T>>, items: seq<T>, n: nat, sizeOf: T -> nat, limit: int)
    requires n <= |items|
  {
    Split(batches, items[..n], sizeOf, limit) && Greedy(batches, items, sizeOf, limit) && Prompt(batches, sizeOf, limit)
  }

  lemma Close<T(!new)>(batches: seq<seq<T>>, items: seq<T>, n: nat, m: nat, sizeOf: T -> nat, limit: int)
    requires n < m <= |items| && Closed(batches, items, n, sizeOf, limit) && Fits(items[n..m], sizeOf, limit)
    requires n + 1 < m ==> Sum(items[n..m - 1], sizeOf) < limit
    requires m < |items| ==> Sum(items[n..m], sizeOf) >= limit || Sum(items[n..m], sizeOf) + sizeOf(items[m]) > limit
    ensures Closed(batches + [items[n..m]], items, m, sizeOf, limit)
  {
    var batch := items[n..m];
    var after := batches + [batch];
    FlatSnoc(batches, batch);
    assert items[..m] == items[..n] + batch;
    assert batch[..m - n - 1] == items[n..m - 1];
    forall k | 0 <= k < |after|
      ensures CannotGrow(after, k, items, sizeOf, limit)
    {
      EndSnoc(batches, batch, k + 1);
      if k < |batches| { assert CannotGrow(batches, k, items, sizeOf, limit); }
    }
  }

  lemma SumNext<T>(items: seq<T>, n: nat, i: nat, sizeOf: T -> nat)
    requires n <= i < |items|
    ensures Sum(items[n..i + 1], sizeOf) == Sum(items[n..i], sizeOf) + sizeOf(items[i])
    ensures items[n..i] + [items[i]] == items[n..i + 1]
  {
    assert items[n..i + 1][..i - n] == items[n..i];
  }

  // The loop before item i: closed batches up to start, and one being filled.
  ghost predicate Filling<T(!new)>(batches: seq<seq<T>>, batch: seq<T>, bytes: nat, items: seq<T>, start: nat, i: nat,
                                   sizeOf: T -> nat, limit: int) {
    && start <= i <= |items| && batch == items[start..i] && bytes == Sum(batch, sizeOf)
    && Closed(batches, items, start, sizeOf, limit)
    && (batch != [] ==> bytes < limit)
  }

  lemma CloseBefore<T(!new)>(batches: seq<seq<T>>, batch: seq<T>, bytes: nat, items: seq<T>, start: nat, i: nat,
                             sizeOf: T -> nat, limit: int)
    requires Filling(batches, batch, bytes, items, start, i, sizeOf, limit) && batch != []
    requires i < |items| ==> bytes + sizeOf(items[i]) > limit
    ensures Filling(batches + [batch], [], 0, items, i, i, sizeOf, limit)
  {
    SumNext(items, start, i - 1, sizeOf);
    Close(batches, items, start, i, sizeOf, limit);
  }

  lemma AddItem<T(!new)>(batches: seq<seq<T>>, batch: seq<T>, bytes: nat, items: seq<T>, start: nat, i: nat,
                         sizeOf: T -> nat, limit: int)
    requires Filling(batches, batch, bytes, items, start, i, sizeOf, limit) && i < |items|
    requires batch != [] ==> bytes + sizeOf(items[i]) <= limit
    ensures var (more, sum) := (batch + [items[i]], bytes + sizeOf(items[i]));
            if sum >= limit then Filling(batches + [more], [], 0, items, i + 1, i + 1, sizeOf, limit)
            else Filling(batches, more, sum, items, start, i + 1, sizeOf, limit)
  {
    SumNext(items, start, i, sizeOf);
    if bytes + sizeOf(items[i]) >= limit { Close(batches, items, start, i + 1, sizeOf, limit); }
  }

  method BatchByBytes<T(!new)>(items: seq<T>, sizeOf: T -> nat, limit: int) returns (batches: seq<seq<T>>)
    ensures Split(batches, items, sizeOf, limit) && Greedy(batches, items, sizeOf, limit)
    ensures Prompt(batches, sizeOf, limit)
  {
    batches := [];
    var batch: seq<T> := [];
    var bytes: nat := 0;
    ghost var start: nat := 0;
    for i := 0 to |items|
      invariant Filling(batches, batch, bytes, items, start, i, sizeOf, limit)
    {
      var item := items[i];
      var size := sizeOf(item);
      if |batch| > 0 && bytes + size > limit {
        CloseBefore(batches, batch, bytes, items, start, i, sizeOf, limit);
        batches := batches + [batch];
        batch := [];
        bytes := 0;
        start := i;
      }
      AddItem(batches, batch, bytes, items, start, i, sizeOf, limit);
      batch := batch + [item];
      bytes := bytes + size;
      if bytes >= limit {
        batches := batches + [batch];
        batch := [];
        bytes := 0;
        start := i + 1;
      }
    }
    if |batch| > 0 {
      CloseBefore(batches, batch, bytes, items, start, |items|, sizeOf, limit);
      batches := batches + [batch];
    }
    assert items[..|items|] == items;
  }

  /* ---- Fewest batches ---- */

  lemma {:induction false} SumAdds<T>(a: seq<T>, b: seq<T>, sizeOf: T -> nat)
    ensures Sum(a + b, sizeOf) == Sum(a, sizeOf) + Sum(b, sizeOf)
    decreases |b|
  {
    if b == [] {
      assert a + b == a;
    } else {
      assert (a + b)[..|a + b| - 1] == a + b[..|b| - 1];
      SumAdds(a, b[..|b| - 1], sizeOf);
    }
  }

  // A batch is the stretch of items between two ends.
  lemma {:induction false} Stretch<T>(batches: seq<seq<T>>, k: nat)
    requires k < |batches|
    ensures End(batches, k) <= End(batches, k + 1) <= |Flat(batches)|
    ensures Flat(batches)[End(batches, k)..End(batches, k + 1)] == batches[k]
    decreases |batches|
  {
    var n := |batches| - 1;
    assert batches[..n + 1] == batches;
    if k < n {
      assert batches[..n][..k] == batches[..k] && batches[..n][..k + 1] == batches[..k + 1];
      Stretch(batches[..n], k);
      assert Flat(batches)[..|Flat(batches[..n])|] == Flat(batches[..n]);
    }
  }

  lemma SumSplits<T>(items: seq<T>, sizeOf: T -> nat, a: nat, b: nat, c: nat)
    requires a <= b <= c <= |items|
    ensures Sum(items[a..c], sizeOf) == Sum(items[a..b], sizeOf) + Sum(items[b..c], sizeOf)
  {
    assert items[a..c] == items[a..b] + items[b..c];
    SumAdds(items[a..b], items[b..c], sizeOf);
  }

  lemma AtLeastFirst<T>(items: seq<T>, sizeOf: T -> nat, a: nat, b: nat)
    requires a < b <= |items|
    ensures Sum(items[a..b], sizeOf) >= sizeOf(items[a])
  {
    SumSplits(items, sizeOf, a, a + 1, b);
    assert items[a..a + 1][..0] == [];
  }

  // Batch k is exactly full, and the one after it weighs nothing.
  predicate WeightlessNext<T>(batches: seq<seq<T>>, k: nat, sizeOf: T -> nat, limit: int) {
    k + 1 < |batches| && Sum(batches[k], sizeOf) == limit && Sum(batches[k + 1], sizeOf) == 0
  }

  // After k batches the greedy split is ahead of the other, or behind it by
  // items that weigh nothing, which its full batch would have had room for.
  ghost predicate Ahead<T(!new)>(greedy: seq<seq<T>>, other: seq<seq<T>>, items: seq<T>, sizeOf: T -> nat, limit: int, k: nat)
    requires k <= |greedy| && k <= |other|
  {
    var (e, d) := (End(greedy, k), End(other, k));
    e < d <= |items| ==> k > 0 && Sum(greedy[k - 1], sizeOf) == limit && Sum(items[e..d], sizeOf) == 0
  }

  // One batch from b to c that cannot grow, against one from a to d > c.
  lemma NotFurther<T>(items: seq<T>, sizeOf: T -> nat, limit: int, a: nat, b: nat, c: nat, d: nat)
    requires b < c < d <= |items| && a < c && (b < a ==> Sum(items[b..a], sizeOf) == 0)
    requires Sum(items[b..c], sizeOf) >= limit || Sum(items[b..c], sizeOf) + sizeOf(items[c]) > limit
    requires Sum(items[a..d], sizeOf) <= limit
    ensures Sum(items[b..c], sizeOf) == limit && Sum(items[c..d], sizeOf) == 0
  {
    SumSplits(items, sizeOf, a, c, d);
    AtLeastFirst(items, sizeOf, c, d);
    if a <= b {
      SumSplits(items, sizeOf, a, b, c);
    } else {
      SumSplits(items, sizeOf, b, a, c);
    }
  }

  // One more batch of each: the greedy one from b to c, the other from a to d.
  lemma AheadNext<T>(items: seq<T>, sizeOf: T -> nat, limit: int, a: nat, b: nat, c: nat, d: nat)
    requires a <= d <= |items| && b < c <= |items|
    requires b < a ==> Sum(items[b..a], sizeOf) == 0
    requires b < a ==> Sum(items[b..c], sizeOf) != 0
    requires c < |items| ==> Sum(items[b..c], sizeOf) >= limit || Sum(items[b..c], sizeOf) + sizeOf(items[c]) > limit
    requires d - a > 1 ==> Sum(items[a..d], sizeOf) <= limit
    ensures c < d ==> Sum(items[b..c], sizeOf) == limit && Sum(items[c..d], sizeOf) == 0
  {
    if c <= a { SumSplits(items, sizeOf, b, c, a); }
    if a < c < d { NotFurther(items, sizeOf, limit, a, b, c, d); }
  }

  lemma {:induction false} StaysAhead<T(!new)>(greedy: seq<seq<T>>, other: seq<seq<T>>, items: seq<T>, sizeOf: T -> nat, limit: int, k: nat)
    requires Split(greedy, items, sizeOf, limit) && Greedy(greedy, items, sizeOf, limit) && Split(other, items, sizeOf, limit)
    requires forall j :: !WeightlessNext(greedy, j, sizeOf, limit)
    requires k <= |greedy| && k <= |other|
    ensures Ahead(greedy, other, items, sizeOf, limit, k)
    decreases k
  {
    if k > 0 {
      StaysAhead(greedy, other, items, sizeOf, limit, k - 1);
      Stretch(greedy, k - 1);
      Stretch(other, k - 1);
      assert CannotGrow(greedy, k - 1, items, sizeOf, limit);
      assert Fits(other[k - 1], sizeOf, limit) && Fits(greedy[k - 1], sizeOf, limit);
      assert k > 1 ==> !WeightlessNext(greedy, k - 2, sizeOf, limit);
      AheadNext(items, sizeOf, limit, End(other, k - 1), End(greedy, k - 1), End(greedy, k), End(other, k));
    }
  }

  lemma {:induction false} FlatAdds<T>(a: seq<seq<T>>, b: seq<seq<T>>)
    ensures Flat(a + b) == Flat(a) + Flat(b)
    decreases |b|
  {
    if b == [] {
      assert a + b == a;
    } else {
      var (init, last) := (b[..|b| - 1], b[|b| - 1]);
      FlatAdds(a, init);
      assert a + b == (a + init) + [last];
      FlatSnoc(a + init, last);
      Joined(Flat(a), Flat(init), last);
    }
  }

  lemma FlatMerged<T>(a: seq<seq<T>>, x: seq<T>, y: seq<T>, b: seq<seq<T>>)
    ensures Flat(a + [x, y] + b) == Flat(a + [x + y] + b)
  {
    FlatAdds(a + [x, y], b);
    FlatAdds(a + [x + y], b);
    assert a + [x, y] == (a + [x]) + [y];
    FlatSnoc(a + [x], y);
    FlatSnoc(a, x);
    FlatSnoc(a, x + y);
    Joined(Flat(a), x, y);
  }

  // The weightless batch could have gone into the full one.
  lemma OneFewer<T(!new)>(greedy: seq<seq<T>>, items: seq<T>, sizeOf: T -> nat, limit: int, k: nat) returns (other: seq<seq<T>>)
    requires Split(greedy, items, sizeOf, limit) && WeightlessNext(greedy, k, sizeOf, limit)
    ensures Split(other, items, sizeOf, limit) && |other| == |greedy| - 1
  {
    var (x, y) := (greedy[k], greedy[k + 1]);
    other := greedy[..k] + [x + y] + greedy[k + 2..];
    assert greedy == greedy[..k] + [x, y] + greedy[k + 2..];
    FlatMerged(greedy[..k], x, y, greedy[k + 2..]);
    SumAdds(x, y, sizeOf);
    assert Fits(x, sizeOf, limit);
    forall j | 0 <= j < |other|
      ensures Fits(other[j], sizeOf, limit)
    {
      if j != k { assert other[j] == greedy[if j < k then j else j + 1]; }
    }
  }

  lemma NoneFewer<T(!new)>(greedy: seq<seq<T>>, other: seq<seq<T>>, items: seq<T>, sizeOf: T -> nat, limit: int)
    requires Split(greedy, items, sizeOf, limit) && Greedy(greedy, items, sizeOf, limit) && Split(other, items, sizeOf, limit)
    requires forall j :: !WeightlessNext(greedy, j, sizeOf, limit)
    ensures |greedy| <= |other|
  {
    if |other| < |greedy| {
      var k := |other|;
      assert Fits(greedy[k], sizeOf, limit);
      assert other[..k] == other;
      assert k > 0 ==> !WeightlessNext(greedy, k - 1, sizeOf, limit);
      Stretch(greedy, k);
      SumSplits(items, sizeOf, End(greedy, k), End(greedy, k + 1), |items|);
      StaysAhead(greedy, other, items, sizeOf, limit, k);
    }
  }

  // The greedy split has fewest batches exactly when no batch of weightless
  // items comes right after one that is exactly full.
  lemma FewestExactly<T(!new)>(greedy: seq<seq<T>>, items: seq<T>, sizeOf: T -> nat, limit: int)
    requires Split(greedy, items, sizeOf, limit) && Greedy(greedy, items, sizeOf, limit)
    ensures (forall other :: Split(other, items, sizeOf, limit) ==> |greedy| <= |other|)
            <==> (forall k :: !WeightlessNext(greedy, k, sizeOf, limit))
  {
    if forall k :: !WeightlessNext(greedy, k, sizeOf, limit) {
      forall other | Split(other, items, sizeOf, limit)
        ensures |greedy| <= |other|
      {
        NoneFewer(greedy, other, items, sizeOf, limit);
      }
    } else {
      var k: nat :| WeightlessNext(greedy, k, sizeOf, limit);
      var other := OneFewer(greedy, items, sizeOf, limit, k);
    }
  }

  // In particular it has when all sizes are positive.
  lemma Fewest<T(!new)>(greedy: seq<seq<T>>, other: seq<seq<T>>, items: seq<T>, sizeOf: T -> nat, limit: int)
    requires Split(greedy, items, sizeOf, limit) && Greedy(greedy, items, sizeOf, limit) && Split(other, items, sizeOf, limit)
    requires forall x :: x in items ==> sizeOf(x) > 0
    ensures |greedy| <= |other|
  {
    forall k: nat
      ensures !WeightlessNext(greedy, k, sizeOf, limit)
    {
      if k + 1 < |greedy| {
        Stretch(greedy, k + 1);
        assert Fits(greedy[k + 1], sizeOf, limit);
        var e := End(greedy, k + 1);
        assert items[e] in items;
        AtLeastFirst(items, sizeOf, e, End(greedy, k + 2));
      }
    }
    NoneFewer(greedy, other, items, sizeOf, limit);
  }
}
