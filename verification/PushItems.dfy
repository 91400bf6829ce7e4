// The answer to one PUSH (shared/api/push.ts): rejected bags first, then one
// item per stored bag, each naming the bag's index in the request.

module PushItems {
  import opened Basics

  datatype PushItem = PushItem(idx: nat, outcome: Result<nat>)

  // Indexes of the bags whose signature is valid, in request order.
  function Accepted(valid: seq<bool>): (idxs: seq<nat>)
    ensures forall i :: 0 <= i < |idxs| ==> idxs[i] < |valid| && valid[idxs[i]]
    ensures forall i, j :: 0 <= i < j < |idxs| ==> idxs[i] < idxs[j]
    ensures forall k :: 0 <= k < |valid| && valid[k] ==> k in idxs
    decreases |valid|
  {
    if valid == [] then []
    else
      var n := |valid| - 1;
      Accepted(valid[..n]) + (if valid[n] then [n] else [])
  }

  function Rejections(valid: seq<bool>): (items: seq<PushItem>)
    ensures forall i :: 0 <= i < |items| ==>
              items[i].idx < |valid| && !valid[items[i].idx] && items[i].outcome == Err(InvalidSignature)
    ensures forall i, j :: 0 <= i < j < |items| ==> items[i].idx < items[j].idx
    ensures forall k :: 0 <= k < |valid| && !valid[k] ==> PushItem(k, Err(InvalidSignature)) in items
    decreases |valid|
  {
    if valid == [] then []
    else
      var n := |valid| - 1;
      Rejections(valid[..n]) + (if valid[n] then [] else [PushItem(n, Err(InvalidSignature))])
  }

  // One more verdict.
  lemma TakeOne(valid: seq<bool>, n: nat)
    requires n < |valid|
    ensures Accepted(valid[..n + 1]) == Accepted(valid[..n]) + (if valid[n] then [n] else [])
    ensures Rejections(valid[..n + 1]) == Rejections(valid[..n]) + (if valid[n] then [] else [PushItem(n, Err(InvalidSignature))])
  {
    assert valid[..n + 1][..n] == valid[..n];
  }

  // stored[i] is the storage outcome of the i-th accepted bag.
  function Items(valid: seq<bool>, stored: seq<Result<nat>>): (items: seq<PushItem>)
    requires |stored| == |Accepted(valid)|
    ensures |items| == |valid|
  {
    CountSplit(valid);
    Rejections(valid) + seq(|stored|, i requires 0 <= i < |stored| => PushItem(Accepted(valid)[i], stored[i]))
  }

  lemma {:induction false} CountSplit(valid: seq<bool>)
    ensures |Rejections(valid)| + |Accepted(valid)| == |valid|
    decreases |valid|
  {
    if valid != [] { CountSplit(valid[..|valid| - 1]); }
  }

  ghost predicate AnsweredOnce(items: seq<PushItem>, k: nat) {
    && (exists n :: 0 <= n < |items| && items[n].idx == k)
    && (forall m, n :: 0 <= m < n < |items| && items[m].idx == k ==> items[n].idx != k)
  }

  lemma ListedAt(rejected: seq<PushItem>, idxs: seq<nat>, stored: seq<Result<nat>>, n: nat)
    requires |stored| == |idxs| && n < |rejected| + |idxs|
    ensures (rejected + seq(|stored|, i requires 0 <= i < |stored| => PushItem(idxs[i], stored[i])))[n] ==
            if n < |rejected| then rejected[n] else PushItem(idxs[n - |rejected|], stored[n - |rejected|])
  {
  }

  lemma ItemAt(valid: seq<bool>, stored: seq<Result<nat>>, n: nat)
    requires |stored| == |Accepted(valid)| && n < |valid|
    ensures |Rejections(valid)| + |Accepted(valid)| == |valid|
    ensures var rej := |Rejections(valid)|;
            Items(valid, stored)[n] ==
              if n < rej then Rejections(valid)[n] else PushItem(Accepted(valid)[n - rej], stored[n - rej])
  {
    CountSplit(valid);
    ListedAt(Rejections(valid), Accepted(valid), stored, n);
  }

  // A success answers an accepted bag.
  lemma SuccessOf(valid: seq<bool>, stored: seq<Result<nat>>, n: nat) returns (i: nat)
    requires |stored| == |Accepted(valid)| && n < |valid| && Items(valid, stored)[n].outcome.Ok?
    ensures i < |stored| && Items(valid, stored)[n] == PushItem(Accepted(valid)[i], stored[i])
  {
    ItemAt(valid, stored, n);
    i := n - |Rejections(valid)|;
  }

  lemma DistinctIdx(valid: seq<bool>, stored: seq<Result<nat>>, m: nat, n: nat)
    requires |stored| == |Accepted(valid)| && m < n < |valid|
    ensures Items(valid, stored)[m].idx != Items(valid, stored)[n].idx
  {
    ItemAt(valid, stored, m);
    ItemAt(valid, stored, n);
  }

  lemma SomeIdx(valid: seq<bool>, stored: seq<Result<nat>>, k: nat) returns (n: nat)
    requires |stored| == |Accepted(valid)| && k < |valid|
    ensures n < |valid| && Items(valid, stored)[n].idx == k
  {
    if valid[k] {
      var i :| 0 <= i < |Accepted(valid)| && Accepted(valid)[i] == k;
      CountSplit(valid);
      n := |Rejections(valid)| + i;
    } else {
      n :| 0 <= n < |Rejections(valid)| && Rejections(valid)[n] == PushItem(k, Err(InvalidSignature));
      CountSplit(valid);
    }
    ItemAt(valid, stored, n);
  }

  // Every request index is answered by exactly one item.
  lemma OneItemPerIndex(valid: seq<bool>, stored: seq<Result<nat>>)
    requires |stored| == |Accepted(valid)|
    ensures |Items(valid, stored)| == |valid|
    ensures forall k: nat :: k < |valid| ==> AnsweredOnce(Items(valid, stored), k)
  {
    var items := Items(valid, stored);
    forall k: nat | k < |valid|
      ensures AnsweredOnce(items, k)
    {
      var n := SomeIdx(valid, stored, k);
      forall a, b | 0 <= a < b < |items|
        ensures items[a].idx != items[b].idx
      {
        DistinctIdx(valid, stored, a, b);
      }
    }
  }
}
