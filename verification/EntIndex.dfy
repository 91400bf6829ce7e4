// The secondary indexes of EntDBMemory (web/src/entdb/memory.ts): type to row,
// type and parent to row, type and tag to row, with no empty buckets.

module EntIndex {
  import opened Basics
  import opened Lww
  import opened EntQuery

  // type -> key -> eid -> row
  type Index<K> = map<string, map<K, Store>>

  function PidsOf(c: Content): set<seq<byte>> { if c.pid.Some? then {c.pid.value} else {} }

  function TagsOf(c: Content): set<string> { set t | t in c.tags }

  // Rows of s that belong under key k of type t.
  function Under<K>(s: Store, keysOf: Content -> set<K>, t: string, k: K): Store {
    map e | e in s && s[e].Live? && s[e].content.typ == t && k in keysOf(s[e].content) :: s[e]
  }

  function BucketOf<K>(byKey: map<K, Store>, k: K): Store { if k in byKey then byKey[k] else map[] }

  function Get<K>(idx: Index<K>, t: string): map<K, Store> { if t in idx then idx[t] else map[] }

  predicate NoEmpty<K>(byKey: map<K, Store>) { forall k :: k in byKey ==> byKey[k] != map[] }

  // idx lists exactly the live rows of s, and has no empty bucket.
  ghost predicate Indexes<K(!new)>(idx: Index<K>, s: Store, keysOf: Content -> set<K>) {
    && (forall t :: t in idx ==> idx[t] != map[] && NoEmpty(idx[t]))
    && (forall t, k :: BucketOf(Get(idx, t), k) == Under(s, keysOf, t, k))
  }

  ghost predicate TypesIndexed(byType: map<string, Store>, s: Store) {
    && NoEmpty(byType)
    && (forall t :: BucketOf(byType, t) == LiveRows(s, t))
  }

  function LiveRows(s: Store, t: string): Store { map e | e in s && s[e].Live? && s[e].content.typ == t :: s[e] }

  /* ---- One bucket ---- */

  function Put<K>(byKey: map<K, Store>, k: K, e: Eid, row: Row): map<K, Store> { byKey[k := BucketOf(byKey, k)[e := row]] }

  // The bucket goes when its last row goes.
  function Del<K>(byKey: map<K, Store>, k: K, e: Eid): map<K, Store> {
    if k !in byKey then byKey
    else if byKey[k] - {e} == map[] then byKey - {k}
    else byKey[k := byKey[k] - {e}]
  }

  lemma PutAt<K>(byKey: map<K, Store>, k: K, e: Eid, row: Row, k': K)
    ensures BucketOf(Put(byKey, k, e, row), k') == if k' == k then BucketOf(byKey, k)[e := row] else BucketOf(byKey, k')
    ensures NoEmpty(byKey) ==> NoEmpty(Put(byKey, k, e, row))
    ensures Put(byKey, k, e, row) != map[]
  {
    assert e in BucketOf(byKey, k)[e := row];
    assert k in Put(byKey, k, e, row);
  }

  lemma DelAt<K>(byKey: map<K, Store>, k: K, e: Eid, k': K)
    ensures BucketOf(Del(byKey, k, e), k') == if k' == k then BucketOf(byKey, k) - {e} else BucketOf(byKey, k')
    ensures NoEmpty(byKey) ==> NoEmpty(Del(byKey, k, e))
  {
  }

  /* ---- One row in, one row out ---- */

  method AddType(byType: map<string, Store>, e: Eid, row: Row, ghost s: Store) returns (out: map<string, Store>)
    requires row.Live? && e !in s && TypesIndexed(byType, s)
    ensures TypesIndexed(out, s[e := row])
  {
    var t := row.content.typ;
    out := byType;
    if t !in out { out := out[t := map[]]; }
    out := out[t := out[t][e := row]];
    assert out == Put(byType, t, e, row);
    PutAt(byType, t, e, row, t);
    forall t'
      ensures BucketOf(out, t') == LiveRows(s[e := row], t')
    {
      PutAt(byType, t, e, row, t');
      assert BucketOf(byType, t') == LiveRows(s, t');
    }
  }

  method DropType(byType: map<string, Store>, e: Eid, row: Row, ghost s: Store) returns (out: map<string, Store>)
    requires row.Live? && e in s && s[e] == row && TypesIndexed(byType, s)
    ensures TypesIndexed(out, s - {e})
  {
    var t := row.content.typ;
    out := byType;
    if t in out {
      var bucket := out[t] - {e};
      out := if bucket == map[] then out - {t} else out[t := bucket];
    }
    assert out == Del(byType, t, e);
    forall t'
      ensures BucketOf(out, t') == LiveRows(s - {e}, t')
    {
      DelAt(byType, t, e, t');
      assert BucketOf(byType, t') == LiveRows(s, t');
      if t' != t { assert e !in LiveRows(s, t'); }
    }
  }

  // The loops over a row's keys.
  method PutEach<K(==, !new)>(byKey: map<K, Store>, e: Eid, row: Row, keys: seq<K>) returns (out: map<K, Store>)
    requires NoEmpty(byKey)
    ensures NoEmpty(out) && (keys != [] ==> out != map[])
    ensures forall k :: BucketOf(out, k) == if k in keys then BucketOf(byKey, k)[e := row] else BucketOf(byKey, k)
  {
    out := byKey;
    for i := 0 to |keys|
      invariant NoEmpty(out) && (i > 0 ==> out != map[])
      invariant forall k :: BucketOf(out, k) == if k in keys[..i] then BucketOf(byKey, k)[e := row] else BucketOf(byKey, k)
    {
      ghost var before := out;
      if keys[i] !in out { out := out[keys[i] := map[]]; }
      out := out[keys[i] := out[keys[i]][e := row]];
      assert out == Put(before, keys[i], e, row);
      assert keys[..i + 1] == keys[..i] + [keys[i]];
      forall k
        ensures BucketOf(out, k) == if k in keys[..i + 1] then BucketOf(byKey, k)[e := row] else BucketOf(byKey, k)
      {
        PutAt(before, keys[i], e, row, k);
      }
      PutAt(before, keys[i], e, row, keys[i]);
    }
    assert keys[..|keys|] == keys;
  }

  method DelEach<K(==, !new)>(byKey: map<K, Store>, e: Eid, keys: seq<K>) returns (out: map<K, Store>)
    requires NoEmpty(byKey)
    ensures NoEmpty(out)
    ensures forall k :: BucketOf(out, k) == if k in keys then BucketOf(byKey, k) - {e} else BucketOf(byKey, k)
  {
    out := byKey;
    for i := 0 to |keys|
      invariant NoEmpty(out)
      invariant forall k :: BucketOf(out, k) == if k in keys[..i] then BucketOf(byKey, k) - {e} else BucketOf(byKey, k)
    {
      ghost var before := out;
      if keys[i] in out {
        var bucket := out[keys[i]] - {e};
        out := if bucket == map[] then out - {keys[i]} else out[keys[i] := bucket];
      }
      assert out == Del(before, keys[i], e);
      assert keys[..i + 1] == keys[..i] + [keys[i]];
      forall k
        ensures BucketOf(out, k) == if k in keys[..i + 1] then BucketOf(byKey, k) - {e} else BucketOf(byKey, k)
      {
        DelAt(before, keys[i], e, k);
      }
      DelAt(before, keys[i], e, keys[i]);
    }
    assert keys[..|keys|] == keys;
  }

  lemma UnderPut<K>(s: Store, keysOf: Content -> set<K>, e: Eid, row: Row, t: string, k: K)
    requires row.Live? && e !in s
    ensures Under(s[e := row], keysOf, t, k) ==
            if t == row.content.typ && k in keysOf(row.content) then Under(s, keysOf, t, k)[e := row] else Under(s, keysOf, t, k)
  {
  }

  lemma UnderDel<K>(s: Store, keysOf: Content -> set<K>, e: Eid, t: string, k: K)
    requires e in s && s[e].Live?
    ensures Under(s - {e}, keysOf, t, k) == Under(s, keysOf, t, k) - {e}
    ensures t != s[e].content.typ || k !in keysOf(s[e].content) ==> e !in Under(s, keysOf, t, k)
  {
  }

  // Lists row under each of its keys. Without keys the index stays as it is:
  // rows come normalized, so their tags are absent rather than an empty list.
  method AddKeys<K(==, !new)>(idx: Index<K>, e: Eid, row: Row, keys: seq<K>, keysOf: Content -> set<K>, ghost s: Store)
    returns (out: Index<K>)
    requires row.Live? && e !in s && Indexes(idx, s, keysOf) && keysOf(row.content) == set k | k in keys
    ensures Indexes(out, s[e := row], keysOf)
  {
    var t := row.content.typ;
    out := idx;
    if keys != [] {
      var byKey := PutEach(Get(idx, t), e, row, keys);
      out := idx[t := byKey];
    }
    forall t', k
      ensures BucketOf(Get(out, t'), k) == Under(s[e := row], keysOf, t', k)
    {
      assert BucketOf(Get(idx, t'), k) == Under(s, keysOf, t', k);
      assert k in keys <==> k in keysOf(row.content);
      UnderPut(s, keysOf, e, row, t', k);
    }
  }

  // Removes row from under each of its keys.
  method DropKeys<K(==, !new)>(idx: Index<K>, e: Eid, row: Row, keys: seq<K>, keysOf: Content -> set<K>, ghost s: Store)
    returns (out: Index<K>)
    requires row.Live? && e in s && s[e] == row && Indexes(idx, s, keysOf) && keysOf(row.content) == set k | k in keys
    ensures Indexes(out, s - {e}, keysOf)
  {
    var t := row.content.typ;
    out := idx;
    if t in idx {
      var byKey := DelEach(idx[t], e, keys);
      out := if byKey == map[] then idx - {t} else idx[t := byKey];
      assert forall t' :: Get(out, t') == if t' == t then byKey else Get(idx, t');
    }
    forall t', k
      ensures BucketOf(Get(out, t'), k) == Under(s - {e}, keysOf, t', k)
    {
      assert BucketOf(Get(idx, t'), k) == Under(s, keysOf, t', k);
      assert k in keys <==> k in keysOf(row.content);
      UnderDel(s, keysOf, e, t', k);
    }
  }
}
