// EntDBMemory (web/src/entdb/memory.ts): rows by eid, with the secondary
// indexes kept beside them, and queries served from the indexes or by a scan.

module EntMemory {
  import opened Basics
  import opened Lww
  import opened EntQuery
  import opened EntIndex

  class EntDBMemory {
    const useIndex: bool
    var ents: Store
    var byType: map<string, Store>
    var byTypePid: Index<seq<byte>>
    var byTypeTag: Index<string>

    ghost predicate IndexesHold(s: Store)
      reads this
    {
      if useIndex then TypesIndexed(byType, s) && Indexes(byTypePid, s, PidsOf) && Indexes(byTypeTag, s, TagsOf)
      else byType == map[] && byTypePid == map[] && byTypeTag == map[]
    }

    ghost predicate Valid()
      reads this
    {
      Normal(ents) && IndexesHold(ents)
    }

    constructor (initEnts: seq<Row>, indexes: bool)
      requires forall row :: row in initEnts ==> row.Live? && "" !in row.content.tags
      ensures Valid() && useIndex == indexes
      ensures forall e :: e in ents <==> exists i :: 0 <= i < |initEnts| && initEnts[i].eid == e
      ensures forall e :: e in ents ==> ents[e] in initEnts
    {
      useIndex := indexes;
      ents, byType, byTypePid, byTypeTag := map[], map[], map[], map[];
      new;
      for i := 0 to |initEnts|
        invariant Valid()
        invariant forall e :: e in ents <==> exists k :: 0 <= k < i && initEnts[k].eid == e
        invariant forall e :: e in ents ==> ents[e] in initEnts
      {
        Put(initEnts[i]);
      }
    }

    // Installs or replaces a row.
    method Put(row: Row)
      requires Valid() && (row.Live? ==> "" !in row.content.tags)
      modifies this
      ensures Valid() && ents == old(ents)[row.eid := row]
    {
      var key := row.eid;
      ghost var rest := ents - {key};
      if key in ents && ents[key].Live? {
        Unindex(key, ents[key], ents);
      } else {
        Unlisted(ents, key);
      }
      ents := ents[key := row];
      assert rest[key := row] == ents;
      if row.Live? {
        AddIndex(key, row, rest);
      } else {
        Unlisted(ents, key);
        assert ents - {key} == rest;
      }
    }

    // Removes the row of an eid, if there is one.
    method Remove(key: Eid)
      requires Valid()
      modifies this
      ensures Valid() && ents == old(ents) - {key}
    {
      if key !in ents {
        assert ents - {key} == ents;
        return;
      }
      if ents[key].Live? {
        Unindex(key, ents[key], ents);
      } else {
        Unlisted(ents, key);
      }
      ents := ents - {key};
    }

    method AddIndex(key: Eid, row: Row, ghost s: Store)
      requires row.Live? && key !in s && IndexesHold(s)
      modifies this`byType, this`byTypePid, this`byTypeTag
      ensures IndexesHold(s[key := row])
    {
      if !useIndex { return; }
      byType := AddType(byType, key, row, s);
      byTypePid := AddKeys(byTypePid, key, row, if row.content.pid.Some? then [row.content.pid.value] else [], PidsOf, s);
      byTypeTag := AddKeys(byTypeTag, key, row, row.content.tags, TagsOf, s);
    }

    method Unindex(key: Eid, row: Row, ghost s: Store)
      requires row.Live? && key in s && s[key] == row && IndexesHold(s)
      modifies this`byType, this`byTypePid, this`byTypeTag
      ensures IndexesHold(s - {key})
    {
      if !useIndex { return; }
      byType := DropType(byType, key, row, s);
      byTypePid := DropKeys(byTypePid, key, row, if row.content.pid.Some? then [row.content.pid.value] else [], PidsOf, s);
      byTypeTag := DropKeys(byTypeTag, key, row, row.content.tags, TagsOf, s);
    }

    // Indexes do not list tombstones.
    lemma Unlisted(s: Store, key: Eid)
      requires key in s ==> s[key].Tomb?
      ensures IndexesHold(s) <==> IndexesHold(s - {key})
    {
      assert forall t :: LiveRows(s - {key}, t) == LiveRows(s, t);
      assert forall t, k :: Under(s - {key}, PidsOf, t, k) == Under(s, PidsOf, t, k);
      assert forall t, k :: Under(s - {key}, TagsOf, t, k) == Under(s, TagsOf, t, k);
    }

    // One op after the other.
    method Apply(ops: seq<Op>) returns (stats: seq<Status>, types: set<string>, eids: seq<Eid>)
      requires Valid()
      modifies this
      ensures Valid() && ents == ApplyAll(old(ents), ops)
      ensures stats == Statuses(old(ents), ops) && types == Types(old(ents), ops) && eids == Changed(old(ents), ops)
    {
      stats, types, eids := [], {}, [];
      for i := 0 to |ops|
        invariant Valid() && ents == ApplyAll(old(ents), ops[..i])
        invariant stats == Statuses(old(ents), ops[..i]) && types == Types(old(ents), ops[..i])
        invariant eids == Changed(old(ents), ops[..i])
      {
        ApplyAllStep(old(ents), ops, i);
        var curr := Find(ents, ops[i].eid);
        match ApplyOp(curr, ops[i])
        case Err(status) =>
          stats := stats + [status];
        case Ok(next) =>
          types := types + TypesChanged(curr, next);
          Put(next);
          eids := eids + [ops[i].eid];
          stats := stats + [Success];
      }
      assert ops[..|ops|] == ops;
    }

    method Clear()
      requires Valid()
      modifies this
      ensures Valid() && ents == map[]
    {
      ents, byType, byTypePid, byTypeTag := map[], map[], map[], map[];
    }

    /* ---- Queries ---- */

    method GetEntities(q: Query) returns (answer: Result<seq<Row>>)
      requires Valid()
      ensures Answers(ents, q, answer) && Gives(ents, q, answer)
    {
      if useIndex {
        answer := ByIndex(q);
      } else {
        answer := Scan(q);
      }
      AnswersMean(ents, q, answer);
    }

    method ByIndex(q: Query) returns (answer: Result<seq<Row>>)
      requires Valid() && useIndex
      ensures Answers(ents, q, answer)
    {
      match q
      case OfType(t) =>
        var out := BucketList(BucketOf(byType, t));
        answer := Ok(out);
        assert BucketOf(byType, t) == LiveRows(ents, t);
      case OfPid(t, pid) =>
        var out := BucketList(BucketOf(Get(byTypePid, t), pid));
        answer := Ok(out);
        assert BucketOf(Get(byTypePid, t), pid) == Under(ents, PidsOf, t, pid);
      case OfTag(t, spec) => answer := ByTagSpec(t, spec);
      case OfDate(t, spec) => answer := ByDateSpec(t, spec);
    }

    method CountEntities(t: string) returns (n: nat)
      requires Valid()
      ensures n == |LiveRows(ents, t)| == |set e | e in ents && ents[e].Live? && ents[e].content.typ == t|
    {
      assert LiveRows(ents, t).Keys == set e | e in ents && ents[e].Live? && ents[e].content.typ == t;

      if useIndex {
        n := |BucketOf(byType, t)|;
        assert BucketOf(byType, t) == LiveRows(ents, t);
      } else {
        n := 0;
        var keys := ents.Keys;
        ghost var seen: Store := map[];
        while keys != {}
          invariant keys <= ents.Keys && seen == LiveRows(ents - keys, t) && n == |seen|
        {
          var e :| e in keys;
          LiveRowsGrow(ents, keys, e, t);
          if ents[e].Live? && ents[e].content.typ == t {
            n := n + 1;
            seen := seen[e := ents[e]];
          }
          keys := keys - {e};
        }
        assert ents - {} == ents;
      }
    }

    // Scanning one more row.
    static lemma LiveRowsGrow(s: Store, keys: set<Eid>, e: Eid, t: string)
      requires e in keys && e in s
      ensures e !in LiveRows(s - keys, t)
      ensures LiveRows(s - (keys - {e}), t) ==
              if s[e].Live? && s[e].content.typ == t then LiveRows(s - keys, t)[e := s[e]] else LiveRows(s - keys, t)
    {
    }

    // Rows of a bucket, in some order.
    static method BucketList(bucket: Store) returns (out: seq<Row>)
      requires forall e :: e in bucket ==> bucket[e].eid == e
      ensures NoRepeats(out)
      ensures forall row :: row in out <==> row.eid in bucket && bucket[row.eid] == row
    {
      out := [];
      var keys := bucket.Keys;
      while keys != {}
        invariant keys <= bucket.Keys && NoRepeats(out)
        invariant forall row :: row in out <==> row.eid in bucket && row.eid !in keys && bucket[row.eid] == row
      {
        var e :| e in keys;
        keys := keys - {e};
        out := out + [bucket[e]];
      }
    }

    // Rows of a bucket that satisfy a test on the update time.
    method ByDateSpec(t: string, spec: DateSpec) returns (answer: Result<seq<Row>>)
      requires Valid() && useIndex
      ensures Answers(ents, OfDate(t, spec), answer)
    {
      var may :- DateMayMatch(spec);
      assert may;
      var all := BucketList(BucketOf(byType, t));
      assert BucketOf(byType, t) == LiveRows(ents, t);
      var out: seq<Row> := [];
      for i := 0 to |all|
        invariant NoRepeats(out)
        invariant forall row :: row in out <==> row in all[..i] && DateMatches(row.updatedAt, spec)
      {
        if DateMatches(all[i].updatedAt, spec) { out := out + [all[i]]; }
      }
      assert all[..|all|] == all;
      answer := Ok(out);
    }

    // Exact tags use the tag map; ranges and prefixes walk its keys.
    method ByTagSpec(t: string, spec: TagSpec) returns (answer: Result<seq<Row>>)
      requires Valid() && useIndex
      ensures Answers(ents, OfTag(t, spec), answer)
    {
      var may :- TagMayMatch(spec);
      if !may {
        return Ok([]);
      }
      var byTag := Get(byTypeTag, t);
      if spec.Exactly? {
        var out := BucketList(BucketOf(byTag, spec.tag));
        assert BucketOf(byTag, spec.tag) == Under(ents, TagsOf, t, spec.tag);
        answer := Ok(out);
        return;
      }
      var out := WalkTags(t, spec, byTag);
      answer := Ok(out);
      forall row
        ensures row in out <==> Matches(row, OfTag(t, spec)) && row.eid in ents && ents[row.eid] == row
      {
        TagsWalked(row, t, spec, byTag);
      }
    }

    // Every bucket whose tag matches, each row once.
    method WalkTags(t: string, spec: TagSpec, byTag: map<string, Store>) returns (out: seq<Row>)
      requires Valid() && useIndex && byTag == Get(byTypeTag, t)
      ensures NoRepeats(out) && forall row :: row in out <==> HasTag(row, t, spec, byTag.Keys)
    {
      var tags := byTag.Keys;
      var seen: set<Eid> := {};
      out := [];
      while tags != {}
        invariant tags <= byTag.Keys
        invariant NoRepeats(out) && seen == set row | row in out :: row.eid
        invariant forall row :: row in out <==> HasTag(row, t, spec, byTag.Keys - tags)
      {
        var tag :| tag in tags;
        ghost var walked := byTag.Keys - tags;
        OneLess(byTag.Keys, tags, tag);
        assert byTag[tag] == Under(ents, TagsOf, t, tag) by { assert byTag[tag] == BucketOf(Get(byTypeTag, t), tag); }
        if TagMatches(tag, spec) {
          out, seen := Gather(byTag[tag], out, seen);
        }
        tags := tags - {tag};
        HasTagStep(t, spec, walked, tag, byTag[tag]);
      }
    }

    static lemma OneLess(all: set<string>, tags: set<string>, tag: string)
      requires tags <= all && tag in tags
      ensures all - (tags - {tag}) == all - tags + {tag}
    {
    }

    lemma HasTagStep(t: string, spec: TagSpec, walked: set<string>, tag: string, bucket: Store)
      requires bucket == Under(ents, TagsOf, t, tag)
      ensures forall row :: HasTag(row, t, spec, walked + {tag}) <==>
                HasTag(row, t, spec, walked) || (TagMatches(tag, spec) && row.eid in bucket && bucket[row.eid] == row)
    {
    }

    // Some tag of row among those walked matches.
    ghost predicate HasTag(row: Row, t: string, spec: TagSpec, walked: set<string>)
      reads this
    {
      && row.eid in ents && ents[row.eid] == row && row.Live? && row.content.typ == t
      && exists tag :: tag in row.content.tags && tag in walked && TagMatches(tag, spec)
    }

    lemma TagsWalked(row: Row, t: string, spec: TagSpec, byTag: map<string, Store>)
      requires Valid() && useIndex && byTag == Get(byTypeTag, t)
      ensures HasTag(row, t, spec, byTag.Keys) <==> Matches(row, OfTag(t, spec)) && row.eid in ents && ents[row.eid] == row
    {
      if Matches(row, OfTag(t, spec)) && row.eid in ents && ents[row.eid] == row {
        var tag :| tag in row.content.tags && TagMatches(tag, spec);
        assert row.eid in Under(ents, TagsOf, t, tag);
        assert row.eid in BucketOf(Get(byTypeTag, t), tag);
      }
    }

    // Appends the rows of a bucket that were not seen yet.
    static method Gather(bucket: Store, before: seq<Row>, seenBefore: set<Eid>) returns (out: seq<Row>, seen: set<Eid>)
      requires forall e :: e in bucket ==> bucket[e].eid == e
      requires NoRepeats(before) && seenBefore == set row | row in before :: row.eid
      requires forall row :: row in before && row.eid in bucket ==> bucket[row.eid] == row
      ensures NoRepeats(out) && seen == set row | row in out :: row.eid
      ensures forall row :: row in out <==> row in before || (row.eid in bucket && bucket[row.eid] == row)
    {
      out, seen := before, seenBefore;
      var keys := bucket.Keys;
      while keys != {}
        invariant keys <= bucket.Keys
        invariant NoRepeats(out) && seen == set row | row in out :: row.eid
        invariant forall row :: row in out <==> row in before || (row.eid in bucket && row.eid !in keys && bucket[row.eid] == row)
      {
        var e :| e in keys;
        keys := keys - {e};
        if e in seen { continue; }
        seen := seen + {e};
        out := out + [bucket[e]];
      }
    }

    // Full scan, for a store without indexes.
    method Scan(q: Query) returns (answer: Result<seq<Row>>)
      requires Valid()
      ensures Answers(ents, q, answer)
    {
      if q.OfTag? {
        var may :- TagMayMatch(q.tags);
        if !may {
          return Ok([]);
        }
      } else if q.OfDate? {
        var may :- DateMayMatch(q.dates);
        assert may;
      }
      var out: seq<Row> := [];
      var keys := ents.Keys;
      while keys != {}
        invariant keys <= ents.Keys && NoRepeats(out)
        invariant forall row :: row in out <==>
                    Matches(row, q) && row.eid in ents && row.eid !in keys && ents[row.eid] == row
      {
        var e :| e in keys;
        keys := keys - {e};
        if Matches(ents[e], q) { out := out + [ents[e]]; }
      }
      answer := Ok(out);
    }
  }
}
