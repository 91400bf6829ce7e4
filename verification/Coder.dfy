// The Encoder and Decoder objects (shared/codec.ts) and the record codecs as
// they use them (shared/codecs). A method reads or writes exactly what the
// function of the same record in Codec and Structs says.

module Coder {
  import opened Basics
  import opened Codec
  import opened Structs

  function Flat(parts: seq<bytes>): bytes {
    if parts == [] then [] else Flat(parts[..|parts| - 1]) + parts[|parts| - 1]
  }

  lemma FlatSnoc(parts: seq<bytes>, b: bytes)
    ensures Flat(parts + [b]) == Flat(parts) + b
  {
    assert (parts + [b])[..|parts|] == parts;
  }

  lemma {:induction false} FlatCons(b: bytes, parts: seq<bytes>)
    ensures Flat([b] + parts) == b + Flat(parts)
    decreases |parts|
  {
    var all := [b] + parts;
    if parts == [] {
      assert all[..0] == [] && all == [b];
    } else {
      assert all[..|all| - 1] == [b] + parts[..|parts| - 1];
      FlatCons(b, parts[..|parts| - 1]);
    }
  }

  // What a write leaves: all of p after what was there, or p's status.
  ghost predicate Wrote(p: Result<bytes>, st: Status, before: bytes, after: bytes) {
    match p
    case Ok(b) => st == Success && after == before + b
    case Err(f) => st == f
  }

  // What a read leaves: p's value and the bytes it did not take, or its status.
  ghost predicate Took<T>(p: Read<T>, r: Result<T>, rest: bytes) {
    match p
    case Got(v, s) => r == Ok(v) && rest == s
    case Fail(st) => r == Err(st)
  }

  // A list read so far, and what the rest of the loop reads.
  function After<T>(done: seq<T>, d: Read<seq<T>>): Read<seq<T>> {
    match d
    case Got(more, rest) => Got(done + more, rest)
    case Fail(st) => Fail(st)
  }

  lemma AfterOne<T>(done: seq<T>, x: T, d: Read<seq<T>>)
    ensures After(done, match d case Got(more, rest) => Got([x] + more, rest) case Fail(st) => Fail(st)) == After(done + [x], d)
  {
    if d.Got? { assert done + ([x] + d.value) == done + [x] + d.value; }
  }

  lemma AfterNone<T>(d: Read<seq<T>>)
    ensures After([], d) == d
  {
    if d.Got? { assert [] + d.value == d.value; }
  }

  class Encoder {
    var parts: seq<bytes>

    ghost function Written(): bytes
      reads this
    {
      Flat(parts)
    }

    constructor ()
      ensures Written() == []
    {
      parts := [];
    }

    method WriteBytes(b: bytes)
      modifies this
      ensures Written() == old(Written()) + b
    {
      FlatSnoc(parts, b);
      parts := parts + [b];
    }

    method PrependBytes(b: bytes)
      modifies this
      ensures Written() == b + old(Written())
    {
      FlatCons(b, parts);
      parts := [b] + parts;
    }

    method WriteVarInt(n: int) returns (st: Status)
      modifies this
      ensures Wrote(PutVarInt(n), st, old(Written()), Written())
    {
      var r := EncodeVarInt(n);
      if r.Err? { return r.status; }
      WriteBytes(r.value);
      st := Success;
    }

    method WriteVarBytes(b: bytes) returns (st: Status)
      modifies this
      ensures Wrote(PutVarBytes(b), st, old(Written()), Written())
    {
      st := WriteVarInt(|b|);
      if st != Success { return; }
      ghost var n := PutVarInt(|b|).value;
      Regroup(old(Written()), n, b);
      WriteBytes(b);
    }

    method WriteVarStrings(strs: seq<bytes>) returns (st: Status)
      modifies this
      ensures Wrote(PutVarStrings(strs), st, old(Written()), Written())
    {
      st := WriteVarInt(|strs|);
      if st != Success { return; }
      ghost var base := Written();
      assert strs[0..] == strs;
      for i := 0 to |strs|
        invariant st == Success
        invariant PutAll(strs).Ok? <==> PutAll(strs[i..]).Ok?
        invariant PutAll(strs).Err? ==> PutAll(strs[i..]) == PutAll(strs)
        invariant PutAll(strs).Ok? ==> Written() + PutAll(strs[i..]).value == base + PutAll(strs).value
      {
        ghost var before := Written();
        assert strs[i..][1..] == strs[i + 1..];
        st := WriteVarBytes(strs[i]);
        if st != Success { return; }
        if PutAll(strs).Ok? { Regroup(before, PutVarBytes(strs[i]).value, PutAll(strs[i + 1..]).value); }
      }
      if PutAll(strs).Ok? {
        assert Written() + [] == Written();
        Regroup(old(Written()), PutVarInt(|strs|).value, PutAll(strs).value);
      }
    }

    // One buffer of all the parts, in order.
    method Result() returns (r: array<byte>)
      ensures fresh(r) && r[..] == Written()
    {
      var total := 0;
      for i := 0 to |parts|
        invariant total == |Flat(parts[..i])|
      {
        FlatSnoc(parts[..i], parts[i]);
        assert parts[..i + 1] == parts[..i] + [parts[i]];
        total := total + |parts[i]|;
      }
      assert parts[..|parts|] == parts;
      r := new byte[total];
      var offset := 0;
      for i := 0 to |parts|
        invariant offset == |Flat(parts[..i])| <= total && r[..offset] == Flat(parts[..i])
      {
        FlatSnoc(parts[..i], parts[i]);
        assert parts[..i + 1] == parts[..i] + [parts[i]];
        FlatPrefix(parts, i + 1);
        forall k | 0 <= k < |parts[i]| { r[offset + k] := parts[i][k]; }
        assert r[..offset] == Flat(parts[..i]);
        offset := offset + |parts[i]|;
      }
    }

    method Wipe()
      modifies this
      ensures Written() == []
    {
      parts := [];
    }
  }

  lemma {:induction false} FlatPrefix(parts: seq<bytes>, i: nat)
    requires i <= |parts|
    ensures |Flat(parts[..i])| <= |Flat(parts)|
    decreases |parts|
  {
    if i < |parts| {
      assert parts[..|parts| - 1][..i] == parts[..i];
      FlatPrefix(parts[..|parts| - 1], i);
    } else {
      assert parts[..i] == parts;
    }
  }

  class Decoder {
    const data: bytes
    var pos: nat

    ghost predicate Valid()
      reads this
    {
      pos <= |data|
    }

    // Bytes not read yet.
    function Tail(): bytes
      reads this
      requires Valid()
    {
      data[pos..]
    }

    constructor (data: bytes)
      ensures Valid() && this.data == data && Tail() == data && pos == 0
    {
      this.data, pos := data, 0;
    }

    method ReadVarInt() returns (r: Result<nat>)
      requires Valid()
      modifies this
      ensures Valid() && Took(GetVarInt(old(Tail())), r, Tail())
    {
      var res := DecodeVarInt(data, pos);
      if res.Err? { return Err(res.status); }
      pos := pos + res.value.1;
      r := Ok(ToNumber(res.value.0));
    }

    method ReadBytes(num: int) returns (r: Result<bytes>)
      requires Valid()
      modifies this
      ensures Valid() && Took(GetBytes(old(Tail()), num), r, Tail())
    {
      if num < 0 { return Err(InvalidParam); }
      if pos + num > |data| { return Err(OutOfBounds); }
      assert data[pos..][..num] == data[pos..pos + num] && data[pos..][num..] == data[pos + num..];
      r := Ok(data[pos..pos + num]);
      pos := pos + num;
    }

    method ReadVarBytes() returns (r: Result<bytes>)
      requires Valid()
      modifies this
      ensures Valid() && Took(GetVarBytes(old(Tail())), r, Tail())
    {
      var len :- ReadVarInt();
      r := ReadBytes(len);
    }

    method ReadVarStrings() returns (r: Result<seq<bytes>>)
      requires Valid()
      modifies this
      ensures Valid() && Took(GetVarStrings(old(Tail())), r, Tail())
    {
      var n :- ReadVarInt();
      if n > |data| - pos { return Err(InvalidMessage); }
      r := ReadEach(n);
    }

    method ReadEach(n: nat) returns (r: Result<seq<bytes>>)
      requires Valid()
      modifies this
      ensures Valid() && Took(GetAll(old(Tail()), n), r, Tail())
    {
      var strs: seq<bytes> := [];
      var left := n;
      AfterNone(GetAll(Tail(), n));
      while left > 0
        invariant Valid() && GetAll(old(Tail()), n) == After(strs, GetAll(Tail(), left))
      {
        var s :- ReadVarBytes();
        left := left - 1;
        AfterOne(strs, s, GetAll(Tail(), left));
        strs := strs + [s];
      }
      assert strs + [] == strs;
      r := Ok(strs);
    }

    method Done() returns (d: bool)
      requires Valid()
      ensures d <==> Tail() == []
    {
      d := pos >= |data|;
    }

    method ReadRest() returns (b: bytes)
      requires Valid()
      modifies this
      ensures Valid() && b == old(Tail()) && Tail() == []
    {
      b := data[pos..];
      pos := |data|;
    }
  }

  /* ---- Records ---- */

  method EncodeEid(enc: Encoder, eid: EidRec) returns (st: Status)
    modifies enc
    ensures Wrote(PutEid(eid), st, old(enc.Written()), enc.Written())
  {
    st := enc.WriteVarBytes(eid.id);
    if st != Success { return; }
    st := enc.WriteVarInt(eid.ts);
    if st != Success { return; }
    Regroup(old(enc.Written()), PutVarBytes(eid.id).value, PutVarInt(eid.ts).value);
  }

  method DecodeEid(dec: Decoder) returns (r: Result<EidRec>)
    requires dec.Valid()
    modifies dec
    ensures dec.Valid() && Took(GetEid(old(dec.Tail())), r, dec.Tail())
  {
    var id :- dec.ReadVarBytes();
    var ts :- dec.ReadVarInt();
    r := Ok(EidRec(id, ts));
  }

  method MakeEid(eid: EidRec) returns (r: Result<bytes>)
    ensures r == PutEid(eid)
  {
    var enc := new Encoder();
    var st := EncodeEid(enc, eid);
    if st != Success { return Err(st); }
    assert [] + PutEid(eid).value == PutEid(eid).value;
    var out := enc.Result();
    r := Ok(out[..]);
  }

  method EncodeEnt(enc: Encoder, ent: EntBody) returns (st: Status)
    modifies enc
    ensures Wrote(PutEnt(ent), st, old(enc.Written()), enc.Written())
  {
    var pid := if ent.pid.Some? then ent.pid.value else [];
    var body := if ent.body.Some? then ent.body.value else [];
    st := enc.WriteVarBytes(pid);
    if st != Success { return; }
    ghost var w1 := enc.Written();
    st := enc.WriteVarStrings(ent.tags);
    if st != Success { return; }
    ghost var w2 := enc.Written();
    if ent.body.Some? && |body| > 0 {
      enc.WriteBytes(body);
    } else {
      assert w2 + [] == w2;
    }
    Regroup(w1, PutVarStrings(ent.tags).value, body);
    Regroup(old(enc.Written()), PutVarBytes(pid).value, PutVarStrings(ent.tags).value + body);
  }

  method DecodePid(pidBytes: bytes) returns (r: Result<Option<bytes>>)
    ensures r == GetPid(pidBytes)
  {
    if |pidBytes| == 0 { return Ok(None); }
    var inner := new Decoder(pidBytes);
    var parsed :- DecodeEid(inner);
    var done := inner.Done();
    if !done { return Err(InvalidMessage); }
    var eid :- MakeEid(parsed);
    r := Ok(Some(eid));
  }

  method DecodeEnt(dec: Decoder) returns (r: Result<EntBody>)
    requires dec.Valid()
    modifies dec
    ensures dec.Valid() && Took(GetEnt(old(dec.Tail())), r, dec.Tail())
  {
    var pidBytes :- dec.ReadVarBytes();
    var pid :- DecodePid(pidBytes);
    var tags :- dec.ReadVarStrings();
    var rest := dec.ReadRest();
    r := Ok(EntBody(pid, tags, if |rest| > 0 then Some(rest) else None));
  }

  method EncodeHead(enc: Encoder, h: Head) returns (st: Status)
    modifies enc
    ensures Wrote(PutHead(h), st, old(enc.Written()), enc.Written())
  {
    st := enc.WriteVarBytes(h.typ);
    if st != Success { return; }
    ghost var w1 := enc.Written();
    st := enc.WriteVarBytes(h.eid);
    if st != Success { return; }
    ghost var w2 := enc.Written();
    st := enc.WriteVarInt(h.off);
    if st != Success { return; }
    ghost var w3 := enc.Written();
    st := enc.WriteVarInt(h.ctr);
    if st != Success { return; }
    ghost var w4 := enc.Written();
    st := enc.WriteVarInt(h.len);
    if st != Success { return; }
    ghost var w5 := enc.Written();
    if h.hsh.Some? {
      enc.WriteBytes(h.hsh.value);
    } else {
      assert w5 + [] == w5;
    }
    ghost var t5 := if h.hsh.Some? then h.hsh.value else [];
    Regroup(w4, PutVarInt(h.len).value, t5);
    ghost var t4 := PutVarInt(h.len).value + t5;
    Regroup(w3, PutVarInt(h.ctr).value, t4);
    ghost var t3 := PutVarInt(h.ctr).value + t4;
    Regroup(w2, PutVarInt(h.off).value, t3);
    ghost var t2 := PutVarInt(h.off).value + t3;
    Regroup(w1, PutVarBytes(h.eid).value, t2);
    Regroup(old(enc.Written()), PutVarBytes(h.typ).value, PutVarBytes(h.eid).value + t2);
  }

  method DecodeHead(dec: Decoder) returns (r: Result<Head>)
    requires dec.Valid()
    modifies dec
    ensures dec.Valid() && Took(GetHead(old(dec.Tail())), r, dec.Tail())
  {
    var typ :- dec.ReadVarBytes();
    var eid :- dec.ReadVarBytes();
    // Decoded only to see that it has the right structure.
    var decEid := new Decoder(eid);
    var parsed :- DecodeEid(decEid);
    assert GetEid(eid) == Got(parsed, decEid.Tail());
    r := DecodeHeadRest(dec, typ, eid);
  }

  method DecodeHeadRest(dec: Decoder, typ: bytes, eid: bytes) returns (r: Result<Head>)
    requires dec.Valid()
    modifies dec
    ensures dec.Valid() && Took(GetHeadRest(typ, eid, old(dec.Tail())), r, dec.Tail())
  {
    var off :- dec.ReadVarInt();
    var ctr :- dec.ReadVarInt();
    var len :- dec.ReadVarInt();
    var hsh: Option<bytes> := None;
    if len > 0 {
      var h :- dec.ReadBytes(HASH_BYTES);
      hsh := Some(h);
    }
    r := Ok(Head(typ, eid, off, ctr, len, hsh));
  }

  method EncodeBag(enc: Encoder, b: Bag) returns (st: Status)
    modifies enc
    ensures Wrote(PutBag(b), st, old(enc.Written()), enc.Written())
  {
    if |b.rlm| != HASH_BYTES { return InvalidParam; }
    if |b.sig| != SIG_BYTES { return InvalidParam; }
    enc.WriteBytes(b.sig);
    ghost var w1 := enc.Written();
    enc.WriteBytes(b.rlm);
    ghost var w2 := enc.Written();
    enc.WriteBytes(b.kdm);
    ghost var w3 := enc.Written();
    st := enc.WriteVarBytes(b.headCph);
    if st != Success { return; }
    st := enc.WriteVarBytes(b.bodyCph);
    if st != Success { return; }
    ghost var (head, body) := (PutVarBytes(b.headCph).value, PutVarBytes(b.bodyCph).value);
    Regroup(w3, head, body);
    Regroup(w2, b.kdm, head + body);
    Regroup(w1, b.rlm, b.kdm + (head + body));
    Regroup(old(enc.Written()), b.sig, b.rlm + (b.kdm + (head + body)));
  }

  method DecodeBag(dec: Decoder) returns (r: Result<Bag>)
    requires dec.Valid()
    modifies dec
    ensures dec.Valid() && Took(GetBag(old(dec.Tail())), r, dec.Tail())
  {
    var sig :- dec.ReadBytes(SIG_BYTES);
    var rlm :- dec.ReadBytes(HASH_BYTES);
    var kdm :- dec.ReadBytes(KDM_BYTES);
    var headCph :- dec.ReadVarBytes();
    var bodyCph :- dec.ReadVarBytes();
    r := Ok(Bag(rlm, sig, kdm, headCph, bodyCph));
  }

  method EncodeIndexItem(enc: Encoder, item: IndexItem) returns (st: Status)
    modifies enc
    ensures Wrote(PutIndexItem(item), st, old(enc.Written()), enc.Written())
  {
    enc.WriteBytes(item.kdm);
    ghost var w1 := enc.Written();
    st := enc.WriteVarBytes(item.headCph);
    if st != Success { return; }
    st := enc.WriteVarInt(item.lenBody);
    if st != Success { return; }
    Regroup(w1, PutVarBytes(item.headCph).value, PutVarInt(item.lenBody).value);
    Regroup(old(enc.Written()), item.kdm, PutVarBytes(item.headCph).value + PutVarInt(item.lenBody).value);
  }

  method DecodeIndexItem(dec: Decoder) returns (r: Result<IndexItem>)
    requires dec.Valid()
    modifies dec
    ensures dec.Valid() && Took(GetIndexItem(old(dec.Tail())), r, dec.Tail())
  {
    var kdm :- dec.ReadBytes(KDM_BYTES);
    var headCph :- dec.ReadVarBytes();
    var lenBody :- dec.ReadVarInt();
    r := Ok(IndexItem(kdm, headCph, lenBody));
  }

  method EncodeFileRealm(enc: Encoder, row: FileRealm) returns (st: Status)
    modifies enc
    ensures Wrote(PutFileRealm(row), st, old(enc.Written()), enc.Written())
  {
    if row.num < 1 { return InvalidMessage; }
    if |row.hsh| != HASH_BYTES { return InvalidParam; }
    st := enc.WriteVarBytes(row.realm.name);
    if st != Success { return; }
    st := enc.WriteVarInt(row.realm.index);
    if st != Success { return; }
    Regroup(old(enc.Written()), PutVarBytes(row.realm.name).value, PutVarInt(row.realm.index).value);
    ghost var w2 := enc.Written();
    st := enc.WriteVarInt(row.num);
    if st != Success { return; }
    enc.WriteBytes(row.hsh);
    Regroup(w2, PutVarInt(row.num).value, row.hsh);
    Regroup(old(enc.Written()), PutKdm(row.realm).value, PutVarInt(row.num).value + row.hsh);
  }

  method DecodeFileRealm(dec: Decoder) returns (r: Result<FileRealm>)
    requires dec.Valid()
    modifies dec
    ensures dec.Valid() && Took(GetFileRealm(old(dec.Tail())), r, dec.Tail())
  {
    var name :- dec.ReadVarBytes();
    var index :- dec.ReadVarInt();
    var num :- dec.ReadVarInt();
    if num < 1 { return Err(InvalidMessage); }
    var hsh :- dec.ReadBytes(HASH_BYTES);
    r := Ok(FileRealm(Kdm(name, index), num, hsh));
  }

  method WriteRealms(enc: Encoder, rows: seq<FileRealm>) returns (st: Status)
    modifies enc
    ensures Wrote(PutRealms(rows), st, old(enc.Written()), enc.Written())
  {
    st := enc.WriteVarInt(|rows|);
    if st != Success { return; }
    ghost var base := enc.Written();
    assert rows[0..] == rows;
    for i := 0 to |rows|
      invariant st == Success
      invariant PutRows(rows).Ok? <==> PutRows(rows[i..]).Ok?
      invariant PutRows(rows).Err? ==> PutRows(rows[i..]) == PutRows(rows)
      invariant PutRows(rows).Ok? ==> enc.Written() + PutRows(rows[i..]).value == base + PutRows(rows).value
    {
      ghost var before := enc.Written();
      assert rows[i..][1..] == rows[i + 1..];
      st := EncodeFileRealm(enc, rows[i]);
      if st != Success { return; }
      if PutRows(rows).Ok? { Regroup(before, PutFileRealm(rows[i]).value, PutRows(rows[i + 1..]).value); }
    }
    if PutRows(rows).Ok? {
      assert enc.Written() + [] == enc.Written();
      Regroup(old(enc.Written()), PutVarInt(|rows|).value, PutRows(rows).value);
    }
  }

  method ReadRealms(dec: Decoder) returns (r: Result<seq<FileRealm>>)
    requires dec.Valid()
    modifies dec
    ensures dec.Valid() && Took(GetRealms(old(dec.Tail())), r, dec.Tail())
  {
    var n :- dec.ReadVarInt();
    if n > |dec.data| - dec.pos { return Err(InvalidMessage); }
    r := ReadRows(dec, n);
  }

  lemma RowsStep(s: bytes, n: nat, row: FileRealm, rest: bytes)
    requires GetFileRealm(s) == Got(row, rest)
    ensures GetRows(s, n + 1) == match GetRows(rest, n) case Got(more, s2) => Got([row] + more, s2) case Fail(st) => Fail(st)
  {
  }

  method ReadRows(dec: Decoder, n: nat) returns (r: Result<seq<FileRealm>>)
    requires dec.Valid()
    modifies dec
    ensures dec.Valid() && Took(GetRows(old(dec.Tail()), n), r, dec.Tail())
  {
    var rows: seq<FileRealm> := [];
    var left := n;
    AfterNone(GetRows(dec.Tail(), n));
    while left > 0
      invariant dec.Valid() && GetRows(old(dec.Tail()), n) == After(rows, GetRows(dec.Tail(), left))
    {
      ghost var s := dec.Tail();
      var row :- DecodeFileRealm(dec);
      left := left - 1;
      RowsStep(s, left, row, dec.Tail());
      AfterOne(rows, row, GetRows(dec.Tail(), left));
      rows := rows + [row];
    }
    assert rows + [] == rows;
    r := Ok(rows);
  }

  method EncodeFileHead(enc: Encoder, h: FileHead) returns (st: Status)
    modifies enc
    ensures Wrote(PutFileHead(h), st, old(enc.Written()), enc.Written())
  {
    if |h.nonce| != HASH_BYTES || |h.hsh| != HASH_BYTES || |h.sig| != SIG_BYTES { return InvalidParam; }
    enc.WriteBytes(h.nonce);
    ghost var w1 := enc.Written();
    st := WriteRealms(enc, h.realms);
    if st != Success { return; }
    ghost var (w2, realms) := (enc.Written(), PutRealms(h.realms).value);
    enc.WriteBytes(h.hsh);
    enc.WriteBytes(h.sig);
    Regroup(w2, h.hsh, h.sig);
    Regroup(w1, realms, h.hsh + h.sig);
    Regroup(old(enc.Written()), h.nonce, realms + (h.hsh + h.sig));
  }

  method DecodeFileHead(dec: Decoder) returns (r: Result<FileHead>)
    requires dec.Valid()
    modifies dec
    ensures dec.Valid() && Took(GetFileHead(old(dec.Tail())), r, dec.Tail())
  {
    var nonce :- dec.ReadBytes(HASH_BYTES);
    var realms :- ReadRealms(dec);
    var hsh :- dec.ReadBytes(HASH_BYTES);
    var sig :- dec.ReadBytes(SIG_BYTES);
    r := Ok(FileHead(nonce, realms, hsh, sig));
  }
}
