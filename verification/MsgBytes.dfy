// The messages of the protocol model as the bytes they travel in: a message
// is its head and body, with the eid and the body already parsed.

module MsgBytes {
  import opened Basics
  import Lww
  import Messages
  import opened Codec
  import Structs
  import opened Sealing

  function Text(b: bytes): string { seq(|b|, i requires 0 <= i < |b| => b[i] as char) }

  function Texts(bs: seq<bytes>): seq<string> { seq(|bs|, i requires 0 <= i < |bs| => Text(bs[i])) }

  function EidOf(b: bytes): Lww.Eid {
    match Structs.GetEid(b)
    case Got(eid, _) => Lww.Eid(b, Lww.At(eid.ts))
    case Fail(st) => Lww.Eid(b, Lww.Bad(st))
  }

  // msgToOp parses the body as an entity; an empty one counts as missing.
  function BodyOf(body: Option<bytes>): Messages.Body {
    if body.None? || body.value == [] then Messages.NoBody
    else
      match Structs.GetEnt(body.value)
      case Got(ent, _) => Messages.EntBody(body.value, ent.pid, Texts(ent.tags), ent.body)
      case Fail(st) => Messages.BadBody(body.value, st)
  }

  function MsgOf(m: Message): Messages.Msg
    requires m.head.off >= 0 && m.head.ctr >= 0
  {
    Messages.Msg(EidOf(m.head.eid), m.head.off, m.head.ctr, Text(m.head.typ), BodyOf(m.body))
  }

  lemma TextInjective(a: bytes, b: bytes)
    requires Text(a) == Text(b)
    ensures a == b
  {
    assert |a| == |Text(a)| == |b|;
    forall i | 0 <= i < |a|
      ensures a[i] == b[i]
    {
      assert Text(a)[i] == Text(b)[i];
    }
  }

  // Field by field: the head's fields as they are, the type byte by byte, the
  // time that the entity id carries, and a body exactly when there is one.
  lemma MsgOfMeans(m: Message, e: Structs.EidRec)
    requires m.head.off >= 0 && m.head.ctr >= 0
    ensures var p := MsgOf(m);
            && p.off == m.head.off && p.ctr == m.head.ctr && p.eid.bytes == m.head.eid
            && |p.typ| == |m.head.typ| && (forall i :: 0 <= i < |p.typ| ==> p.typ[i] as int == m.head.typ[i])
            && (p.eid.time.Bad? <==> Structs.GetEid(m.head.eid).Fail?)
            && (Structs.EidOk(e) && Structs.PutEid(e) == Ok(m.head.eid) ==> p.eid.time == Lww.At(e.ts))
            && (p.body.NoBody? <==> BodyBytes(m) == [])
            && (p.body.BadBody? <==> BodyBytes(m) != [] && Structs.GetEnt(BodyBytes(m)).Fail?)
  {
    if Structs.EidOk(e) && Structs.PutEid(e) == Ok(m.head.eid) {
      Structs.EidRoundTrip(e, []);
      assert m.head.eid + [] == m.head.eid;
    }
  }

  // The protocol model tells two messages apart exactly when their bytes do.
  lemma MsgOfInjective(hash: bytes -> bytes, a: Message, b: Message)
    requires Describes(hash, a) && a.body != Some([]) && a.head.off >= 0 && a.head.ctr >= 0
    requires Describes(hash, b) && b.body != Some([]) && b.head.off >= 0 && b.head.ctr >= 0
    ensures MsgOf(a) == MsgOf(b) <==> a == b
  {
    if MsgOf(a) == MsgOf(b) {
      TextInjective(a.head.typ, b.head.typ);
    }
  }

  // What a local write seals, a reader renders: the body of an insert or an
  // update parses to the parent, tags and content it was made from.
  lemma WrittenBody(ent: Structs.EntBody)
    requires Structs.EntOk(ent)
    ensures Structs.PutEnt(ent).Ok?
    ensures var raw := Structs.PutEnt(ent).value;
            BodyOf(Some(raw)) == Messages.EntBody(raw, Structs.Plain(ent.pid), Texts(ent.tags), Structs.Plain(ent.body))
  {
    Structs.EntRoundTrip(ent);
    assert |Structs.PutEnt(ent).value| > 0;
  }
}
