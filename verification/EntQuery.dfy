// What an entity query means (web/src/entdb/entdb.ts): the rows it matches,
// told from the rows alone.

module EntQuery {
  import opened Basics
  import opened Lww

  datatype DateSpec = On(at: int) | Between(from: int, to: int, openFrom: bool, openTo: bool)

  datatype TagSpec = Exactly(tag: string) | Within(low: string, high: string, openLow: bool, openHigh: bool) | Prefixed(prefix: string)

  datatype Query =
    | OfType(typ: string)
    | OfPid(typ: string, pid: seq<byte>)
    | OfTag(typ: string, tags: TagSpec)
    | OfDate(typ: string, dates: DateSpec)

  // Order of strings, unit by unit.
  predicate Less(a: string, b: string) {
    if b == [] then false
    else if a == [] then true
    else if a[0] != b[0] then a[0] < b[0]
    else Less(a[1..], b[1..])
  }

  predicate DateMatches(t: int, spec: DateSpec) {
    match spec
    case On(at) => t == at
    case Between(from, to, openFrom, openTo) =>
      (if openFrom then t > from else t >= from) && (if openTo then t < to else t <= to)
  }

  predicate TagMatches(tag: string, spec: TagSpec) {
    match spec
    case Exactly(t) => tag == t
    case Within(low, high, openLow, openHigh) =>
      (if openLow then Less(low, tag) else !Less(tag, low)) && (if openHigh then Less(tag, high) else !Less(high, tag))
    case Prefixed(prefix) => prefix != "" && prefix <= tag
  }

  // Whether a spec can match at all; a range upside down is an error.
  function DateMayMatch(spec: DateSpec): Result<bool> {
    if spec.Between? && spec.from > spec.to then Err(InvalidParam) else Ok(true)
  }

  function TagMayMatch(spec: TagSpec): Result<bool> {
    match spec
    case Exactly(t) => Ok(t != "")
    case Within(low, high, _, _) => if Less(high, low) then Err(InvalidParam) else Ok(true)
    case Prefixed(prefix) => Ok(prefix != "")
  }

  predicate Matches(row: Row, q: Query) {
    && row.Live? && row.content.typ == q.typ
    && match q
       case OfType(_) => true
       case OfPid(_, pid) => row.content.pid == Some(pid)
       case OfTag(_, spec) => exists t :: t in row.content.tags && TagMatches(t, spec)
       case OfDate(_, spec) => DateMatches(row.updatedAt, spec)
  }

  predicate NoRepeats(rows: seq<Row>) { forall i, j :: 0 <= i < j < |rows| ==> rows[i] != rows[j] }

  // Rows are stored under their own eid, and their tags are normalized.
  predicate Normal(s: Store) {
    forall e :: e in s ==> s[e].eid == e && (s[e].Live? ==> "" !in s[e].content.tags)
  }

  // The answer to a query: the matching rows, each once, or the spec's error.
  ghost predicate Answers(s: Store, q: Query, answer: Result<seq<Row>>) {
    match Refusal(q)
    case Some(status) => answer == Err(status)
    case None =>
      && answer.Ok? && NoRepeats(answer.value)
      && forall row :: row in answer.value <==> Matches(row, q) && row.eid in s && s[row.eid] == row
  }

  function Refusal(q: Query): Option<Failure> {
    match q
    case OfTag(_, spec) => (match TagMayMatch(spec) case Err(st) => Some(st) case Ok(_) => None)
    case OfDate(_, spec) => (match DateMayMatch(spec) case Err(st) => Some(st) case Ok(_) => None)
    case _ => None
  }

  /* ---- What a query asks for ---- */

  // a comes before b: it is a proper beginning of b, or it has the smaller unit
  // at the first place where they differ.
  ghost predicate ComesFirst(a: string, b: string) {
    a < b || exists i :: 0 <= i < |a| && i < |b| && a[..i] == b[..i] && a[i] < b[i]
  }

  // From the start to the end of a range, and not an end that is left out.
  ghost predicate TagAsked(tag: string, spec: TagSpec) {
    match spec
    case Exactly(t) => tag == t
    case Within(low, high, openLow, openHigh) =>
      && (tag == low || ComesFirst(low, tag)) && (openLow ==> tag != low)
      && (tag == high || ComesFirst(tag, high)) && (openHigh ==> tag != high)
    case Prefixed(prefix) => 0 < |prefix| <= |tag| && tag[..|prefix|] == prefix
  }

  ghost predicate DateAsked(t: int, spec: DateSpec) {
    match spec
    case On(at) => t == at
    case Between(from, to, openFrom, openTo) =>
      from <= t <= to && (openFrom ==> t != from) && (openTo ==> t != to)
  }

  ghost predicate Asked(row: Row, q: Query) {
    && row.Live? && row.content.typ == q.typ
    && (q.OfPid? ==> row.content.pid == Some(q.pid))
    && (q.OfTag? ==> exists t :: t in row.content.tags && TagAsked(t, q.tags))
    && (q.OfDate? ==> DateAsked(row.updatedAt, q.dates))
  }

  // A range is upside down when its end comes before its start.
  ghost predicate UpsideDown(q: Query) {
    || (q.OfTag? && q.tags.Within? && ComesFirst(q.tags.high, q.tags.low))
    || (q.OfDate? && q.dates.Between? && q.dates.to < q.dates.from)
  }

  lemma {:induction false} LessMeans(a: string, b: string)
    ensures Less(a, b) <==> ComesFirst(a, b)
    decreases |a|
  {
    if a != [] && b != [] {
      var (x, y) := (a[1..], b[1..]);
      assert a == [a[0]] + x && b == [b[0]] + y;
      if a[0] == b[0] {
        LessMeans(x, y);
        if i :| 0 <= i < |x| && i < |y| && x[..i] == y[..i] && x[i] < y[i] {
          assert a[..i + 1] == [a[0]] + x[..i] && b[..i + 1] == [b[0]] + y[..i];
          assert a[i + 1] < b[i + 1];
        }
        if i :| 0 <= i < |a| && i < |b| && a[..i] == b[..i] && a[i] < b[i] {
          assert x[..i - 1] == a[..i][1..] && y[..i - 1] == b[..i][1..];
          assert x[i - 1] < y[i - 1];
        }
      } else {
        assert a[..0] == b[..0];
        assert forall i :: 0 < i < |a| && i < |b| ==> a[..i][0] != b[..i][0];
      }
    }
  }

  lemma TagMeans(tag: string, spec: TagSpec)
    ensures TagMatches(tag, spec) <==> TagAsked(tag, spec)
  {
    if spec.Within? {
      LessTotal(spec.low, tag);
      LessTotal(tag, spec.high);
      LessMeans(spec.low, tag);
      LessMeans(tag, spec.high);
    }
  }

  lemma MatchesMeans(row: Row, q: Query)
    ensures Matches(row, q) <==> Asked(row, q)
  {
    if q.OfTag? {
      forall t
        ensures TagMatches(t, q.tags) <==> TagAsked(t, q.tags)
      {
        TagMeans(t, q.tags);
      }
    }
  }

  // The rows asked for, each once, or an error for a range upside down.
  ghost predicate Gives(s: Store, q: Query, answer: Result<seq<Row>>) {
    if UpsideDown(q) then answer == Err(InvalidParam)
    else
      && answer.Ok? && NoRepeats(answer.value)
      && forall row :: row in answer.value <==> Asked(row, q) && row.eid in s && s[row.eid] == row
  }

  lemma AnswersMean(s: Store, q: Query, answer: Result<seq<Row>>)
    requires Answers(s, q, answer)
    ensures Gives(s, q, answer)
  {
    if q.OfTag? && q.tags.Within? { LessMeans(q.tags.high, q.tags.low); }
    forall row
      ensures Matches(row, q) <==> Asked(row, q)
    {
      MatchesMeans(row, q);
    }
  }

  // Stores hold normalized rows: what applyOp writes always is.
  lemma {:induction false} AppliedIsNormal(s: Store, ops: seq<Op>)
    requires Normal(s)
    ensures Normal(ApplyAll(s, ops))
    decreases |ops|
  {
    if ops != [] { AppliedIsNormal(s, ops[..|ops| - 1]); }
  }

  lemma {:induction false} LessTotal(a: string, b: string)
    ensures Less(a, b) || Less(b, a) || a == b
    ensures !(Less(a, b) && Less(b, a)) && !Less(a, a)
    decreases |a|
  {
    if a != [] && b != [] {
      LessTotal(a[1..], b[1..]);
      LessTotal(a[1..], a[1..]);
      if a[0] == b[0] && a[1..] == b[1..] {
        assert a == [a[0]] + a[1..] && b == [b[0]] + b[1..];
      }
    } else if a != [] {
      LessTotal(a[1..], a[1..]);
    }
  }

  lemma {:induction false} LessTrans(a: string, b: string, c: string)
    requires Less(a, b) && Less(b, c)
    ensures Less(a, c)
    decreases |a|
  {
    if a != [] && a[0] == b[0] && b[0] == c[0] { LessTrans(a[1..], b[1..], c[1..]); }
  }

  // An upside-down range matches nothing, so refusing it hides no row.
  lemma RefusedMatchesNothing(q: Query, row: Row)
    requires Refusal(q).Some?
    ensures !Matches(row, q)
  {
    if q.OfTag? && Matches(row, q) {
      var tag :| tag in row.content.tags && TagMatches(tag, q.tags);
      var (low, high) := (q.tags.low, q.tags.high);
      LessTotal(low, tag);
      LessTotal(tag, high);
      LessTotal(high, low);
      if Less(low, tag) && Less(tag, high) { LessTrans(low, tag, high); }
    }
  }

  lemma {:induction false} DistinctMultiset(rows: seq<Row>)
    requires NoRepeats(rows)
    ensures forall row :: multiset(rows)[row] == if row in rows then 1 else 0
    decreases |rows|
  {
    if rows != [] {
      var init, last := rows[..|rows| - 1], rows[|rows| - 1];
      assert rows == init + [last];
      DistinctMultiset(init);
    }
  }

  // However a store answers a query, by index or by scan, it is the same
  // refusal or the same rows.
  lemma AnswersAgree(s: Store, q: Query, a: Result<seq<Row>>, b: Result<seq<Row>>)
    requires Answers(s, q, a) && Answers(s, q, b)
    ensures a.Err? || b.Err? ==> a == b
    ensures a.Ok? && b.Ok? ==> multiset(a.value) == multiset(b.value)
  {
    if a.Ok? && b.Ok? {
      DistinctMultiset(a.value);
      DistinctMultiset(b.value);
    }
  }
}
