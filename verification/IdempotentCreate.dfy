/**
 * Idempotent creation with any number of concurrent callers. A call checks for its key, inserts the row with its created
 * event, and on a unique violation reads again; other calls may run between these steps.
 */
module IdempotentCreate {
  import opened Basics

  type CallerId = nat

  datatype Request = Request(tenantId: TenantId, idempotencyKey: string, fingerprint: string)

  datatype Row = Row(id: JobId, tenantId: TenantId, idempotencyKey: string, fingerprint: string)

  datatype Outcome = Got(row: Row) | Conflict | NotFound | Unavailable

  /** Where a call stands: before the check, between check and insert, after a unique violation, or answered. */
  datatype Phase = Starting | Absent | Violated | Done(outcome: Outcome)

  datatype Call = Call(request: Request, phase: Phase)

  /** The job table, the ids of the jobs with a created event in order, and the calls. */
  datatype State = State(rows: seq<Row>, created: seq<JobId>, calls: map<CallerId, Call>)

  // ---------------------------------------------------------------- the table

  predicate HasKey(row: Row, request: Request) {
    row.tenantId == request.tenantId && row.idempotencyKey == request.idempotencyKey
  }

  function Find(rows: seq<Row>, request: Request): Option<Row> {
    if rows == [] then None
    else if HasKey(rows[0], request) then Some(rows[0])
    else Find(rows[1..], request)
  }

  /** What a call answers when it sees a row with its key. */
  function Answer(existing: Row, request: Request): Outcome {
    if existing.fingerprint != request.fingerprint then Conflict else Got(existing)
  }

  /** Some row has the request's tenant and key. */
  ghost predicate Taken(rows: seq<Row>, request: Request) {
    exists i :: 0 <= i < |rows| && rows[i].tenantId == request.tenantId && rows[i].idempotencyKey == request.idempotencyKey
  }

  /** The row is one of these, with the request's tenant, key and fingerprint. */
  ghost predicate IsOwn(rows: seq<Row>, row: Row, request: Request) {
    && row in rows
    && row.tenantId == request.tenantId && row.idempotencyKey == request.idempotencyKey && row.fingerprint == request.fingerprint
  }

  /** A row with the request's tenant and key has another fingerprint. */
  ghost predicate TakenByAnother(rows: seq<Row>, request: Request) {
    exists i :: 0 <= i < |rows| && rows[i].tenantId == request.tenantId && rows[i].idempotencyKey == request.idempotencyKey
      && rows[i].fingerprint != request.fingerprint
  }

  lemma {:induction false} FindIs(rows: seq<Row>, request: Request)
    ensures Find(rows, request).Some? <==> Taken(rows, request)
    ensures var r := Find(rows, request);
      r.Some? ==>
        && r.value in rows && r.value.tenantId == request.tenantId && r.value.idempotencyKey == request.idempotencyKey
        && (Answer(r.value, request).Got? ==> IsOwn(rows, Answer(r.value, request).row, request))
        && (Answer(r.value, request).Conflict? ==> TakenByAnother(rows, request))
        && (Answer(r.value, request).Got? || Answer(r.value, request).Conflict?)
  {
    FindFinds(rows, request);
    if Find(rows, request).Some? {
      var i :| 0 <= i < |rows| && rows[i] == Find(rows, request).value;
    }
  }

  class JobTable {
    var rows: seq<Row>
    var created: seq<JobId>

    constructor ()
      ensures rows == [] && created == []
    {
      rows, created := [], [];
    }

    /** The insert and its event commit together; the unique index refuses a key that is already there. */
    method Insert(id: JobId, request: Request) returns (inserted: bool)
      modifies this
      ensures inserted <==> !Taken(old(rows), request)
      ensures inserted ==>
        && rows == old(rows) + [Row(id, request.tenantId, request.idempotencyKey, request.fingerprint)]
        && created == old(created) + [id]
      ensures !inserted ==> rows == old(rows) && created == old(created)
    {
      FindIs(rows, request);
      if Find(rows, request).Some? {
        return false;
      }
      rows, created := rows + [RowFor(id, request)], created + [id];
      inserted := true;
    }

    /** The second read, after a unique violation. */
    method Reread(request: Request) returns (outcome: Outcome)
      ensures outcome == var existing := Find(rows, request); if existing.Some? then Answer(existing.value, request) else Unavailable
      ensures outcome.Unavailable? <==> !Taken(rows, request)
      ensures outcome.Got? ==> IsOwn(rows, outcome.row, request)
      ensures outcome.Conflict? ==> TakenByAnother(rows, request)
      ensures !outcome.NotFound?
    {
      FindIs(rows, request);
      var existing := Find(rows, request);
      outcome := Unavailable;
      if existing.Some? {
        outcome := Answer(existing.value, request);
      }
    }

    /** One call with nobody else in between; `sourceFound` is the answer to its lookup of the source row. */
    method CreateOrGetIdempotent(id: JobId, request: Request, sourceFound: bool) returns (outcome: Outcome)
      modifies this
      ensures outcome.NotFound? <==> !sourceFound
      ensures !outcome.Unavailable?
      ensures outcome.Got? ==> IsOwn(rows, outcome.row, request)
      ensures outcome.Conflict? ==> TakenByAnother(old(rows), request)
      ensures if sourceFound && !Taken(old(rows), request)
              then
                && outcome == Got(Row(id, request.tenantId, request.idempotencyKey, request.fingerprint))
                && rows == old(rows) + [outcome.row] && created == old(created) + [id]
              else rows == old(rows) && created == old(created)
      ensures sourceFound && Find(old(rows), request).Some? ==> outcome == Answer(Find(old(rows), request).value, request)
    {
      FindIs(rows, request);
      if !sourceFound {
        return NotFound;
      }
      var existing := Find(rows, request);
      if existing.Some? {
        return Answer(existing.value, request);
      }
      var inserted := Insert(id, request);
      if inserted {
        outcome := Got(RowFor(id, request));
      } else {
        outcome := Reread(request);
      }
    }
  }

  function RowFor(id: JobId, request: Request): Row {
    Row(id, request.tenantId, request.idempotencyKey, request.fingerprint)
  }

  // ---------------------------------------------------------------- interleaved calls

  datatype Step =
    | Begin(caller: CallerId, request: Request)
    | Check(caller: CallerId)
    | Insert(caller: CallerId, id: JobId)
    | Reread(caller: CallerId)
    | MissSource(caller: CallerId)
    | LoseConnection(caller: CallerId)

  predicate Enabled(s: State, step: Step) {
    match step
    case Begin(c, _) => c !in s.calls
    case Check(c) => c in s.calls && s.calls[c].phase.Starting?
    case Insert(c, id) => c in s.calls && s.calls[c].phase.Absent? && forall i :: 0 <= i < |s.rows| ==> s.rows[i].id != id
    case Reread(c) => c in s.calls && s.calls[c].phase.Violated?
    case MissSource(c) => c in s.calls && s.calls[c].phase.Starting?
    case LoseConnection(c) => c in s.calls && !s.calls[c].phase.Done?
  }

  function Move(s: State, caller: CallerId, phase: Phase): State
    requires caller in s.calls
  {
    s.(calls := s.calls[caller := s.calls[caller].(phase := phase)])
  }

  function Next(s: State, step: Step): State
    requires Enabled(s, step)
  {
    match step
    case Begin(c, request) => s.(calls := s.calls[c := Call(request, Starting)])
    case Check(c) =>
      var existing := Find(s.rows, s.calls[c].request);
      Move(s, c, if existing.Some? then Done(Answer(existing.value, s.calls[c].request)) else Absent)
    case Insert(c, id) =>
      var request := s.calls[c].request;
      if Find(s.rows, request).Some? then Move(s, c, Violated)
      else
        var row := RowFor(id, request);
        Move(s, c, Done(Got(row))).(rows := s.rows + [row], created := s.created + [id])
    case Reread(c) =>
      var existing := Find(s.rows, s.calls[c].request);
      Move(s, c, Done(if existing.Some? then Answer(existing.value, s.calls[c].request) else Unavailable))
    case MissSource(c) => Move(s, c, Done(NotFound))
    case LoseConnection(c) => Move(s, c, Done(Unavailable))
  }

  predicate Legal(s: State, steps: seq<Step>)
    decreases |steps|
  {
    steps == [] || (Enabled(s, steps[0]) && Legal(Next(s, steps[0]), steps[1..]))
  }

  function After(s: State, steps: seq<Step>): State
    requires Legal(s, steps)
    decreases |steps|
  {
    if steps == [] then s else After(Next(s, steps[0]), steps[1..])
  }

  function Empty(): State {
    State([], [], map[])
  }

  // ---------------------------------------------------------------- what every run keeps

  predicate SameKey(a: Row, b: Row) {
    a.tenantId == b.tenantId && a.idempotencyKey == b.idempotencyKey
  }

  /** No two rows share a key or an id, and each row has its one created event. */
  predicate TableSound(rows: seq<Row>, created: seq<JobId>) {
    && (forall i, k :: 0 <= i < k < |rows| ==> !SameKey(rows[i], rows[k]) && rows[i].id != rows[k].id)
    && |created| == |rows| && forall i :: 0 <= i < |rows| ==> created[i] == rows[i].id
  }

  /** What a call may have concluded, given the table. */
  predicate CallSound(rows: seq<Row>, call: Call) {
    var existing := Find(rows, call.request);
    match call.phase
    case Starting => true
    case Absent => true
    case Violated => existing.Some?
    case Done(Got(row)) => existing == Some(row) && row.fingerprint == call.request.fingerprint
    case Done(Conflict) => existing.Some? && existing.value.fingerprint != call.request.fingerprint
    case Done(NotFound) => true
    case Done(Unavailable) => true
  }

  ghost predicate Sound(s: State) {
    TableSound(s.rows, s.created) && forall c :: c in s.calls ==> CallSound(s.rows, s.calls[c])
  }

  lemma {:induction false} FindFinds(rows: seq<Row>, request: Request)
    ensures var r := Find(rows, request);
            if r.Some? then r.value in rows && HasKey(r.value, request)
            else forall i :: 0 <= i < |rows| ==> !HasKey(rows[i], request)
  {
    if rows != [] {
      FindFinds(rows[1..], request);
    }
  }

  /** A row once found is found for ever: rows are only appended. */
  lemma {:induction false} FindStays(rows: seq<Row>, row: Row, request: Request)
    ensures Find(rows, request).Some? ==> Find(rows + [row], request) == Find(rows, request)
    ensures Find(rows, request).None? && HasKey(row, request) ==> Find(rows + [row], request) == Some(row)
  {
    if rows != [] {
      FindStays(rows[1..], row, request);
      assert (rows + [row])[1..] == rows[1..] + [row];
    }
  }

  lemma CallStays(rows: seq<Row>, row: Row, call: Call)
    requires CallSound(rows, call)
    ensures CallSound(rows + [row], call)
  {
    FindStays(rows, row, call.request);
  }

  lemma StepKeepsSound(s: State, step: Step)
    requires Sound(s) && Enabled(s, step)
    ensures Sound(Next(s, step))
    ensures s.rows <= Next(s, step).rows
  {
    if step.Insert? && Find(s.rows, s.calls[step.caller].request).None? {
      var request := s.calls[step.caller].request;
      var row := RowFor(step.id, request);
      FindFinds(s.rows, request);
      FindStays(s.rows, row, request);
      forall c | c in s.calls ensures CallSound(s.rows + [row], s.calls[c]) {
        CallStays(s.rows, row, s.calls[c]);
      }
    }
  }

  lemma {:induction false} RunKeepsSound(s: State, steps: seq<Step>)
    requires Sound(s) && Legal(s, steps)
    ensures Sound(After(s, steps))
    decreases |steps|
  {
    if steps != [] {
      StepKeepsSound(s, steps[0]);
      RunKeepsSound(Next(s, steps[0]), steps[1..]);
    }
  }

  // ---------------------------------------------------------------- the promise

  function CountEvents(created: seq<JobId>, id: JobId): nat {
    if created == [] then 0 else (if created[0] == id then 1 else 0) + CountEvents(created[1..], id)
  }

  lemma {:induction false} OneEvent(rows: seq<Row>, created: seq<JobId>, i: nat)
    requires TableSound(rows, created) && i < |rows|
    ensures CountEvents(created, rows[i].id) == 1
    decreases i
  {
    if i == 0 {
      NoEvent(created[1..], rows[0].id);
    } else {
      OneEvent(rows[1..], created[1..], i - 1);
    }
  }

  lemma {:induction false} NoEvent(created: seq<JobId>, id: JobId)
    requires forall i :: 0 <= i < |created| ==> created[i] != id
    ensures CountEvents(created, id) == 0
  {
    if created != [] {
      NoEvent(created[1..], id);
    }
  }

  /** A step creates a row and its event exactly if it is an insert whose request no row equals in tenant and key. */
  lemma StepCreatesIff(s: State, step: Step)
    requires Enabled(s, step)
    ensures if step.Insert? && !Taken(s.rows, s.calls[step.caller].request)
            then
              var request := s.calls[step.caller].request;
              var row := Row(step.id, request.tenantId, request.idempotencyKey, request.fingerprint);
              && Next(s, step).rows == s.rows + [row] && Next(s, step).created == s.created + [step.id]
              && Next(s, step).calls[step.caller].phase == Done(Got(row))
            else Next(s, step).rows == s.rows && Next(s, step).created == s.created
    ensures step.Check? ==> (Next(s, step).calls[step.caller].phase.Absent? <==> !Taken(s.rows, s.calls[step.caller].request))
  {
    if step.Insert? || step.Check? {
      FindIs(s.rows, s.calls[step.caller].request);
    }
  }

  /** Over any run, a call that got a row got one of its own tenant, key and fingerprint, and a call that conflicts has the
      tenant and key of a row with another fingerprint. */
  lemma AnswersAreOwn(steps: seq<Step>, c: CallerId)
    requires Legal(Empty(), steps) && c in After(Empty(), steps).calls && After(Empty(), steps).calls[c].phase.Done?
    ensures var s, outcome := After(Empty(), steps), After(Empty(), steps).calls[c].phase.outcome;
      && (outcome.Got? ==> IsOwn(s.rows, outcome.row, s.calls[c].request))
      && (outcome.Conflict? ==> TakenByAnother(s.rows, s.calls[c].request))
  {
    var s := After(Empty(), steps);
    RunKeepsSound(Empty(), steps);
    assert CallSound(s.rows, s.calls[c]);
    FindIs(s.rows, s.calls[c].request);
  }

  /**
   * Over any run, calls with one key that got a row got the same row, which has exactly one created event; a call that
   * conflicts asked for something else than that row; and no two calls with equal fingerprints get different answers.
   */
  lemma OneJobPerKey(steps: seq<Step>, a: CallerId, b: CallerId)
    requires Legal(Empty(), steps)
    requires var s := After(Empty(), steps);
             && a in s.calls && b in s.calls
             && s.calls[a].request.tenantId == s.calls[b].request.tenantId
             && s.calls[a].request.idempotencyKey == s.calls[b].request.idempotencyKey
             && s.calls[a].phase.Done? && s.calls[a].phase.outcome.Got?
    ensures var s := After(Empty(), steps);
            var row, request := s.calls[a].phase.outcome.row, s.calls[a].request;
            && row in s.rows && CountEvents(s.created, row.id) == 1
            && row.tenantId == request.tenantId && row.idempotencyKey == request.idempotencyKey
            && row.fingerprint == request.fingerprint
            && (forall other :: other in s.rows && other.tenantId == request.tenantId && other.idempotencyKey == request.idempotencyKey
                  ==> other == row)
            && (s.calls[b].phase == Done(Conflict) ==> s.calls[b].request.fingerprint != row.fingerprint)
            && (s.calls[b].phase.Done? && s.calls[b].phase.outcome.Got? ==>
                  s.calls[b].phase.outcome.row == row && s.calls[b].request.fingerprint == row.fingerprint)
  {
    var s := After(Empty(), steps);
    RunKeepsSound(Empty(), steps);
    var row := s.calls[a].phase.outcome.row;
    assert CallSound(s.rows, s.calls[a]) && CallSound(s.rows, s.calls[b]);
    FindFinds(s.rows, s.calls[a].request);
    SameFind(s.rows, s.calls[a].request, s.calls[b].request);
    var i :| 0 <= i < |s.rows| && s.rows[i] == row;
    OneEvent(s.rows, s.created, i);
    forall other | other in s.rows && HasKey(other, s.calls[a].request) ensures other == row {
      var k :| 0 <= k < |s.rows| && s.rows[k] == other;
      assert SameKey(s.rows[i], s.rows[k]) && SameKey(s.rows[k], s.rows[i]);
    }
  }

  lemma {:induction false} SameFind(rows: seq<Row>, a: Request, b: Request)
    requires a.tenantId == b.tenantId && a.idempotencyKey == b.idempotencyKey
    ensures Find(rows, a) == Find(rows, b)
  {
    if rows != [] {
      SameFind(rows[1..], a, b);
    }
  }

  /** After a unique violation the second read always finds the row, so the call never ends unavailable there. */
  lemma FallbackFinds(steps: seq<Step>, caller: CallerId)
    requires Legal(Empty(), steps) && Enabled(After(Empty(), steps), Reread(caller))
    ensures var s := After(Empty(), steps);
            var ended := Next(s, Reread(caller)).calls[caller].phase;
            && Taken(s.rows, s.calls[caller].request)
            && ended.Done? && (ended.outcome.Got? || ended.outcome.Conflict?)
  {
    RunKeepsSound(Empty(), steps);
    var s := After(Empty(), steps);
    assert CallSound(s.rows, s.calls[caller]);
    FindIs(s.rows, s.calls[caller].request);
  }
}
