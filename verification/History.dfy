/** What every run keeps about delivery attempts, delivered rows and removed files. */
module History {
  import opened Common
  import opened Records
  import opened Settings
  import opened Assignment
  import opened Delivery
  import opened Intake
  import opened Runs
  import Safety

  function Count(log: seq<Event>, e: Event): nat {
    if log == [] then 0 else Count(log[..|log| - 1], e) + if log[|log| - 1] == e then 1 else 0
  }

  lemma CountSnoc(log: seq<Event>, e: Event, x: Event)
    ensures Count(log + [x], e) == Count(log, e) + if x == e then 1 else 0
  {
    assert (log + [x])[..|log|] == log;
  }

  function Retries(log: seq<Event>, id: nat): nat { Count(log, RetriedRow(id)) }

  function AttemptLimit(cfg: Config, log: seq<Event>, id: nat): nat {
    MaxAttempts(cfg) + Count(log, UnassignedRow(id)) + Retries(log, id)
  }

  /** Attempts are capped, with one extra per unassignment and manual retry; delivery is recorded with success. */
  predicate RowSound(cfg: Config, log: seq<Event>, r: Row) {
    && 0 <= r.attempts <= AttemptLimit(cfg, log, r.id)
    && (r.status == Pending ==> r.attempts < AttemptLimit(cfg, log, r.id))
    && (r.status == Succeeded ==> r.deliveredAt.Some?)
    && (Retries(log, r.id) == 0 && r.deliveredAt.Some? ==> r.status == Succeeded)
  }

  ghost predicate AllRowsSound(cfg: Config, s: System) {
    forall r :: r in s.world.rows ==> RowSound(cfg, s.log, r)
  }

  lemma SoundUpdate(cfg: Config, rows: seq<Row>, log: seq<Event>, id: nat, f: Row -> Row)
    requires forall r :: r in rows ==> RowSound(cfg, log, if r.id == id then f(r) else r)
    ensures forall r :: r in UpdateRow(rows, id, f) ==> RowSound(cfg, log, r)
  {
    var after := UpdateRow(rows, id, f);
    forall r | r in after ensures RowSound(cfg, log, r) {
      var i :| 0 <= i < |after| && after[i] == r;
      assert rows[i] in rows;
    }
  }

  lemma SameIdSameRow(rows: seq<Row>, r: Row, q: Row)
    requires UniqueIds(rows) && r in rows && q in rows && r.id == q.id
    ensures r == q
  {
  }

  lemma SoundWorkerAttempt(cfg: Config, s: System, rec: Row, a: Attempt)
    requires UniqueIds(s.world.rows) && AllRowsSound(cfg, s) && rec in s.world.rows && rec.status == Pending
    ensures AllRowsSound(cfg, System(AttemptWorld(cfg, s.world, rec, a), s.log))
  {
    if Deliverable(rec) && a.mark {
      forall r | r in s.world.rows
        ensures RowSound(cfg, s.log, if r.id == rec.id then After(cfg, rec, a)(r) else r)
      {
        if r.id == rec.id { SameIdSameRow(s.world.rows, r, rec); }
      }
      SoundUpdate(cfg, s.world.rows, s.log, rec.id, After(cfg, rec, a));
    }
  }

  lemma SoundRetriedRow(cfg: Config, log: seq<Event>, rec: Row, a: Attempt, r: Row)
    requires RowSound(cfg, log, r) && (r.id == rec.id ==> r == rec)
    ensures
      var log' := log + [RetriedRow(rec.id)];
      RowSound(cfg, log', r) && RowSound(cfg, log', if r.id == rec.id then After(cfg, rec, a)(r) else r)
  {
    CountSnoc(log, RetriedRow(r.id), RetriedRow(rec.id));
    CountSnoc(log, UnassignedRow(r.id), RetriedRow(rec.id));
  }

  lemma SoundRetry(cfg: Config, s: System, rec: Row, a: Attempt)
    requires UniqueIds(s.world.rows) && AllRowsSound(cfg, s) && rec in s.world.rows
    ensures AllRowsSound(cfg, System(AttemptWorld(cfg, s.world, rec, a), s.log + [RetriedRow(rec.id)]))
  {
    var log := s.log + [RetriedRow(rec.id)];
    forall r | r in s.world.rows
      ensures RowSound(cfg, log, r) && RowSound(cfg, log, if r.id == rec.id then After(cfg, rec, a)(r) else r)
    {
      if r.id == rec.id { SameIdSameRow(s.world.rows, r, rec); }
      SoundRetriedRow(cfg, s.log, rec, a, r);
    }
    SoundUpdate(cfg, s.world.rows, log, rec.id, After(cfg, rec, a));
  }

  lemma SoundProcess(cfg: Config, s: System, p: PipelineInput)
    requires Coherent(cfg, s) && AllRowsSound(cfg, s) && WasReceived(s.log, p.guid)
    ensures AllRowsSound(cfg, Next(cfg, s, Process(p)))
  {
    if p.insert {
      var record := FreshRecord(cfg, p, s.world.nextId);
      var mid := System(s.world.(rows := s.world.rows + [record]), s.log);
      forall i | 0 <= i < |s.world.rows| ensures s.world.rows[i].id < s.world.nextId {
        assert RowFits(cfg, s, s.world.rows[i]);
      }
      assert AllRowsSound(cfg, mid) && UniqueIds(mid.world.rows);
      SoundWorkerAttempt(cfg, mid, record, p.first);
    }
  }

  lemma SoundUnassign(cfg: Config, s: System, serial: string, hit: Option<Row>, io: UnassignIo)
    requires UniqueIds(s.world.rows) && AllRowsSound(cfg, s) && SerialHit(s.world, serial, io.lookup, hit)
    ensures AllRowsSound(cfg, Next(cfg, s, Unassign(serial, hit, io)))
  {
    if UnassignVerdict(hit, io).Ok? {
      var rec := hit.value;
      var log := Next(cfg, s, Unassign(serial, hit, io)).log;
      var f := (r: Row) => MarkedUnassigned(r, RestoreStatus(rec), io.now);
      forall r | r in s.world.rows ensures RowSound(cfg, log, if r.id == rec.id then f(r) else r) {
        UnassignCounts(cfg, s, serial, hit, io, r.id);
        if r.id == rec.id { SameIdSameRow(s.world.rows, r, rec); }
      }
      SoundUpdate(cfg, s.world.rows, log, rec.id, f);
    } else {
      assert s.log + [] == s.log;
    }
  }

  lemma UnassignCounts(cfg: Config, s: System, serial: string, hit: Option<Row>, io: UnassignIo, id: nat)
    requires UnassignVerdict(hit, io).Ok?
    ensures
      var log := Next(cfg, s, Unassign(serial, hit, io)).log;
      && Count(log, UnassignedRow(id)) == Count(s.log, UnassignedRow(id)) + (if id == hit.value.id then 1 else 0)
      && Retries(log, id) == Retries(s.log, id)
  {
    var log := Next(cfg, s, Unassign(serial, hit, io)).log;
    var mid := s.log + [UnassignedRow(hit.value.id)];
    CountSnoc(s.log, UnassignedRow(id), UnassignedRow(hit.value.id));
    CountSnoc(s.log, RetriedRow(id), UnassignedRow(hit.value.id));
    CountSnoc(mid, UnassignedRow(id), RestoredBackup(hit.value.guid));
    CountSnoc(mid, RetriedRow(id), RestoredBackup(hit.value.guid));
    assert log == mid || log == mid + [RestoredBackup(hit.value.guid)];
  }

  lemma SoundAssign(cfg: Config, s: System, call: AssignCall, hit: Option<Row>, io: AssignIo)
    requires UniqueIds(s.world.rows) && AllRowsSound(cfg, s) && SerialHit(s.world, call.serial, io.lookup, hit)
    ensures AllRowsSound(cfg, Next(cfg, s, Assign(call, hit, io)))
  {
    var s' := Next(cfg, s, Assign(call, hit, io));
    if s'.log != s.log {
      var rec := hit.value;
      var f := (r: Row) => MarkedAssigned(r, cfg.lib.fingerprint(call.key), call.did, call.caller.fingerprint, io.now);
      forall r | r in s.world.rows
        ensures RowSound(cfg, s'.log, r) && RowSound(cfg, s'.log, if r.id == rec.id then f(r) else r)
      {
        CountSnoc(s.log, RetriedRow(r.id), AssignedOk(rec.guid));
        CountSnoc(s.log, UnassignedRow(r.id), AssignedOk(rec.guid));
        if r.id == rec.id { SameIdSameRow(s.world.rows, r, rec); }
      }
      SoundUpdate(cfg, s.world.rows, s'.log, rec.id, f);
    } else {
      AssignErrorKeepsRows(cfg, s, call, hit, io);
    }
  }

  lemma AssignErrorKeepsRows(cfg: Config, s: System, call: AssignCall, hit: Option<Row>, io: AssignIo)
    requires Next(cfg, s, Assign(call, hit, io)).log == s.log
    ensures Next(cfg, s, Assign(call, hit, io)).world.rows == s.world.rows
  {
  }

  lemma StepKeepsRowsSound(cfg: Config, s: System, step: Step)
    requires Coherent(cfg, s) && AllRowsSound(cfg, s) && Enabled(s, step)
    ensures AllRowsSound(cfg, Next(cfg, s, step))
  {
    match step
    case Receive(raw, io) =>
      var receipt := ReceiveEffect(cfg, s.world.files, raw, io).1;
      if receipt.Accepted? {
        forall r | r in s.world.rows ensures RowSound(cfg, Next(cfg, s, step).log, r) {
          CountSnoc(s.log, RetriedRow(r.id), Received(receipt.guid, AsPem(cfg.lib, raw)));
          CountSnoc(s.log, UnassignedRow(r.id), Received(receipt.guid, AsPem(cfg.lib, raw)));
        }
      }
    case Process(p) => SoundProcess(cfg, s, p);
    case Assign(call, hit, io) => SoundAssign(cfg, s, call, hit, io);
    case Unassign(serial, hit, io) => SoundUnassign(cfg, s, serial, hit, io);
    case WorkerAttempt(rec, _, a) => SoundWorkerAttempt(cfg, s, rec, a);
    case ManualRetry(_, hit, a) => if hit.Some? { SoundRetry(cfg, s, hit.value, a); }
  }

  lemma {:induction false} AttemptsStayBounded(cfg: Config, steps: seq<Step>)
    requires ValidConfig(cfg) && Legal(cfg, steps)
    ensures AllRowsSound(cfg, Run(cfg, steps))
  {
    if steps != [] {
      var n := |steps| - 1;
      AttemptsStayBounded(cfg, steps[..n]);
      Safety.RunsAreCoherent(cfg, steps[..n]);
      StepKeepsRowsSound(cfg, Run(cfg, steps[..n]), steps[n]);
    }
  }

  /** Appending an event of another kind changes neither count. */
  lemma CountsIgnore(log: seq<Event>, log': seq<Event>, e: Event, id: nat)
    requires log' == log || log' == log + [e]
    requires !e.RetriedRow? && !e.UnassignedRow?
    ensures Retries(log', id) == Retries(log, id)
    ensures Count(log', UnassignedRow(id)) == Count(log, UnassignedRow(id))
  {
    CountSnoc(log, RetriedRow(id), e);
    CountSnoc(log, UnassignedRow(id), e);
  }

  lemma StepCounts(cfg: Config, s: System, step: Step, id: nat)
    ensures !step.ManualRetry? ==> Retries(Next(cfg, s, step).log, id) == Retries(s.log, id)
    ensures !step.Unassign? ==> Count(Next(cfg, s, step).log, UnassignedRow(id)) == Count(s.log, UnassignedRow(id))
  {
    var log := Next(cfg, s, step).log;
    match step
    case Receive(raw, io) =>
      var receipt := ReceiveEffect(cfg, s.world.files, raw, io).1;
      CountsIgnore(s.log, log, Received(if receipt.Accepted? then receipt.guid else "", AsPem(cfg.lib, raw)), id);
    case Assign(call, hit, io) =>
      CountsIgnore(s.log, log, AssignedOk(AssignEffect(cfg, s.world, call, hit, io).1.voucherId), id);
    case Unassign(serial, hit, io) =>
      if UnassignVerdict(hit, io).Ok? {
        UnassignCounts(cfg, s, serial, hit, io, id);
      } else {
        assert log == s.log;
      }
    case ManualRetry(_, hit, _) =>
      if hit.Some? { CountSnoc(s.log, UnassignedRow(id), RetriedRow(hit.value.id)); }
    case Process(_) =>
    case WorkerAttempt(_, _, _) =>
  }

  /** An event that no step of the run logs is counted zero times. */
  lemma {:induction false} NeverLogged(cfg: Config, steps: seq<Step>, id: nat)
    ensures (forall i :: 0 <= i < |steps| ==> !steps[i].ManualRetry?) ==> Retries(Run(cfg, steps).log, id) == 0
    ensures (forall i :: 0 <= i < |steps| ==> !steps[i].Unassign?) ==>
      Count(Run(cfg, steps).log, UnassignedRow(id)) == 0
  {
    if steps != [] {
      var n := |steps| - 1;
      NeverLogged(cfg, steps[..n], id);
      StepCounts(cfg, Run(cfg, steps[..n]), steps[n], id);
    }
  }

  /**
   * Without manual retries a row is delivered exactly when it succeeded; without unassignments as well, no row
   * exceeds the configured attempts and every pending row is below them.
   */
  lemma RunsWithoutManualRetry(cfg: Config, steps: seq<Step>, r: Row)
    requires ValidConfig(cfg) && Legal(cfg, steps) && r in Run(cfg, steps).world.rows
    requires forall i :: 0 <= i < |steps| ==> !steps[i].ManualRetry?
    ensures r.deliveredAt.Some? <==> r.status == Succeeded
    ensures (forall i :: 0 <= i < |steps| ==> !steps[i].Unassign?) ==>
      r.attempts <= MaxAttempts(cfg) && (r.status == Pending ==> r.attempts < MaxAttempts(cfg))
  {
    AttemptsStayBounded(cfg, steps);
    NeverLogged(cfg, steps, r.id);
    assert RowSound(cfg, Run(cfg, steps).log, r);
  }

  /**
   * The limit that is configured, and the default of five, bound the attempts in every run, with one more for each
   * unassignment and manual retry of the row; a pending row is below it.
   */
  lemma RunsKeepConfiguredLimit(cfg: Config, steps: seq<Step>, r: Row)
    requires ValidConfig(cfg) && Legal(cfg, steps) && r in Run(cfg, steps).world.rows
    ensures
      var log := Run(cfg, steps).log;
      var extra := Count(log, UnassignedRow(r.id)) + Count(log, RetriedRow(r.id));
      && (cfg.pushMaxAttempts > 0 ==> WithinLimit(r, cfg.pushMaxAttempts + extra))
      && (cfg.pushMaxAttempts <= 0 && cfg.workerMaxAttempts > 0 ==> WithinLimit(r, cfg.workerMaxAttempts + extra))
      && (cfg.pushMaxAttempts <= 0 && cfg.workerMaxAttempts <= 0 ==> WithinLimit(r, 5 + extra))
  {
    AttemptsStayBounded(cfg, steps);
    assert RowSound(cfg, Run(cfg, steps).log, r);
  }

  predicate WithinLimit(r: Row, limit: int) {
    0 <= r.attempts <= limit && (r.status == Pending ==> r.attempts < limit)
  }

  // ---------- delivered rows are final ----------

  /** A succeeded row survives every step except a manual retry, unchanged. */
  lemma SucceededStays(cfg: Config, s: System, step: Step, r: Row)
    requires Coherent(cfg, s) && Enabled(s, step) && !step.ManualRetry?
    requires r in s.world.rows && r.status == Succeeded
    ensures r in Next(cfg, s, step).world.rows
  {
    match step
    case Receive(_, _) =>
    case Process(p) =>
      assert RowFits(cfg, s, r);
      if p.insert {
        var record := FreshRecord(cfg, p, s.world.nextId);
        assert r in s.world.rows + [record];
        UpdateKeepsOthers(s.world.rows + [record], record.id, After(cfg, record, p.first), r);
      }
    case Assign(call, hit, io) =>
      if hit.Some? && Decide(cfg, s.world, call, hit.value, io).Ok? {
        NotSucceededNotSame(s.world.rows, hit.value, r);
        UpdateKeepsOthers(s.world.rows, hit.value.id, (q: Row) =>
          MarkedAssigned(q, cfg.lib.fingerprint(call.key), call.did, call.caller.fingerprint, io.now), r);
      }
    case Unassign(_, hit, io) =>
      if UnassignVerdict(hit, io).Ok? {
        NotSucceededNotSame(s.world.rows, hit.value, r);
        UpdateKeepsOthers(s.world.rows, hit.value.id, (q: Row) =>
          MarkedUnassigned(q, RestoreStatus(hit.value), io.now), r);
      }
    case WorkerAttempt(rec, _, a) =>
      NotSucceededNotSame(s.world.rows, rec, r);
      UpdateKeepsOthers(s.world.rows, rec.id, After(cfg, rec, a), r);
  }

  lemma NotSucceededNotSame(rows: seq<Row>, q: Row, r: Row)
    requires UniqueIds(rows) && q in rows && r in rows && q.status != Succeeded && r.status == Succeeded
    ensures q.id != r.id
  {
  }

  lemma {:induction false} SucceededIsTerminal(cfg: Config, steps: seq<Step>, n: nat, r: Row)
    requires ValidConfig(cfg) && Legal(cfg, steps) && n <= |steps|
    requires forall i :: n <= i < |steps| ==> !steps[i].ManualRetry?
    requires r in Run(cfg, steps[..n]).world.rows && r.status == Succeeded
    ensures r in Run(cfg, steps).world.rows
  {
    if n == |steps| {
      assert steps[..n] == steps;
    } else {
      var m := |steps| - 1;
      assert steps[..m][..n] == steps[..n];
      SucceededIsTerminal(cfg, steps[..m], n, r);
      Safety.RunsAreCoherent(cfg, steps[..m]);
      SucceededStays(cfg, Run(cfg, steps[..m]), steps[m], r);
    }
  }
}
