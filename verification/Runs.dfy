/**
 * Whole runs of the service: receive, pipeline, assign, unassign, worker attempt and manual retry, one at a
 * time, in any order, each with any of its disk and database calls failing.
 */
module Runs {
  import opened Common
  import opened Vouchers
  import opened Records
  import opened FileStore
  import opened TransmissionStore
  import opened Settings
  import opened Assignment
  import opened Delivery
  import opened Intake

  datatype Event =
    | Received(guid: string, bytes: Bytes)
    | AssignedOk(guid: string)
    | RestoredBackup(guid: string)
    | UnassignedRow(id: nat)
    | RetriedRow(id: nat)

  /** The world together with the history of what happened to it. */
  datatype System = System(world: World, log: seq<Event>)

  datatype Step =
    | Receive(raw: Bytes, rio: ReceiveIo)
    | Process(input: PipelineInput)
    | Assign(call: AssignCall, hit: Option<Row>, aio: AssignIo)
    | Unassign(serial: string, hit: Option<Row>, uio: UnassignIo)
    | WorkerAttempt(rec: Row, fetchedAt: Time, attempt: Attempt)
    | ManualRetry(guid: string, hit: Option<Row>, attempt: Attempt)

  ghost predicate WasReceived(log: seq<Event>, guid: string) {
    exists b :: Received(guid, b) in log
  }

  /** The pipeline runs for received vouchers; queries return a newest record; the worker takes a due one. */
  ghost predicate Enabled(s: System, step: Step) {
    var w := s.world;
    match step
    case Receive(_, _) => true
    case Process(p) => WasReceived(s.log, p.guid)
    case Assign(call, hit, io) => SerialHit(w, call.serial, io.lookup, hit)
    case Unassign(serial, hit, io) => SerialHit(w, serial, io.lookup, hit)
    case WorkerAttempt(rec, fetchedAt, _) => rec in w.rows && IsDue(fetchedAt)(rec)
    case ManualRetry(guid, hit, _) => guid != "" && Newest(w.rows, HasGuid(guid), hit)
  }

  ghost function Next(cfg: Config, s: System, step: Step): System {
    var w := s.world;
    match step
    case Receive(raw, io) =>
      var (files, receipt) := ReceiveEffect(cfg, w.files, raw, io);
      System(w.(files := files),
             if receipt.Accepted? then s.log + [Received(receipt.guid, AsPem(cfg.lib, raw))] else s.log)
    case Process(p) =>
      System(World(ProcessFiles(cfg, w.files, w.nextId, p), ProcessRows(cfg, w.rows, w.nextId, p), w.grants,
                   if p.insert then w.nextId + 1 else w.nextId), s.log)
    case Assign(call, hit, io) =>
      var (w', result) := AssignEffect(cfg, w, call, hit, io);
      System(w', if result.error == None then s.log + [AssignedOk(result.voucherId)] else s.log)
    case Unassign(serial, hit, io) =>
      System(UnassignEffect(cfg, w, hit, io), s.log + UnassignEvents(cfg, w, hit, io))
    case WorkerAttempt(rec, _, a) => System(AttemptWorld(cfg, w, rec, a), s.log)
    case ManualRetry(_, hit, a) =>
      if hit == None then s else System(AttemptWorld(cfg, w, hit.value, a), s.log + [RetriedRow(hit.value.id)])
  }

  function AttemptWorld(cfg: Config, w: World, rec: Row, a: Attempt): World {
    w.(files := AttemptFiles(cfg, w.files, rec, a), rows := AttemptRows(cfg, w.rows, rec, a))
  }

  function UnassignEvents(cfg: Config, w: World, hit: Option<Row>, io: UnassignIo): seq<Event> {
    match UnassignVerdict(hit, io)
    case Err(_) => []
    case Ok(rec) =>
      [UnassignedRow(rec.id)] +
      if CanRestore(w.files, cfg.directory, rec.guid, io.restoreRead, io.restoreWrite)
      then [RestoredBackup(rec.guid)] else []
  }

  const START: System := System(World(map[], [], [], 1), [])

  ghost function Run(cfg: Config, steps: seq<Step>): System {
    if steps == [] then START else Next(cfg, Run(cfg, steps[..|steps| - 1]), steps[|steps| - 1])
  }

  ghost predicate Legal(cfg: Config, steps: seq<Step>) {
    steps == [] ||
    (Legal(cfg, steps[..|steps| - 1]) && Enabled(Run(cfg, steps[..|steps| - 1]), steps[|steps| - 1]))
  }

  lemma RunSnoc(cfg: Config, steps: seq<Step>, step: Step)
    ensures Run(cfg, steps + [step]) == Next(cfg, Run(cfg, steps), step)
    ensures Legal(cfg, steps + [step]) <==> Legal(cfg, steps) && Enabled(Run(cfg, steps), step)
  {
    assert (steps + [step])[..|steps|] == steps;
  }

  /** Assign calls name only new owners from `keys`. */
  ghost predicate OnlyOwners(steps: seq<Step>, keys: iset<KeyId>) {
    forall i :: 0 <= i < |steps| && steps[i].Assign? ==> steps[i].call.key.id in keys
  }

  ghost predicate HolderExcluded(cfg: Config, keys: iset<KeyId>) {
    cfg.holder.Some? ==> cfg.holder.value !in keys
  }

  // ---------- what every run keeps ----------

  /** The two tables and the history fit together. */
  ghost predicate Coherent(cfg: Config, s: System) {
    && UniqueIds(s.world.rows)
    && UniqueGrants(s.world.grants)
    && (forall r :: r in s.world.rows ==> RowFits(cfg, s, r))
    && (forall h, b :: Received(h, b) in s.log ==>
          cfg.lib.parse(b).Some? && Hex(cfg.lib.parse(b).value.guid) == h)
  }

  ghost predicate RowFits(cfg: Config, s: System, r: Row) {
    && r.id < s.world.nextId
    && WasReceived(s.log, r.guid)
    && r.filePath == FilePath(cfg.directory, r.guid)
  }

  ghost predicate Extended(lib: Library, before: Bytes, after: Bytes) {
    && lib.parse(before).Some? && lib.parse(after).Some?
    && ExtendsByOne(lib.parse(before).value, lib.parse(after).value)
  }

  /** The file of `h` is a received voucher, or one extended once with the received bytes kept as backup. */
  ghost predicate FileSafe(cfg: Config, s: System, h: string) {
    var files, path, backup := s.world.files, FilePath(cfg.directory, h), BackupPath(cfg.directory, h);
    path in files ==>
      || Received(h, files[path]) in s.log
      || (backup in files && Received(h, files[backup]) in s.log && Extended(cfg.lib, files[backup], files[path]))
  }

  ghost predicate TipIsHolder(cfg: Config, files: Files, path: string) {
    && path in files && cfg.lib.parse(files[path]).Some?
    && cfg.holder == Some(Tip(cfg.lib.parse(files[path]).value))
  }

  /** The inductive strengthening of FileSafe: backups are always received bytes, extended files are out of reach. */
  ghost predicate Guarded(cfg: Config, s: System, h: string) {
    var files, path, backup := s.world.files, FilePath(cfg.directory, h), BackupPath(cfg.directory, h);
    && (backup in files ==> Received(h, files[backup]) in s.log)
    && (path in files && Received(h, files[path]) !in s.log ==>
          backup in files && Extended(cfg.lib, files[backup], files[path]) && !TipIsHolder(cfg, files, path))
    && (Open(s.log, h) ==> !TipIsHolder(cfg, files, path))
  }

  /** The last assignment of `h` has not been undone by a restore or a new reception. */
  predicate Open(log: seq<Event>, h: string) {
    if log == [] then false
    else
      match log[|log| - 1]
      case AssignedOk(g) => g == h || Open(log[..|log| - 1], h)
      case RestoredBackup(g) => g != h && Open(log[..|log| - 1], h)
      case Received(g, _) => g != h && Open(log[..|log| - 1], h)
      case _ => Open(log[..|log| - 1], h)
  }

  predicate Reopens(e: Event, h: string) {
    e == RestoredBackup(h) || (e.Received? && e.guid == h)
  }

  /** Between two "ok" answers for one voucher its file was restored, or received anew. */
  ghost predicate AtMostOnce(log: seq<Event>) {
    forall i, j, h :: 0 <= i < j < |log| && log[i] == AssignedOk(h) && log[j] == AssignedOk(h) ==>
      exists k :: i < k < j && Reopens(log[k], h)
  }

  lemma OpenSnoc(log: seq<Event>, e: Event, h: string)
    ensures Open(log + [e], h) ==
      if e == AssignedOk(h) then true else if Reopens(e, h) then false else Open(log, h)
  {
    assert (log + [e])[..|log|] == log;
  }

  /** If the voucher is not open, any earlier assignment was followed by something that closed it. */
  lemma {:induction false} ClosedSince(log: seq<Event>, i: nat, h: string)
    requires i < |log| && log[i] == AssignedOk(h) && !Open(log, h)
    ensures exists k :: i < k < |log| && Reopens(log[k], h)
  {
    var n := |log| - 1;
    if !Reopens(log[n], h) {
      ClosedSince(log[..n], i, h);
      var k :| i < k < n && Reopens(log[..n][k], h);
      assert Reopens(log[k], h);
    }
  }

  lemma AtMostOnceSnoc(log: seq<Event>, e: Event)
    requires AtMostOnce(log)
    requires e.AssignedOk? ==> !Open(log, e.guid)
    ensures AtMostOnce(log + [e])
  {
    var l := log + [e];
    forall i, j, h | 0 <= i < j < |l| && l[i] == AssignedOk(h) && l[j] == AssignedOk(h)
      ensures exists k :: i < k < j && Reopens(l[k], h)
    {
      if j < |log| {
        var k :| i < k < j && Reopens(log[k], h);
        assert Reopens(l[k], h);
      } else {
        ClosedSince(log, i, h);
        var k :| i < k < |log| && Reopens(log[k], h);
        assert Reopens(l[k], h);
      }
    }
  }

  lemma ReceivedGuidIsCanonical(cfg: Config, s: System, h: string)
    requires Coherent(cfg, s) && WasReceived(s.log, h)
    ensures Canonical(h)
  {
    var b :| Received(h, b) in s.log;
    HexIsCanonical(cfg.lib.parse(b).value.guid);
  }

  lemma RecordIsCanonical(cfg: Config, s: System, r: Row)
    requires Coherent(cfg, s) && r in s.world.rows
    ensures RowFits(cfg, s, r) && Canonical(r.guid)
  {
    assert RowFits(cfg, s, r);
    ReceivedGuidIsCanonical(cfg, s, r.guid);
  }

  // ---------- Coherent ----------

  lemma CoherentUpdate(cfg: Config, s: System, s': System, id: nat, f: Row -> Row)
    requires Coherent(cfg, s)
    requires s'.world.rows == UpdateRow(s.world.rows, id, f) && s'.world.nextId == s.world.nextId
    requires forall r :: f(r).id == r.id && f(r).guid == r.guid && f(r).filePath == r.filePath
    requires UniqueGrants(s'.world.grants)
    requires s.log <= s'.log && forall e :: e in s'.log && e !in s.log ==> !e.Received?
    ensures Coherent(cfg, s')
  {
    forall r | r in s'.world.rows ensures RowFits(cfg, s', r) {
      var i :| 0 <= i < |s'.world.rows| && s'.world.rows[i] == r;
      var old_ := s.world.rows[i];
      assert old_ in s.world.rows && RowFits(cfg, s, old_);
      KeepsReceived(s.log, s'.log, r.guid);
    }
  }

  lemma KeepsReceived(log: seq<Event>, log': seq<Event>, h: string)
    requires log <= log'
    ensures WasReceived(log, h) ==> WasReceived(log', h)
  {
    if b :| Received(h, b) in log {
      assert Received(h, b) in log';
    }
  }

  lemma CoherentAttempt(cfg: Config, s: System, rec: Row, a: Attempt, log: seq<Event>)
    requires Coherent(cfg, s)
    requires s.log <= log && forall e :: e in log && e !in s.log ==> !e.Received?
    ensures Coherent(cfg, System(AttemptWorld(cfg, s.world, rec, a), log))
  {
    var s' := System(AttemptWorld(cfg, s.world, rec, a), log);
    if Deliverable(rec) && a.mark {
      CoherentUpdate(cfg, s, s', rec.id, After(cfg, rec, a));
    } else {
      var same := (r: Row) => r;
      assert s'.world.rows == UpdateRow(s.world.rows, rec.id, same);
      CoherentUpdate(cfg, s, s', rec.id, same);
    }
  }

  lemma CoherentProcess(cfg: Config, s: System, p: PipelineInput)
    requires Coherent(cfg, s) && WasReceived(s.log, p.guid)
    ensures Coherent(cfg, Next(cfg, s, Process(p)))
  {
    if p.insert {
      var record := FreshRecord(cfg, p, s.world.nextId);
      var mid := System(s.world.(rows := s.world.rows + [record], nextId := s.world.nextId + 1), s.log);
      forall r | r in mid.world.rows ensures RowFits(cfg, mid, r) {
        assert r in s.world.rows ==> RowFits(cfg, s, r);
      }
      forall i | 0 <= i < |s.world.rows| ensures s.world.rows[i].id < s.world.nextId {
        assert RowFits(cfg, s, s.world.rows[i]);
      }
      assert Coherent(cfg, mid);
      if p.route.To? {
        CoherentAttempt(cfg, mid, record, p.first, s.log);
      }
    }
  }

  lemma CoherentReceive(cfg: Config, s: System, raw: Bytes, io: ReceiveIo)
    requires ValidConfig(cfg) && Coherent(cfg, s)
    ensures Coherent(cfg, Next(cfg, s, Receive(raw, io)))
  {
    var s' := Next(cfg, s, Receive(raw, io));
    forall r | r in s'.world.rows ensures RowFits(cfg, s', r) {
      assert RowFits(cfg, s, r);
      KeepsReceived(s.log, s'.log, r.guid);
    }
  }

  lemma CoherentAssign(cfg: Config, s: System, call: AssignCall, hit: Option<Row>, io: AssignIo)
    requires Coherent(cfg, s)
    ensures Coherent(cfg, Next(cfg, s, Assign(call, hit, io)))
  {
    var s' := Next(cfg, s, Assign(call, hit, io));
    if hit.Some? {
      var rec := hit.value;
      GrantsStayUnique(cfg, s.world.grants, call, rec, io);
      var mark := (r: Row) =>
        MarkedAssigned(r, cfg.lib.fingerprint(call.key), call.did, call.caller.fingerprint, io.now);
      var same := (r: Row) => r;
      if s'.world.rows == s.world.rows {
        assert s'.world.rows == UpdateRow(s.world.rows, rec.id, same);
        CoherentUpdate(cfg, s, s', rec.id, same);
      } else {
        CoherentUpdate(cfg, s, s', rec.id, mark);
      }
    }
  }

  lemma GrantsStayUnique(cfg: Config, grants: seq<Grant>, call: AssignCall, rec: Row, io: AssignIo)
    requires UniqueGrants(grants)
    ensures UniqueGrants(GrantsAfter(cfg, grants, call, rec, io))
  {
    InsertKeepsFirstWriter(grants, CustodianGrant(call, rec, io.now));
    var g1 := if (call.channel == Cli || call.caller.fingerprint != "") && io.custodianGrant
              then InsertOrIgnore(grants, CustodianGrant(call, rec, io.now)) else grants;
    InsertKeepsFirstWriter(g1, OwnerGrant(call, rec, cfg.lib.fingerprint(call.key), io.now));
  }

  lemma CoherentUnassign(cfg: Config, s: System, serial: string, hit: Option<Row>, io: UnassignIo)
    requires Coherent(cfg, s)
    ensures Coherent(cfg, Next(cfg, s, Unassign(serial, hit, io)))
  {
    var s' := Next(cfg, s, Unassign(serial, hit, io));
    if UnassignVerdict(hit, io).Ok? {
      var rec := hit.value;
      WithoutGuidKeepsUnique(s.world.grants, rec.guid);
      CoherentUpdate(cfg, s, s', rec.id, (r: Row) => MarkedUnassigned(r, RestoreStatus(rec), io.now));
    }
  }

  lemma StepKeepsCoherent(cfg: Config, s: System, step: Step)
    requires ValidConfig(cfg) && Coherent(cfg, s) && Enabled(s, step)
    ensures Coherent(cfg, Next(cfg, s, step))
  {
    match step
    case Receive(raw, io) => CoherentReceive(cfg, s, raw, io);
    case Process(p) => CoherentProcess(cfg, s, p);
    case Assign(call, hit, io) => CoherentAssign(cfg, s, call, hit, io);
    case Unassign(serial, hit, io) => CoherentUnassign(cfg, s, serial, hit, io);
    case WorkerAttempt(rec, _, a) => CoherentAttempt(cfg, s, rec, a, s.log);
    case ManualRetry(_, hit, a) =>
      if hit.Some? { CoherentAttempt(cfg, s, hit.value, a, s.log + [RetriedRow(hit.value.id)]); }
  }
}
