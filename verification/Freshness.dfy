/** Exactly when a voucher file goes back to the latest reception of its voucher. */
module Freshness {
  import opened Common
  import opened Vouchers
  import opened Records
  import opened FileStore
  import opened TransmissionStore
  import opened Settings
  import opened Assignment
  import opened Delivery
  import opened Intake
  import opened Runs
  import opened Reassignment

  /** The bytes of the latest reception of a voucher. */
  function LastReceived(log: seq<Event>, h: string): Option<Bytes> {
    if log == [] then None
    else
      var last := log[|log| - 1];
      if last.Received? && last.guid == h then Some(last.bytes) else LastReceived(log[..|log| - 1], h)
  }

  /** The file is the latest reception, or that extended once with the latest reception kept as backup. */
  ghost predicate FileFresh(cfg: Config, s: System, h: string) {
    var files, path, backup := s.world.files, FilePath(cfg.directory, h), BackupPath(cfg.directory, h);
    var last := LastReceived(s.log, h);
    path in files ==>
      && last.Some?
      && (|| files[path] == last.value
          || (backup in files && files[backup] == last.value && Extended(cfg.lib, last.value, files[path])))
  }

  ghost predicate FilesAlwaysFresh(cfg: Config, keys: iset<KeyId>, reliable: bool) {
    forall steps, h :: Admissible(cfg, steps, keys, reliable) && Canonical(h) ==> FileFresh(cfg, Run(cfg, steps), h)
  }

  lemma {:induction false} LastWasReceived(log: seq<Event>, h: string)
    ensures LastReceived(log, h).Some? ==> Received(h, LastReceived(log, h).value) in log
  {
    if log != [] { LastWasReceived(log[..|log| - 1], h); }
  }

  lemma {:induction false} LastIgnores(log: seq<Event>, more: seq<Event>, h: string)
    requires forall e :: e in more ==> !e.Received?
    ensures LastReceived(log + more, h) == LastReceived(log, h)
  {
    if more == [] {
      assert log + more == log;
    } else {
      var n := |more| - 1;
      assert more[n] in more && (log + more)[..|log| + n] == log + more[..n];
      LastIgnores(log, more[..n], h);
    }
  }

  /** Only a reception logs a reception. */
  lemma StepLogs(cfg: Config, s: System, step: Step)
    ensures s.log <= Next(cfg, s, step).log
    ensures !step.Receive? ==> forall e :: e in Next(cfg, s, step).log[|s.log|..] ==> !e.Received?
  {
  }

  lemma StepKeepsLast(cfg: Config, s: System, step: Step, h: string)
    requires !step.Receive?
    ensures LastReceived(Next(cfg, s, step).log, h) == LastReceived(s.log, h)
  {
    StepLogs(cfg, s, step);
    var log := Next(cfg, s, step).log;
    assert log == s.log + log[|s.log|..];
    LastIgnores(s.log, log[|s.log|..], h);
  }

  lemma LastOfSnoc(log: seq<Event>, e: Event, h: string)
    ensures LastReceived(log + [e], h) == if e.Received? && e.guid == h then Some(e.bytes) else LastReceived(log, h)
  {
    assert (log + [e])[..|log|] == log;
  }

  // ---------- at most one reception ----------

  ghost predicate ReceivedOnce(log: seq<Event>, h: string) {
    forall b :: Received(h, b) in log ==> LastReceived(log, h) == Some(b)
  }

  lemma StepReceivesOnce(cfg: Config, s: System, step: Step, h: string)
    requires ValidConfig(cfg) && ReceivedOnce(s.log, h) && Retention.Kept(cfg, s, h)
    requires !cfg.deleteAfterSuccess && (step.Receive? ==> step.rio.stat)
    ensures ReceivedOnce(Next(cfg, s, step).log, h)
  {
    var log := Next(cfg, s, step).log;
    if step.Receive? {
      var receipt := ReceiveEffect(cfg, s.world.files, step.raw, step.rio).1;
      if receipt.Accepted? {
        LastOfSnoc(s.log, Received(receipt.guid, AsPem(cfg.lib, step.raw)), h);
      }
    } else {
      StepLogs(cfg, s, step);
      StepKeepsLast(cfg, s, step, h);
      assert log == s.log + log[|s.log|..];
    }
  }

  lemma {:induction false} RunsReceiveOnce(cfg: Config, steps: seq<Step>, h: string)
    requires ValidConfig(cfg) && Legal(cfg, steps) && Canonical(h)
    requires !cfg.deleteAfterSuccess && Retention.StatReliable(steps)
    ensures ReceivedOnce(Run(cfg, steps).log, h)
  {
    if steps != [] {
      var n := |steps| - 1;
      RunsReceiveOnce(cfg, steps[..n], h);
      Retention.FilesLeaveOnlyAfterDelivery(cfg, steps[..n], h);
      StepReceivesOnce(cfg, Run(cfg, steps[..n]), steps[n], h);
    }
  }

  /** With one reception, a safe file is a fresh one. */
  lemma SafeIsFresh(cfg: Config, s: System, h: string)
    requires FileSafe(cfg, s, h) && ReceivedOnce(s.log, h)
    ensures FileFresh(cfg, s, h)
  {
  }

  lemma FreshIsSafe(cfg: Config, s: System, h: string)
    requires FileFresh(cfg, s, h)
    ensures FileSafe(cfg, s, h)
  {
    LastWasReceived(s.log, h);
  }

  // ---------- no assignment ----------

  /** Nothing was ever backed up, and the file is the latest reception. */
  ghost predicate Untouched(cfg: Config, s: System, h: string) {
    var path := FilePath(cfg.directory, h);
    && BackupPath(cfg.directory, h) !in s.world.files
    && (path in s.world.files ==> LastReceived(s.log, h) == Some(s.world.files[path]))
  }

  lemma ReceiveKeepsUntouched(cfg: Config, s: System, raw: Bytes, io: ReceiveIo, h: string)
    requires ValidConfig(cfg) && Canonical(h) && Untouched(cfg, s, h)
    ensures Untouched(cfg, Next(cfg, s, Receive(raw, io)), h)
  {
    if cfg.lib.parse(raw).Some? {
      var g := Hex(cfg.lib.parse(raw).value.guid);
      HexIsCanonical(cfg.lib.parse(raw).value.guid);
      PathsDistinct(cfg.directory, h, g);
      PathsDistinct(cfg.directory, g, h);
      LastOfSnoc(s.log, Received(g, AsPem(cfg.lib, raw)), h);
    }
  }

  /** A step that only takes files away keeps the rest as it was. */
  lemma FewerFilesUntouched(cfg: Config, s: System, s': System, h: string)
    requires Untouched(cfg, s, h) && LastReceived(s'.log, h) == LastReceived(s.log, h)
    requires forall p :: p in s'.world.files ==> p in s.world.files && s'.world.files[p] == s.world.files[p]
    ensures Untouched(cfg, s', h)
  {
  }

  lemma AssignRefused(cfg: Config, s: System, call: AssignCall, hit: Option<Row>, io: AssignIo)
    requires cfg.holder == None
    ensures Next(cfg, s, Assign(call, hit, io)) == s
  {
    Safety.RefusedAssignIsNoStep(cfg, s, call, hit, io);
  }

  lemma NothingToRestore(cfg: Config, s: System, serial: string, hit: Option<Row>, io: UnassignIo)
    requires hit.Some? ==> BackupPath(cfg.directory, hit.value.guid) !in s.world.files
    ensures Next(cfg, s, Unassign(serial, hit, io)).world.files == s.world.files
  {
  }

  ghost predicate AllUntouched(cfg: Config, s: System) {
    forall h :: Canonical(h) ==> Untouched(cfg, s, h)
  }

  lemma StepKeepsUntouched(cfg: Config, s: System, step: Step, h: string)
    requires ValidConfig(cfg) && Coherent(cfg, s) && Enabled(s, step) && AllUntouched(cfg, s) && Canonical(h)
    requires step.Assign? ==> cfg.holder == None
    ensures Untouched(cfg, Next(cfg, s, step), h)
  {
    match step
    case Receive(raw, io) => ReceiveKeepsUntouched(cfg, s, raw, io, h);
    case Assign(call, hit, io) => AssignRefused(cfg, s, call, hit, io);
    case Unassign(serial, hit, io) =>
      if hit.Some? { RecordIsCanonical(cfg, s, hit.value); }
      NothingToRestore(cfg, s, serial, hit, io);
      StepKeepsLast(cfg, s, step, h);
    case Process(_) =>
      StepKeepsLast(cfg, s, step, h);
      FewerFilesUntouched(cfg, s, Next(cfg, s, step), h);
    case WorkerAttempt(_, _, _) =>
      StepKeepsLast(cfg, s, step, h);
      FewerFilesUntouched(cfg, s, Next(cfg, s, step), h);
    case ManualRetry(_, _, _) =>
      StepKeepsLast(cfg, s, step, h);
      FewerFilesUntouched(cfg, s, Next(cfg, s, step), h);
  }

  lemma {:induction false} RunsUntouched(cfg: Config, steps: seq<Step>, keys: iset<KeyId>)
    requires ValidConfig(cfg) && Legal(cfg, steps) && OnlyOwners(steps, keys) && (cfg.holder == None || keys == iset{})
    ensures AllUntouched(cfg, Run(cfg, steps))
  {
    if steps != [] {
      var n := |steps| - 1;
      var s := Run(cfg, steps[..n]);
      RunsUntouched(cfg, steps[..n], keys);
      Safety.RunsAreCoherent(cfg, steps[..n]);
      assert steps[n].Assign? ==> steps[n].call.key.id in keys;
      forall h | Canonical(h) ensures Untouched(cfg, Next(cfg, s, steps[n]), h) {
        StepKeepsUntouched(cfg, s, steps[n], h);
      }
    }
  }

  // ---------- the runs that put an older reception over a newer one ----------

  /** The same device's voucher with another manufacturer key. */
  function Newer(cfg: Config, g: Guid): Voucher
    requires cfg.holder.Some?
  {
    Voucher(g, cfg.holder.value + 1, [])
  }

  function NewerPem(cfg: Config, g: Guid): Bytes
    requires cfg.holder.Some?
  {
    AsPem(cfg.lib, cfg.lib.format(Newer(cfg, g)))
  }

  /** The voucher is assigned, with the first reception as its backup, and the newer one can come in. */
  ghost predicate Stale(cfg: Config, s: System, g: Guid, rec: Row, stat: bool)
    requires cfg.holder.Some?
  {
    var path, backup := FilePath(cfg.directory, Hex(g)), BackupPath(cfg.directory, Hex(g));
    && backup in s.world.files && s.world.files[backup] == Pem(cfg, g)
    && (stat ==> path !in s.world.files)
    && rec.guid == Hex(g) && rec.status == Assigned && Newest(s.world.rows, HasSerial("s"), Some(rec))
  }

  lemma NewerArrives(cfg: Config, s: System, g: Guid, rec: Row, stat: bool)
    requires ValidConfig(cfg) && cfg.holder.Some? && Stale(cfg, s, g, rec, stat)
    ensures
      var backup := BackupPath(cfg.directory, Hex(g));
      var s' := Next(cfg, s, ArrivalOf(cfg, Newer(cfg, g), stat));
      && s'.world.rows == s.world.rows && LastReceived(s'.log, Hex(g)) == Some(NewerPem(cfg, g))
      && backup in s'.world.files && s'.world.files[backup] == Pem(cfg, g)
  {
    HexIsCanonical(g);
    PathsDistinct(cfg.directory, Hex(g), Hex(g));
    LastOfSnoc(s.log, Received(Hex(g), NewerPem(cfg, g)), Hex(g));
  }

  lemma {:induction false} OldComesBack(cfg: Config, s: System, g: Guid, rec: Row)
    requires ValidConfig(cfg) && cfg.holder.Some? && LastReceived(s.log, Hex(g)) == Some(NewerPem(cfg, g))
    requires BackupPath(cfg.directory, Hex(g)) in s.world.files
    requires s.world.files[BackupPath(cfg.directory, Hex(g))] == Pem(cfg, g)
    requires rec.guid == Hex(g) && rec.status == Assigned
    ensures !FileFresh(cfg, Next(cfg, s, UnassignStepOk(rec)), Hex(g))
  {
    var s' := Next(cfg, s, UnassignStepOk(rec));
    HexIsCanonical(g);
    PathsDistinct(cfg.directory, Hex(g), Hex(g));
    StepKeepsLast(cfg, s, UnassignStepOk(rec), Hex(g));
    assert s'.world.files == Restored(s.world.files, cfg.directory, Hex(g), true);
    assert cfg.lib.parse(Pem(cfg, g)) != cfg.lib.parse(NewerPem(cfg, g));
  }

  /** From such a state, the newer reception and an unassignment lead to a file that is not fresh. */
  lemma StaleRestore(cfg: Config, before: seq<Step>, g: Guid, rec: Row, stat: bool, keys: iset<KeyId>, reliable: bool)
    returns (steps: seq<Step>)
    requires ValidConfig(cfg) && cfg.holder.Some? && Admissible(cfg, before, keys, reliable) && (reliable ==> stat)
    requires Stale(cfg, Run(cfg, before), g, rec, stat)
    ensures Admissible(cfg, steps, keys, reliable) && !FileFresh(cfg, Run(cfg, steps), Hex(g))
  {
    var a, b := ArrivalOf(cfg, Newer(cfg, g), stat), UnassignStepOk(rec);
    NewerArrives(cfg, Run(cfg, before), g, rec, stat);
    AdmissibleSnoc(cfg, before, a, keys, reliable);
    OldComesBack(cfg, Run(cfg, before + [a]), g, rec);
    AdmissibleSnoc(cfg, before + [a], b, keys, reliable);
    steps := before + [a] + [b];
  }

  /** Received, recorded, assigned: enough when Stat fails. */
  lemma StaleByStat(cfg: Config, g: Guid, k: KeyId, keys: iset<KeyId>) returns (steps: seq<Step>)
    requires ValidConfig(cfg) && cfg.holder.Some? && k in keys
    ensures Admissible(cfg, steps, keys, false) && !FileFresh(cfg, Run(cfg, steps), Hex(g))
  {
    var before := GivenRun(cfg, g, k, keys, false);
    steps := StaleRestore(cfg, before, g, Given(cfg, Unrouted(cfg, g), k), false, keys, false);
  }

  /** A pipeline run whose first push is delivered, with removal on: the record succeeded, and the file is gone. */
  function PushedInput(g: Guid): PipelineInput {
    Input(g, To(VoucherDestination("u", "", "", "")), 1).(first := Pushed(1))
  }

  lemma DeliveredAtOnce(cfg: Config, s: System, g: Guid)
    requires ValidConfig(cfg) && cfg.deleteAfterSuccess && s.world.rows == [] && WasReceived(s.log, Hex(g))
    ensures
      var s' := Next(cfg, s, Process(PushedInput(g)));
      && Enabled(s, Process(PushedInput(g))) && s'.log == s.log
      && FilePath(cfg.directory, Hex(g)) !in s'.world.files
      && |s'.world.rows| == 1 && Retriable(cfg, s'.world.rows[0], g)
  {
    HexIsCanonical(g);
  }

  /** A record of the voucher that a manual retry can deliver. */
  predicate Retriable(cfg: Config, r: Row, g: Guid) {
    r.guid == Hex(g) && r.filePath == FilePath(cfg.directory, Hex(g)) && Deliverable(r) && r.createdAt == 1
  }

  /** Received, recorded, delivered and removed. */
  lemma FirstDelivered(cfg: Config, g: Guid, keys: iset<KeyId>, reliable: bool) returns (steps: seq<Step>, first: Row)
    requires ValidConfig(cfg) && cfg.holder.Some? && cfg.deleteAfterSuccess
    ensures Admissible(cfg, steps, keys, reliable) && FilePath(cfg.directory, Hex(g)) !in Run(cfg, steps).world.files
    ensures Run(cfg, steps).world.rows == [first] && Retriable(cfg, first, g)
  {
    var before := FirstArrival(cfg, g, keys, reliable);
    DeliveredAtOnce(cfg, Run(cfg, before), g);
    AdmissibleSnoc(cfg, before, Process(PushedInput(g)), keys, reliable);
    steps := before + [Process(PushedInput(g))];
    first := Run(cfg, steps).world.rows[0];
  }

  lemma FirstArrival(cfg: Config, g: Guid, keys: iset<KeyId>, reliable: bool) returns (steps: seq<Step>)
    requires ValidConfig(cfg) && cfg.holder.Some?
    ensures Admissible(cfg, steps, keys, reliable)
    ensures Run(cfg, steps).world.rows == [] && WasReceived(Run(cfg, steps).log, Hex(g))
  {
    Arrives(cfg, START, g, true);
    AdmissibleSnoc(cfg, [], Arrival(cfg, g, true), keys, reliable);
    steps := [] + [Arrival(cfg, g, true)];
  }

  /** Then received again and recorded at the same instant. */
  lemma TwoRecords(cfg: Config, g: Guid, keys: iset<KeyId>, reliable: bool)
    returns (steps: seq<Step>, first: Row, rec: Row)
    requires ValidConfig(cfg) && cfg.holder.Some? && cfg.deleteAfterSuccess
    ensures Admissible(cfg, steps, keys, reliable) && OnDisk(cfg, Run(cfg, steps).world, g)
    ensures Run(cfg, steps).world.rows == [first] + [rec] && Retriable(cfg, first, g)
    ensures rec.guid == Hex(g) && rec.status == Pending && rec.serial == "s" && rec.createdAt == 1
  {
    var before: seq<Step>;
    before, first := FirstDelivered(cfg, g, keys, reliable);
    var a, b := Arrival(cfg, g, true), Process(Input(g, NoPush, 1));
    Arrives(cfg, Run(cfg, before), g, true);
    AdmissibleSnoc(cfg, before, a, keys, reliable);
    Recorded(cfg, Run(cfg, before + [a]), g, NoPush, 1);
    AdmissibleSnoc(cfg, before + [a], b, keys, reliable);
    steps := before + [a] + [b];
    rec := FreshRecord(cfg, Input(g, NoPush, 1), Run(cfg, before + [a]).world.nextId);
  }

  /** The second record is assigned, the first left alone. */
  lemma SecondAssigned(cfg: Config, g: Guid, k: KeyId, before: seq<Step>, first: Row, rec: Row, keys: iset<KeyId>,
                       reliable: bool) returns (steps: seq<Step>)
    requires ValidConfig(cfg) && cfg.holder.Some? && k in keys && Admissible(cfg, before, keys, reliable)
    requires OnDisk(cfg, Run(cfg, before).world, g)
    requires Run(cfg, before).world.rows == [first] + [rec] && Retriable(cfg, first, g)
    requires rec.guid == Hex(g) && rec.status == Pending && rec.serial == "s" && rec.createdAt == 1
    ensures Admissible(cfg, steps, keys, reliable)
    ensures Run(cfg, steps).world.rows == [first] + [Given(cfg, rec, k)] && first.id != rec.id
    ensures BackupPath(cfg.directory, Hex(g)) in Run(cfg, steps).world.files
    ensures Run(cfg, steps).world.files[BackupPath(cfg.directory, Hex(g))] == Pem(cfg, g)
  {
    Safety.RunsAreCoherent(cfg, before);
    assert ([first] + [rec])[0].id != ([first] + [rec])[1].id;
    assert Newest([first] + [rec], HasSerial("s"), Some(rec));
    AssignedOpenly(cfg, Run(cfg, before), g, rec, k);
    AdmissibleSnoc(cfg, before, AssignStepOk(rec, k), keys, reliable);
    steps := before + [AssignStepOk(rec, k)];
    var rows := Run(cfg, steps).world.rows;
    assert rows[0] == first && rows[1] == Given(cfg, rec, k) && rows == [rows[0]] + [rows[1]];
  }

  /** The retry of the first record rewrites its row only; both records stay equally new. */
  lemma RetryKeepsSecond(cfg: Config, rows: seq<Row>, g: Guid, first: Row, rec: Row)
    requires rows == [first] + [rec] && first.id != rec.id && Retriable(cfg, first, g)
    requires rec.guid == Hex(g) && rec.serial == "s" && rec.createdAt == 1
    ensures Newest(rows, HasGuid(Hex(g)), Some(first))
    ensures Newest(AttemptRows(cfg, rows, first, Pushed(1)), HasSerial("s"), Some(rec))
  {
    var rows' := AttemptRows(cfg, rows, first, Pushed(1));
    assert rows'[1] == rec && rows'[0].createdAt == 1;
    forall r | r in rows' ensures r.createdAt <= 1 {
      var i :| 0 <= i < |rows'| && rows'[i] == r;
    }
  }

  lemma RetryRemovesFile(cfg: Config, files: Files, g: Guid, first: Row)
    requires cfg.directory != "" && cfg.deleteAfterSuccess && Retriable(cfg, first, g)
    ensures
      var path, backup := FilePath(cfg.directory, Hex(g)), BackupPath(cfg.directory, Hex(g));
      AttemptFiles(cfg, files, first, Pushed(1)) == files - {path} && path != backup
  {
    HexIsCanonical(g);
    PathsDistinct(cfg.directory, Hex(g), Hex(g));
  }

  /** A manual retry of the first record delivers the extended file and removes it. */
  lemma RetryRemoves(cfg: Config, s: System, g: Guid, first: Row, rec: Row)
    requires cfg.directory != "" && cfg.holder.Some? && cfg.deleteAfterSuccess && s.world.rows == [first] + [rec]
    requires Retriable(cfg, first, g) && first.id != rec.id
    requires rec.guid == Hex(g) && rec.status == Assigned && rec.serial == "s" && rec.createdAt == 1
    requires BackupPath(cfg.directory, Hex(g)) in s.world.files
    requires s.world.files[BackupPath(cfg.directory, Hex(g))] == Pem(cfg, g)
    ensures
      var step := ManualRetry(Hex(g), Some(first), Pushed(1));
      Enabled(s, step) && Stale(cfg, Next(cfg, s, step), g, rec, true)
  {
    HexIsCanonical(g);
    RetryKeepsSecond(cfg, s.world.rows, g, first, rec);
    RetryRemovesFile(cfg, s.world.files, g, first);
  }

  /** With removal on, a delivery of one record removes the file of the other, which is assigned. */
  lemma StaleByRemoval(cfg: Config, g: Guid, k: KeyId, keys: iset<KeyId>, reliable: bool) returns (steps: seq<Step>)
    requires ValidConfig(cfg) && cfg.holder.Some? && k in keys && cfg.deleteAfterSuccess
    ensures Admissible(cfg, steps, keys, reliable) && !FileFresh(cfg, Run(cfg, steps), Hex(g))
  {
    var before, first, rec := TwoRecords(cfg, g, keys, reliable);
    var middle := SecondAssigned(cfg, g, k, before, first, rec, keys, reliable);
    var retry := ManualRetry(Hex(g), Some(first), Pushed(1));
    RetryRemoves(cfg, Run(cfg, middle), g, first, Given(cfg, rec, k));
    AdmissibleSnoc(cfg, middle, retry, keys, reliable);
    steps := StaleRestore(cfg, middle + [retry], g, Given(cfg, rec, k), true, keys, reliable);
  }

  // ---------- the theorem ----------

  lemma RunWithStaleFile(cfg: Config, keys: iset<KeyId>, reliable: bool, k: KeyId) returns (steps: seq<Step>, h: string)
    requires ValidConfig(cfg) && cfg.holder.Some? && k in keys && !ReentryExcluded(cfg, keys, reliable)
    ensures Admissible(cfg, steps, keys, reliable) && Canonical(h) && !FileFresh(cfg, Run(cfg, steps), h)
  {
    var g: Guid := *;
    HexIsCanonical(g);
    h := Hex(g);
    if cfg.holder.value in keys {
      steps := Safety.BadRun(cfg, g);
      Safety.BadRunTwice(cfg, g);
      Safety.BadRunUnsafe(cfg, g);
      Safety.BadRunNamesHolder(cfg, g, keys);
      BadRunIsReliable(cfg, g);
      if FileFresh(cfg, Run(cfg, steps), h) { FreshIsSafe(cfg, Run(cfg, steps), h); }
    } else if !reliable {
      steps := StaleByStat(cfg, g, k, keys);
    } else {
      steps := StaleByRemoval(cfg, g, k, keys, reliable);
    }
  }

  lemma ExcludedIsFresh(cfg: Config, keys: iset<KeyId>, reliable: bool, steps: seq<Step>, h: string)
    requires ValidConfig(cfg) && ReentryExcluded(cfg, keys, reliable)
    requires Admissible(cfg, steps, keys, reliable) && Canonical(h)
    ensures FileFresh(cfg, Run(cfg, steps), h)
  {
    if cfg.holder == None || keys == iset{} {
      RunsUntouched(cfg, steps, keys);
      assert Untouched(cfg, Run(cfg, steps), h);
    } else {
      OneReceptionIsFresh(cfg, keys, steps, h);
    }
  }

  lemma OneReceptionIsFresh(cfg: Config, keys: iset<KeyId>, steps: seq<Step>, h: string)
    requires ValidConfig(cfg) && HolderExcluded(cfg, keys) && !cfg.deleteAfterSuccess
    requires Admissible(cfg, steps, keys, true) && Canonical(h)
    ensures FileFresh(cfg, Run(cfg, steps), h)
  {
    Safety.RunsAreGuarded(cfg, steps, keys);
    RunsReceiveOnce(cfg, steps, h);
    assert Guarded(cfg, Run(cfg, steps), h);
    SafeIsFresh(cfg, Run(cfg, steps), h);
  }

  /** Every voucher file goes back to the latest reception, in every run, under exactly the same condition. */
  lemma FilesFreshIff(cfg: Config, keys: iset<KeyId>, reliable: bool)
    requires ValidConfig(cfg)
    ensures FilesAlwaysFresh(cfg, keys, reliable) <==> ReentryExcluded(cfg, keys, reliable)
  {
    if ReentryExcluded(cfg, keys, reliable) {
      forall steps, h | Admissible(cfg, steps, keys, reliable) && Canonical(h)
        ensures FileFresh(cfg, Run(cfg, steps), h)
      {
        ExcludedIsFresh(cfg, keys, reliable, steps, h);
      }
    } else {
      var k :| k in keys;
      var steps, h := RunWithStaleFile(cfg, keys, reliable, k);
    }
  }
}
