/** Exactly when the event between two "ok" answers for one voucher is a completed restore. */
module Reassignment {
  import opened Common
  import opened Vouchers
  import opened Records
  import opened FileStore
  import opened TransmissionStore
  import opened Settings
  import opened Assignment
  import opened Delivery
  import opened Intake
  import opened Runs
  import Retention
  import Safety

  /** A legal run with new owners from `keys`, and with Stat telling the truth if `reliable`. */
  ghost predicate Admissible(cfg: Config, steps: seq<Step>, keys: iset<KeyId>, reliable: bool) {
    Legal(cfg, steps) && OnlyOwners(steps, keys) && (reliable ==> Retention.StatReliable(steps))
  }

  ghost predicate AlwaysRestoredBetween(cfg: Config, keys: iset<KeyId>, reliable: bool) {
    forall steps :: Admissible(cfg, steps, keys, reliable) ==> Retention.RestoredBetween(Run(cfg, steps).log)
  }

  /** Nothing can be assigned, or an assigned voucher can neither be signed on nor be received again. */
  ghost predicate ReentryExcluded(cfg: Config, keys: iset<KeyId>, reliable: bool) {
    || cfg.holder == None || keys == iset{}
    || (cfg.holder.value !in keys && reliable && !cfg.deleteAfterSuccess)
  }

  lemma AdmissibleSnoc(cfg: Config, steps: seq<Step>, step: Step, keys: iset<KeyId>, reliable: bool)
    requires Admissible(cfg, steps, keys, reliable) && Enabled(Run(cfg, steps), step)
    requires step.Assign? ==> step.call.key.id in keys
    requires reliable && step.Receive? ==> step.rio.stat
    ensures Admissible(cfg, steps + [step], keys, reliable)
    ensures Run(cfg, steps + [step]) == Next(cfg, Run(cfg, steps), step)
  {
    RunSnoc(cfg, steps, step);
  }

  // ---------- the steps of the runs that assign twice without a restore ----------

  /** A voucher comes in and is saved without trouble, except that Stat may fail on a file that is there. */
  function ArrivalOf(cfg: Config, v: Voucher, stat: bool): Step {
    Receive(cfg.lib.format(v), ReceiveIo(NoPartnerStore, stat, true, true, true))
  }

  function Arrival(cfg: Config, g: Guid, stat: bool): Step
    requires cfg.holder.Some?
  {
    ArrivalOf(cfg, Safety.HeldVoucher(cfg, g), stat)
  }

  function Input(g: Guid, route: Route, now: Time): PipelineInput {
    PipelineInput(Hex(g), "s", "m", "", route, true, now,
                  Attempt(PushFailed(false, 0, "unreachable"), now, 0.0, false, false))
  }

  function Pushed(now: Time): Attempt { Attempt(Delivered, now, 0.0, true, true) }

  /** The voucher as received is on disk. */
  predicate OnDisk(cfg: Config, w: World, g: Guid)
    requires cfg.holder.Some?
  {
    FilePath(cfg.directory, Hex(g)) in w.files && w.files[FilePath(cfg.directory, Hex(g))] == Pem(cfg, g)
  }

  /** The history of two assignments with nothing but a reception between them. */
  predicate TwiceReceived(log: seq<Event>, h: string, b: Bytes) {
    log == [Received(h, b)] + [AssignedOk(h)] + [Received(h, b)] + [AssignedOk(h)]
  }

  lemma TwiceReceivedNotRestored(log: seq<Event>, h: string, b: Bytes)
    requires TwiceReceived(log, h, b)
    ensures !Retention.RestoredBetween(log)
  {
    assert log[1] == AssignedOk(h) && log[2] == Received(h, b) && log[3] == AssignedOk(h);
  }

  function Pem(cfg: Config, g: Guid): Bytes
    requires cfg.holder.Some?
  {
    AsPem(cfg.lib, cfg.lib.format(Safety.HeldVoucher(cfg, g)))
  }

  lemma Arrives(cfg: Config, s: System, g: Guid, stat: bool)
    requires ValidConfig(cfg) && cfg.holder.Some? && (stat ==> FilePath(cfg.directory, Hex(g)) !in s.world.files)
    ensures
      var s' := Next(cfg, s, Arrival(cfg, g, stat));
      && Enabled(s, Arrival(cfg, g, stat)) && OnDisk(cfg, s'.world, g)
      && s'.world.rows == s.world.rows && s'.log == s.log + [Received(Hex(g), Pem(cfg, g))]
      && WasReceived(s'.log, Hex(g))
  {
    var s' := Next(cfg, s, Arrival(cfg, g, stat));
    assert s'.log[|s.log|] == Received(Hex(g), Pem(cfg, g));
    assert Received(Hex(g), Pem(cfg, g)) in s'.log;
  }

  lemma Recorded(cfg: Config, s: System, g: Guid, route: Route, now: Time)
    requires WasReceived(s.log, Hex(g))
    ensures
      var p := Input(g, route, now);
      var s' := Next(cfg, s, Process(p));
      && Enabled(s, Process(p)) && s'.log == s.log && s'.world.files == s.world.files
      && s'.world.rows == s.world.rows + [FreshRecord(cfg, p, s.world.nextId)]
  {
  }

  lemma AssignedSilently(cfg: Config, s: System, g: Guid, rec: Row, k: KeyId)
    requires ValidConfig(cfg) && cfg.holder.Some? && OnDisk(cfg, s.world, g)
    requires rec.guid == Hex(g) && rec.status == Pending && Newest(s.world.rows, HasSerial("s"), Some(rec))
    ensures
      var s' := Next(cfg, s, Safety.SilentStep(rec, k));
      && Enabled(s, Safety.SilentStep(rec, k))
      && s'.world.rows == s.world.rows && s'.log == s.log + [AssignedOk(Hex(g))]
  {
    HexIsCanonical(g);
    Safety.SilentAssign(cfg, s, rec, Safety.HeldVoucher(cfg, g), k);
  }

  /** With removal on, delivering the only record takes the file away, extended or not. */
  lemma DeliveredAndRemoved(cfg: Config, s: System, rec: Row, now: Time)
    requires cfg.deleteAfterSuccess && s.world.rows == [rec] && Deliverable(rec)
    requires rec.status == Pending && rec.retryAfter == None
    ensures
      var s' := Next(cfg, s, WorkerAttempt(rec, now, Pushed(now)));
      && Enabled(s, WorkerAttempt(rec, now, Pushed(now))) && s'.log == s.log
      && rec.filePath !in s'.world.files
      && |s'.world.rows| == 1 && s'.world.rows[0].createdAt == rec.createdAt
  {
  }

  /** An assignment and an unassignment in which everything works. */
  function AssignStepOk(rec: Row, k: KeyId): Step {
    Assign(Safety.OwnerCall(k), Some(rec), Safety.ALL_OK)
  }

  function UnassignStepOk(rec: Row): Step {
    Unassign("s", Some(rec), UnassignIo(true, true, true, true, true, true, 0))
  }

  function Given(cfg: Config, rec: Row, k: KeyId): Row {
    AssignedRecord(cfg, Safety.OwnerCall(k), rec, 0)
  }

  lemma AssignedOpenly(cfg: Config, s: System, g: Guid, rec: Row, k: KeyId)
    requires ValidConfig(cfg) && cfg.holder.Some? && OnDisk(cfg, s.world, g)
    requires rec.guid == Hex(g) && rec.status == Pending && Newest(s.world.rows, HasSerial("s"), Some(rec))
    ensures
      var path, backup := FilePath(cfg.directory, Hex(g)), BackupPath(cfg.directory, Hex(g));
      var s' := Next(cfg, s, AssignStepOk(rec, k));
      && Enabled(s, AssignStepOk(rec, k)) && s'.log == s.log + [AssignedOk(Hex(g))]
      && backup in s'.world.files && s'.world.files[backup] == s.world.files[path]
      && s'.world.rows == UpdateRow(s.world.rows, rec.id, (r: Row) => Given(cfg, r, k))
  {
    HexIsCanonical(g);
    PathsDistinct(cfg.directory, Hex(g), Hex(g));
    Safety.OpenAssign(cfg, s, rec, Safety.HeldVoucher(cfg, g), k);
  }

  // ---------- a round trip in the default deployment ----------

  /** A record without a destination. */
  function Unrouted(cfg: Config, g: Guid): Row { FreshRecord(cfg, Input(g, NoPush, 1), 1) }

  lemma RecordedRun(cfg: Config, g: Guid, keys: iset<KeyId>, reliable: bool) returns (steps: seq<Step>)
    requires ValidConfig(cfg) && cfg.holder.Some?
    ensures steps == [Arrival(cfg, g, true), Process(Input(g, NoPush, 1))] && Admissible(cfg, steps, keys, reliable)
    ensures Run(cfg, steps).world.rows == [Unrouted(cfg, g)] && OnDisk(cfg, Run(cfg, steps).world, g)
  {
    var a, b := Arrival(cfg, g, true), Process(Input(g, NoPush, 1));
    Arrives(cfg, START, g, true);
    AdmissibleSnoc(cfg, [], a, keys, reliable);
    Recorded(cfg, Run(cfg, [] + [a]), g, NoPush, 1);
    AdmissibleSnoc(cfg, [] + [a], b, keys, reliable);
    steps := [] + [a] + [b];
  }

  /** Received, recorded without a destination and assigned, and nothing fails. */
  lemma GivenRun(cfg: Config, g: Guid, k: KeyId, keys: iset<KeyId>, reliable: bool) returns (steps: seq<Step>)
    requires ValidConfig(cfg) && cfg.holder.Some? && k in keys
    ensures steps == [Arrival(cfg, g, true), Process(Input(g, NoPush, 1))] + [AssignStepOk(Unrouted(cfg, g), k)]
    ensures Admissible(cfg, steps, keys, reliable)
    ensures
      var backup, w, rec := BackupPath(cfg.directory, Hex(g)), Run(cfg, steps).world, Given(cfg, Unrouted(cfg, g), k);
      && backup in w.files && w.files[backup] == Pem(cfg, g)
      && w.rows == [rec] && Newest(w.rows, HasSerial("s"), Some(rec))
  {
    var rec := Unrouted(cfg, g);
    var before := RecordedRun(cfg, g, keys, reliable);
    assert Newest([rec], HasSerial("s"), Some(rec));
    AssignedOpenly(cfg, Run(cfg, before), g, rec, k);
    AdmissibleSnoc(cfg, before, AssignStepOk(rec, k), keys, reliable);
    steps := before + [AssignStepOk(rec, k)];
    assert Run(cfg, steps).world.rows == [Given(cfg, rec, k)];
  }

  /** Then unassigned: the record was pending and now has no destination. */
  lemma RoundTripLosesStatus(cfg: Config, g: Guid, k: KeyId) returns (steps: seq<Step>)
    requires ValidConfig(cfg) && cfg.holder.Some?
    ensures steps == [Arrival(cfg, g, true), Process(Input(g, NoPush, 1))]
      + [AssignStepOk(Unrouted(cfg, g), k)] + [UnassignStepOk(Given(cfg, Unrouted(cfg, g), k))]
    ensures Legal(cfg, steps)
    ensures
      var before, after := Run(cfg, steps[..2]).world.rows, Run(cfg, steps).world.rows;
      |before| == |after| == 1 && before[0].status == Pending && after[0].status == NoDestination
  {
    var two := RecordedRun(cfg, g, iset{k}, false);
    var three := GivenRun(cfg, g, k, iset{k}, false);
    var last := UnassignStepOk(Given(cfg, Unrouted(cfg, g), k));
    AdmissibleSnoc(cfg, three, last, iset{k}, false);
    steps := three + [last];
    assert steps[..2] == two;
  }

  // ---------- the two runs ----------

  /** The first voucher comes in, is recorded and is assigned to `k`. */
  lemma FirstAssignment(cfg: Config, g: Guid, k: KeyId, route: Route, keys: iset<KeyId>, reliable: bool)
    returns (steps: seq<Step>, rec: Row)
    requires ValidConfig(cfg) && cfg.holder.Some? && k in keys
    ensures Admissible(cfg, steps, keys, reliable)
    ensures rec == FreshRecord(cfg, Input(g, route, 1), 1) && Run(cfg, steps).world.rows == [rec]
    ensures Run(cfg, steps).log == [Received(Hex(g), Pem(cfg, g))] + [AssignedOk(Hex(g))]
  {
    rec := FreshRecord(cfg, Input(g, route, 1), 1);
    var a, b, c := Arrival(cfg, g, true), Process(Input(g, route, 1)), Safety.SilentStep(rec, k);
    Arrives(cfg, START, g, true);
    AdmissibleSnoc(cfg, [], a, keys, reliable);
    Recorded(cfg, Run(cfg, [] + [a]), g, route, 1);
    AdmissibleSnoc(cfg, [] + [a], b, keys, reliable);
    assert Newest([rec], HasSerial("s"), Some(rec));
    AssignedSilently(cfg, Run(cfg, [] + [a] + [b]), g, rec, k);
    AdmissibleSnoc(cfg, [] + [a] + [b], c, keys, reliable);
    steps := [] + [a] + [b] + [c];
  }

  /** Stat fails on a file that is there, so the same voucher is received again and assigned again. */
  lemma StatFailureRun(cfg: Config, g: Guid, k: KeyId, keys: iset<KeyId>) returns (steps: seq<Step>)
    requires ValidConfig(cfg) && cfg.holder.Some? && k in keys
    ensures Admissible(cfg, steps, keys, false) && !Retention.RestoredBetween(Run(cfg, steps).log)
  {
    var before, rec := FirstAssignment(cfg, g, k, NoPush, keys, false);
    var a, b := Arrival(cfg, g, false), Safety.SilentStep(rec, k);
    Arrives(cfg, Run(cfg, before), g, false);
    AdmissibleSnoc(cfg, before, a, keys, false);
    assert Newest([rec], HasSerial("s"), Some(rec));
    AssignedSilently(cfg, Run(cfg, before + [a]), g, rec, k);
    AdmissibleSnoc(cfg, before + [a], b, keys, false);
    steps := before + [a] + [b];
    TwiceReceivedNotRestored(Run(cfg, steps).log, Hex(g), Pem(cfg, g));
  }

  /** The assigned voucher is delivered by a retry and its file removed, so it can be received anew. */
  lemma RemovedAndBack(cfg: Config, g: Guid, k: KeyId, keys: iset<KeyId>, reliable: bool)
    returns (steps: seq<Step>, delivered: Row)
    requires ValidConfig(cfg) && cfg.holder.Some? && k in keys && cfg.deleteAfterSuccess
    ensures Admissible(cfg, steps, keys, reliable)
    ensures Run(cfg, steps).world.rows == [delivered] && delivered.createdAt == 1
    ensures OnDisk(cfg, Run(cfg, steps).world, g) && WasReceived(Run(cfg, steps).log, Hex(g))
    ensures Run(cfg, steps).log ==
      [Received(Hex(g), Pem(cfg, g))] + [AssignedOk(Hex(g))] + [Received(Hex(g), Pem(cfg, g))]
  {
    HexIsCanonical(g);
    var before, rec := FirstAssignment(cfg, g, k, To(VoucherDestination("u", "", "", "")), keys, reliable);
    var a, b := WorkerAttempt(rec, 1, Pushed(1)), Arrival(cfg, g, true);
    DeliveredAndRemoved(cfg, Run(cfg, before), rec, 1);
    AdmissibleSnoc(cfg, before, a, keys, reliable);
    Arrives(cfg, Run(cfg, before + [a]), g, true);
    AdmissibleSnoc(cfg, before + [a], b, keys, reliable);
    steps := before + [a] + [b];
    delivered := Run(cfg, steps).world.rows[0];
  }

  lemma RemovalRun(cfg: Config, g: Guid, k: KeyId, keys: iset<KeyId>, reliable: bool) returns (steps: seq<Step>)
    requires ValidConfig(cfg) && cfg.holder.Some? && k in keys && cfg.deleteAfterSuccess
    ensures Admissible(cfg, steps, keys, reliable) && !Retention.RestoredBetween(Run(cfg, steps).log)
  {
    var before, delivered := RemovedAndBack(cfg, g, k, keys, reliable);
    var rec := FreshRecord(cfg, Input(g, NoPush, 2), Run(cfg, before).world.nextId);
    var a, b := Process(Input(g, NoPush, 2)), Safety.SilentStep(rec, k);
    Recorded(cfg, Run(cfg, before), g, NoPush, 2);
    AdmissibleSnoc(cfg, before, a, keys, reliable);
    assert Newest([delivered] + [rec], HasSerial("s"), Some(rec));
    AssignedSilently(cfg, Run(cfg, before + [a]), g, rec, k);
    AdmissibleSnoc(cfg, before + [a], b, keys, reliable);
    steps := before + [a] + [b];
    TwiceReceivedNotRestored(Run(cfg, steps).log, Hex(g), Pem(cfg, g));
  }

  // ---------- the theorem ----------

  /** Without a signing key, or without anyone to assign to, no assignment is ever answered "ok". */
  lemma {:induction false} NothingAssigned(cfg: Config, steps: seq<Step>, keys: iset<KeyId>)
    requires cfg.holder == None || keys == iset{}
    requires OnlyOwners(steps, keys)
    ensures forall h :: AssignedOk(h) !in Run(cfg, steps).log
  {
    if steps != [] {
      var n := |steps| - 1;
      assert OnlyOwners(steps[..n], keys);
      NothingAssigned(cfg, steps[..n], keys);
      assert steps[n].Assign? ==> steps[n].call.key.id in keys;
    }
  }

  lemma TwiceIsNotRestored(log: seq<Event>)
    requires !AtMostOnce(log)
    ensures !Retention.RestoredBetween(log)
  {
    if Retention.RestoredBetween(log) {
      forall i, j, h | 0 <= i < j < |log| && log[i] == AssignedOk(h) && log[j] == AssignedOk(h)
        ensures exists k :: i < k < j && Reopens(log[k], h)
      {
        var k :| i < k < j && log[k] == RestoredBackup(h);
        assert Reopens(log[k], h);
      }
    }
  }

  lemma BadRunIsReliable(cfg: Config, g: Guid)
    requires cfg.holder.Some?
    ensures Retention.StatReliable(Safety.BadRun(cfg, g))
  {
  }

  /** Each missing condition has a run that assigns twice without a restore. */
  lemma RunWithoutRestore(cfg: Config, keys: iset<KeyId>, reliable: bool, k: KeyId) returns (steps: seq<Step>)
    requires ValidConfig(cfg) && cfg.holder.Some? && k in keys
    requires cfg.holder.value in keys || !reliable || cfg.deleteAfterSuccess
    ensures Admissible(cfg, steps, keys, reliable) && !Retention.RestoredBetween(Run(cfg, steps).log)
  {
    var g: Guid := *;
    if cfg.holder.value in keys {
      steps := Safety.BadRun(cfg, g);
      Safety.BadRunTwice(cfg, g);
      Safety.BadRunNamesHolder(cfg, g, keys);
      BadRunIsReliable(cfg, g);
      TwiceIsNotRestored(Run(cfg, steps).log);
    } else if !reliable {
      steps := StatFailureRun(cfg, g, k, keys);
    } else {
      steps := RemovalRun(cfg, g, k, keys, reliable);
    }
  }

  /**
   * Between two "ok" answers for one voucher a restore of it completed, in every run, exactly when the holder is
   * never named as new owner, Stat is reliable and delivered files stay (or nothing can be assigned at all).
   */
  lemma RestoredBetweenIff(cfg: Config, keys: iset<KeyId>, reliable: bool)
    requires ValidConfig(cfg)
    ensures AlwaysRestoredBetween(cfg, keys, reliable) <==> ReentryExcluded(cfg, keys, reliable)
  {
    if cfg.holder == None || keys == iset{} {
      forall steps | Admissible(cfg, steps, keys, reliable) ensures Retention.RestoredBetween(Run(cfg, steps).log) {
        NothingAssigned(cfg, steps, keys);
        NoneNeedsRestore(Run(cfg, steps).log);
      }
    } else if cfg.holder.value !in keys && reliable && !cfg.deleteAfterSuccess {
      forall steps | Admissible(cfg, steps, keys, reliable) ensures Retention.RestoredBetween(Run(cfg, steps).log) {
        Retention.RestoreBetweenAssignments(cfg, steps, keys);
      }
    } else {
      var k :| k in keys;
      var steps := RunWithoutRestore(cfg, keys, reliable, k);
    }
  }

  lemma NoneNeedsRestore(log: seq<Event>)
    requires forall h :: AssignedOk(h) !in log
    ensures Retention.RestoredBetween(log)
  {
    assert forall i, h :: 0 <= i < |log| && log[i] == AssignedOk(h) ==> AssignedOk(h) in log;
  }
}
