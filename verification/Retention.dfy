/** When a received voucher file can be missing, and what reliable disks add to at-most-once assignment. */
module Retention {
  import opened Common
  import opened Vouchers
  import opened Records
  import opened FileStore
  import opened TransmissionStore
  import opened Settings
  import opened Assignment
  import opened Delivery
  import opened Intake
  import opened Runs
  import Safety

  ghost predicate DeliveredFrom(rows: seq<Row>, path: string) {
    exists r :: r in rows && r.filePath == path && r.deliveredAt.Some?
  }

  /** A received voucher is on disk unless removal is configured and its record was stored as delivered. */
  ghost predicate Kept(cfg: Config, s: System, h: string) {
    WasReceived(s.log, h) && FilePath(cfg.directory, h) !in s.world.files ==>
      cfg.deleteAfterSuccess && DeliveredFrom(s.world.rows, FilePath(cfg.directory, h))
  }

  lemma DeliveredAfterUpdate(rows: seq<Row>, id: nat, f: Row -> Row, path: string)
    requires forall r :: f(r).filePath == r.filePath && (r.deliveredAt.Some? ==> f(r).deliveredAt.Some?)
    requires DeliveredFrom(rows, path)
    ensures DeliveredFrom(UpdateRow(rows, id, f), path)
  {
    var i :| 0 <= i < |rows| && rows[i].filePath == path && rows[i].deliveredAt.Some?;
    assert UpdateRow(rows, id, f)[i] in UpdateRow(rows, id, f);
  }

  /** Removal happens only once the record says delivered. */
  lemma RemovedMeansDelivered(cfg: Config, w: World, rec: Row, a: Attempt, path: string)
    requires rec in w.rows
    requires path in w.files && path !in AttemptWorld(cfg, w, rec, a).files
    ensures cfg.deleteAfterSuccess && DeliveredFrom(AttemptWorld(cfg, w, rec, a).rows, path)
    ensures exists r :: r in AttemptWorld(cfg, w, rec, a).rows && r.filePath == path && r.status == Succeeded
  {
    var after := AttemptWorld(cfg, w, rec, a).rows;
    var i :| 0 <= i < |w.rows| && w.rows[i] == rec;
    assert after[i] == After(cfg, rec, a)(rec) && after[i] in after;
  }

  lemma KeptByAttempt(cfg: Config, s: System, rec: Row, a: Attempt, log: seq<Event>, h: string)
    requires rec in s.world.rows && Kept(cfg, s, h)
    requires WasReceived(log, h) ==> WasReceived(s.log, h)
    ensures Kept(cfg, System(AttemptWorld(cfg, s.world, rec, a), log), h)
  {
    var path := FilePath(cfg.directory, h);
    if WasReceived(log, h) && path !in AttemptWorld(cfg, s.world, rec, a).files {
      if path in s.world.files {
        RemovedMeansDelivered(cfg, s.world, rec, a, path);
      } else if Deliverable(rec) && a.mark {
        DeliveredAfterUpdate(s.world.rows, rec.id, After(cfg, rec, a), path);
      }
    }
  }

  lemma KeptByProcess(cfg: Config, s: System, p: PipelineInput, h: string)
    requires Kept(cfg, s, h)
    ensures Kept(cfg, Next(cfg, s, Process(p)), h)
  {
    if p.insert {
      var record := FreshRecord(cfg, p, s.world.nextId);
      var mid := System(s.world.(rows := s.world.rows + [record], nextId := s.world.nextId + 1), s.log);
      if DeliveredFrom(s.world.rows, FilePath(cfg.directory, h)) {
        var r :| r in s.world.rows && r.filePath == FilePath(cfg.directory, h) && r.deliveredAt.Some?;
        assert r in mid.world.rows;
      }
      if p.route.To? {
        KeptByAttempt(cfg, mid, record, p.first, s.log, h);
      }
    }
  }

  lemma KeptByReceive(cfg: Config, s: System, raw: Bytes, io: ReceiveIo, h: string)
    requires ValidConfig(cfg) && Kept(cfg, s, h) && Canonical(h)
    ensures Kept(cfg, Next(cfg, s, Receive(raw, io)), h)
  {
    if cfg.lib.parse(raw).Some? {
      var g := Hex(cfg.lib.parse(raw).value.guid);
      HexIsCanonical(cfg.lib.parse(raw).value.guid);
      PathsDistinct(cfg.directory, h, g);
      assert WasReceived(Next(cfg, s, Receive(raw, io)).log, h) ==> WasReceived(s.log, h) || h == g;
    }
  }

  lemma KeptByAssign(cfg: Config, s: System, call: AssignCall, hit: Option<Row>, io: AssignIo, h: string)
    requires Kept(cfg, s, h)
    ensures Kept(cfg, Next(cfg, s, Assign(call, hit, io)), h)
  {
    var s' := Next(cfg, s, Assign(call, hit, io));
    assert WasReceived(s'.log, h) ==> WasReceived(s.log, h);
    if s'.world.rows != s.world.rows && DeliveredFrom(s.world.rows, FilePath(cfg.directory, h)) {
      DeliveredAfterUpdate(s.world.rows, hit.value.id, (r: Row) =>
        MarkedAssigned(r, cfg.lib.fingerprint(call.key), call.did, call.caller.fingerprint, io.now),
        FilePath(cfg.directory, h));
    }
  }

  lemma KeptByUnassign(cfg: Config, s: System, serial: string, hit: Option<Row>, io: UnassignIo, h: string)
    requires ValidConfig(cfg) && Coherent(cfg, s) && Kept(cfg, s, h) && Canonical(h)
    requires SerialHit(s.world, serial, io.lookup, hit)
    ensures Kept(cfg, Next(cfg, s, Unassign(serial, hit, io)), h)
  {
    var s' := Next(cfg, s, Unassign(serial, hit, io));
    assert WasReceived(s'.log, h) ==> WasReceived(s.log, h);
    UnassignKeepsFile(cfg, s, hit, io, h);
    UnassignKeepsDelivered(cfg, s.world, hit, io, FilePath(cfg.directory, h));
  }

  /** The files: an unassignment removes no voucher file. */
  lemma UnassignKeepsFile(cfg: Config, s: System, hit: Option<Row>, io: UnassignIo, h: string)
    requires ValidConfig(cfg) && Coherent(cfg, s) && Canonical(h) && (hit.Some? ==> hit.value in s.world.rows)
    ensures
      var path := FilePath(cfg.directory, h);
      path in s.world.files ==> path in UnassignEffect(cfg, s.world, hit, io).files
  {
    if hit.Some? {
      RecordIsCanonical(cfg, s, hit.value);
      PathsDistinct(cfg.directory, h, hit.value.guid);
    }
  }

  /** The rows: an unassignment takes no delivery time away. */
  lemma UnassignKeepsDelivered(cfg: Config, w: World, hit: Option<Row>, io: UnassignIo, path: string)
    ensures DeliveredFrom(w.rows, path) ==> DeliveredFrom(UnassignEffect(cfg, w, hit, io).rows, path)
  {
    if UnassignVerdict(hit, io).Ok? && DeliveredFrom(w.rows, path) {
      DeliveredAfterUpdate(w.rows, hit.value.id,
        (r: Row) => MarkedUnassigned(r, RestoreStatus(hit.value), io.now), path);
    }
  }

  lemma StepKeepsKept(cfg: Config, s: System, step: Step, h: string)
    requires ValidConfig(cfg) && Coherent(cfg, s) && Enabled(s, step) && Kept(cfg, s, h) && Canonical(h)
    ensures Kept(cfg, Next(cfg, s, step), h)
  {
    match step
    case Receive(raw, io) => KeptByReceive(cfg, s, raw, io, h);
    case Process(p) => KeptByProcess(cfg, s, p, h);
    case Assign(call, hit, io) => KeptByAssign(cfg, s, call, hit, io, h);
    case Unassign(serial, hit, io) => KeptByUnassign(cfg, s, serial, hit, io, h);
    case WorkerAttempt(rec, _, a) => KeptByAttempt(cfg, s, rec, a, s.log, h);
    case ManualRetry(_, hit, a) =>
      if hit.Some? { KeptByAttempt(cfg, s, hit.value, a, s.log + [RetriedRow(hit.value.id)], h); }
  }

  /** Over all runs: a received voucher's file is missing only when removal is on and it was delivered. */
  lemma {:induction false} FilesLeaveOnlyAfterDelivery(cfg: Config, steps: seq<Step>, h: string)
    requires ValidConfig(cfg) && Legal(cfg, steps) && Canonical(h)
    ensures Kept(cfg, Run(cfg, steps), h)
  {
    if steps != [] {
      var n := |steps| - 1;
      FilesLeaveOnlyAfterDelivery(cfg, steps[..n], h);
      Safety.RunsAreCoherent(cfg, steps[..n]);
      StepKeepsKept(cfg, Run(cfg, steps[..n]), steps[n], h);
    }
  }

  // ---------- at most once between restores, when files stay and Stat tells the truth ----------

  predicate StatReliable(steps: seq<Step>) {
    forall i :: 0 <= i < |steps| && steps[i].Receive? ==> steps[i].rio.stat
  }

  /** Every assignment was of a received voucher, and no voucher is received after it was assigned. */
  ghost predicate ReceivedOnlyBefore(log: seq<Event>) {
    && (forall h :: AssignedOk(h) in log ==> WasReceived(log, h))
    && (forall i, k, h :: 0 <= i < k < |log| && log[i] == AssignedOk(h) && log[k].Received? ==> log[k].guid != h)
  }

  lemma ReceivedOnlyBeforeSnoc(log: seq<Event>, e: Event)
    requires ReceivedOnlyBefore(log)
    requires e.AssignedOk? ==> WasReceived(log, e.guid)
    requires e.Received? ==> !WasReceived(log, e.guid)
    ensures ReceivedOnlyBefore(log + [e])
  {
    var l := log + [e];
    forall h | AssignedOk(h) in l ensures WasReceived(l, h) {
      KeepsReceived(log, l, h);
    }
    forall i, k, h | 0 <= i < k < |l| && l[i] == AssignedOk(h) && l[k].Received? ensures l[k].guid != h {
      assert log[i] in log;
    }
  }

  lemma StepKeepsReceivedOnlyBefore(cfg: Config, s: System, step: Step)
    requires ValidConfig(cfg) && Coherent(cfg, s) && Enabled(s, step) && ReceivedOnlyBefore(s.log)
    requires !cfg.deleteAfterSuccess && (step.Receive? ==> step.rio.stat)
    requires forall h :: Canonical(h) ==> Kept(cfg, s, h)
    ensures ReceivedOnlyBefore(Next(cfg, s, step).log)
  {
    match step
    case Receive(raw, io) =>
      var receipt := ReceiveEffect(cfg, s.world.files, raw, io).1;
      if receipt.Accepted? {
        HexIsCanonical(cfg.lib.parse(raw).value.guid);
        assert Kept(cfg, s, receipt.guid);
        ReceivedOnlyBeforeSnoc(s.log, Received(receipt.guid, AsPem(cfg.lib, raw)));
      }
    case Process(_) =>
    case Assign(call, hit, io) =>
      if AssignEffect(cfg, s.world, call, hit, io).1.error == None {
        assert RowFits(cfg, s, hit.value);
        ReceivedOnlyBeforeSnoc(s.log, AssignedOk(hit.value.guid));
      }
    case Unassign(_, hit, io) =>
      if UnassignVerdict(hit, io).Ok? {
        var mid := s.log + [UnassignedRow(hit.value.id)];
        ReceivedOnlyBeforeSnoc(s.log, UnassignedRow(hit.value.id));
        ReceivedOnlyBeforeSnoc(mid, RestoredBackup(hit.value.guid));
        assert Next(cfg, s, step).log == mid || Next(cfg, s, step).log == mid + [RestoredBackup(hit.value.guid)];
      } else {
        assert s.log + [] == s.log;
      }
    case WorkerAttempt(_, _, _) =>
    case ManualRetry(_, hit, _) =>
      if hit.Some? { ReceivedOnlyBeforeSnoc(s.log, RetriedRow(hit.value.id)); }
  }

  lemma {:induction false} RunsReceiveOnlyBefore(cfg: Config, steps: seq<Step>)
    requires ValidConfig(cfg) && Legal(cfg, steps) && StatReliable(steps) && !cfg.deleteAfterSuccess
    ensures ReceivedOnlyBefore(Run(cfg, steps).log)
  {
    if steps != [] {
      var n := |steps| - 1;
      RunsReceiveOnlyBefore(cfg, steps[..n]);
      Safety.RunsAreCoherent(cfg, steps[..n]);
      forall h | Canonical(h) ensures Kept(cfg, Run(cfg, steps[..n]), h) {
        FilesLeaveOnlyAfterDelivery(cfg, steps[..n], h);
      }
      StepKeepsReceivedOnlyBefore(cfg, Run(cfg, steps[..n]), steps[n]);
    }
  }

  /** Between two "ok" answers for one voucher a restore of that voucher completed. */
  ghost predicate RestoredBetween(log: seq<Event>) {
    forall i, j, h :: 0 <= i < j < |log| && log[i] == AssignedOk(h) && log[j] == AssignedOk(h) ==>
      exists k :: i < k < j && log[k] == RestoredBackup(h)
  }

  lemma RestoredOrReceivedBefore(log: seq<Event>)
    requires AtMostOnce(log) && ReceivedOnlyBefore(log)
    ensures RestoredBetween(log)
  {
    forall i, j, h | 0 <= i < j < |log| && log[i] == AssignedOk(h) && log[j] == AssignedOk(h)
      ensures exists k :: i < k < j && log[k] == RestoredBackup(h)
    {
      var k :| i < k < j && Reopens(log[k], h);
      assert log[k] == RestoredBackup(h);
    }
  }

  lemma RestoreBetweenAssignments(cfg: Config, steps: seq<Step>, keys: iset<KeyId>)
    requires ValidConfig(cfg) && Legal(cfg, steps) && OnlyOwners(steps, keys) && HolderExcluded(cfg, keys)
    requires StatReliable(steps) && !cfg.deleteAfterSuccess
    ensures RestoredBetween(Run(cfg, steps).log)
  {
    Safety.RunsAreGuarded(cfg, steps, keys);
    RunsReceiveOnlyBefore(cfg, steps);
    RestoredOrReceivedBefore(Run(cfg, steps).log);
  }

  // ---------- the worker's batches and the API's serial loops are runs ----------

  function BatchAsSteps(batch: seq<Row>, now: Time, attempts: seq<Attempt>): seq<Step>
    requires |batch| <= |attempts|
  {
    seq(|batch|, i requires 0 <= i < |batch| => WorkerAttempt(batch[i], now, attempts[i]))
  }

  lemma BatchAsStepsSnoc(steps: seq<Step>, batch: seq<Row>, now: Time, attempts: seq<Attempt>)
    requires 0 < |batch| <= |attempts|
    ensures
      var n := |batch| - 1;
      steps + BatchAsSteps(batch[..n], now, attempts) + [WorkerAttempt(batch[n], now, attempts[n])]
        == steps + BatchAsSteps(batch, now, attempts)
  {
    var n := |batch| - 1;
    assert BatchAsSteps(batch, now, attempts)
      == BatchAsSteps(batch[..n], now, attempts) + [WorkerAttempt(batch[n], now, attempts[n])];
  }

  lemma AttemptAppended(cfg: Config, before: seq<Step>, rec: Row, now: Time, a: Attempt)
    requires Legal(cfg, before) && rec in Run(cfg, before).world.rows && IsDue(now)(rec)
    ensures Legal(cfg, before + [WorkerAttempt(rec, now, a)])
    ensures Run(cfg, before + [WorkerAttempt(rec, now, a)]) ==
      System(AttemptWorld(cfg, Run(cfg, before).world, rec, a), Run(cfg, before).log)
  {
    RunSnoc(cfg, before, WorkerAttempt(rec, now, a));
  }

  function BatchWorld(cfg: Config, w: World, batch: seq<Row>, attempts: seq<Attempt>): World
    requires |batch| <= |attempts|
  {
    w.(files := BatchFiles(cfg, w.files, batch, attempts), rows := BatchRows(cfg, w.rows, batch, attempts))
  }

  lemma BatchWorldSnoc(cfg: Config, w: World, batch: seq<Row>, attempts: seq<Attempt>)
    requires 0 < |batch| <= |attempts|
    ensures
      var n := |batch| - 1;
      BatchWorld(cfg, w, batch, attempts) ==
        AttemptWorld(cfg, BatchWorld(cfg, w, batch[..n], attempts), batch[n], attempts[n])
  {
  }

  /** A batch of the retry worker is a legal run of single attempts with the same outcome. */
  lemma {:induction false} BatchIsRun(cfg: Config, steps: seq<Step>, batch: seq<Row>, now: Time, attempts: seq<Attempt>)
    requires ValidConfig(cfg) && Legal(cfg, steps) && |batch| <= |attempts| && Distinct(batch)
    requires forall b :: b in batch ==> b in Run(cfg, steps).world.rows && IsDue(now)(b)
    ensures Legal(cfg, steps + BatchAsSteps(batch, now, attempts))
    ensures Run(cfg, steps + BatchAsSteps(batch, now, attempts)) ==
      System(BatchWorld(cfg, Run(cfg, steps).world, batch, attempts), Run(cfg, steps).log)
  {
    if batch == [] {
      assert steps + BatchAsSteps(batch, now, attempts) == steps;
    } else {
      var n := |batch| - 1;
      BatchIsRun(cfg, steps, batch[..n], now, attempts);
      Safety.RunsAreCoherent(cfg, steps);
      LastStillCurrent(cfg, Run(cfg, steps).world.rows, batch, attempts);
      BatchWorldSnoc(cfg, Run(cfg, steps).world, batch, attempts);
      BatchAsStepsSnoc(steps, batch, now, attempts);
      AttemptAppended(cfg, steps + BatchAsSteps(batch[..n], now, attempts), batch[n], now, attempts[n]);
    }
  }

  function CallsAsSteps(calls: seq<AssignCall>, hits: seq<Option<Row>>, ios: seq<AssignIo>): seq<Step>
    requires |calls| == |hits| == |ios|
  {
    seq(|calls|, i requires 0 <= i < |calls| => Assign(calls[i], hits[i], ios[i]))
  }

  /** One event per "ok" answer of a request, in the order of the answers. */
  function OkEvents(results: seq<AssignResult>): seq<Event> {
    if results == [] then []
    else
      var n := |results| - 1;
      OkEvents(results[..n]) + if results[n].error == None then [AssignedOk(results[n].voucherId)] else []
  }

  /** The world a request leaves, and the history with its "ok" answers. */
  ghost function AfterRequest(cfg: Config, s: System, calls: seq<AssignCall>, hits: seq<Option<Row>>,
                              ios: seq<AssignIo>): System
    requires |calls| == |hits| == |ios|
  {
    var (w, results) := BatchEffect(cfg, s.world, calls, hits, ios);
    System(w, s.log + OkEvents(results))
  }

  lemma AfterRequestSnoc(cfg: Config, s: System, calls: seq<AssignCall>, hits: seq<Option<Row>>, ios: seq<AssignIo>)
    requires 0 < |calls| == |hits| == |ios|
    ensures
      var n := |calls| - 1;
      AfterRequest(cfg, s, calls, hits, ios)
        == Next(cfg, AfterRequest(cfg, s, calls[..n], hits[..n], ios[..n]), Assign(calls[n], hits[n], ios[n]))
  {
    var n := |calls| - 1;
    var (mid, rs) := BatchEffect(cfg, s.world, calls[..n], hits[..n], ios[..n]);
    var r := AssignEffect(cfg, mid, calls[n], hits[n], ios[n]).1;
    assert BatchEffect(cfg, s.world, calls, hits, ios).1 == rs + [r];
    assert (rs + [r])[..|rs|] == rs;
    assert s.log + (OkEvents(rs) + [AssignedOk(r.voucherId)]) == s.log + OkEvents(rs) + [AssignedOk(r.voucherId)];
    assert s.log + (OkEvents(rs) + []) == s.log + OkEvents(rs);
  }

  /** An assign request with many serials, repeated ones included, is a legal run of single assignments. */
  lemma {:induction false} AssignRequestIsRun(cfg: Config, steps: seq<Step>, calls: seq<AssignCall>,
                                             hits: seq<Option<Row>>, ios: seq<AssignIo>)
    requires Legal(cfg, steps) && |calls| == |hits| == |ios|
    requires BatchHits(cfg, Run(cfg, steps).world, calls, hits, ios)
    ensures Legal(cfg, steps + CallsAsSteps(calls, hits, ios))
    ensures Run(cfg, steps + CallsAsSteps(calls, hits, ios)) == AfterRequest(cfg, Run(cfg, steps), calls, hits, ios)
  {
    if calls == [] {
      assert steps + CallsAsSteps(calls, hits, ios) == steps;
    } else {
      var n := |calls| - 1;
      HitsOfPrefix(cfg, Run(cfg, steps).world, calls, hits, ios);
      AssignRequestIsRun(cfg, steps, calls[..n], hits[..n], ios[..n]);
      AssignRequestSnoc(cfg, steps, calls, hits, ios);
    }
  }

  /** No voucher is answered "ok" twice. */
  ghost predicate OkOnce(results: seq<AssignResult>) {
    forall i, j :: 0 <= i < j < |results| && results[i].error == None && results[j].error == None ==>
      results[i].voucherId != results[j].voucherId
  }

  lemma {:induction false} OkIsLogged(results: seq<AssignResult>, i: nat)
    requires i < |results| && results[i].error == None
    ensures AssignedOk(results[i].voucherId) in OkEvents(results)
  {
    var n := |results| - 1;
    if i < n { OkIsLogged(results[..n], i); }
  }

  lemma {:induction false} OnlyOksLogged(results: seq<AssignResult>)
    ensures forall k :: 0 <= k < |OkEvents(results)| ==> OkEvents(results)[k].AssignedOk?
  {
    if results != [] { OnlyOksLogged(results[..|results| - 1]); }
  }

  /** Two "ok" answers for one voucher are two events of it. */
  lemma {:induction false} TwiceIsLoggedTwice(results: seq<AssignResult>, i: nat, j: nat) returns (a: nat, b: nat)
    requires i < j < |results| && results[i].error == None && results[j].error == None
    requires results[i].voucherId == results[j].voucherId
    ensures a < b < |OkEvents(results)|
    ensures OkEvents(results)[a] == OkEvents(results)[b] == AssignedOk(results[i].voucherId)
  {
    var n := |results| - 1;
    if j < n {
      a, b := TwiceIsLoggedTwice(results[..n], i, j);
    } else {
      OkIsLogged(results[..n], i);
      a :| 0 <= a < |OkEvents(results[..n])| && OkEvents(results[..n])[a] == AssignedOk(results[i].voucherId);
      b := |OkEvents(results[..n])|;
    }
  }

  lemma OksDiffer(log: seq<Event>, oks: seq<Event>, a: nat, b: nat)
    requires AtMostOnce(log + oks) && a < b < |oks| && forall k :: 0 <= k < |oks| ==> oks[k].AssignedOk?
    ensures oks[a] != oks[b]
  {
    var l, h := log + oks, oks[a].guid;
    assert l[|log| + a] == oks[a] && l[|log| + b] == oks[b];
    forall k | |log| + a < k < |log| + b ensures !Reopens(l[k], h) {
      assert l[k] == oks[k - |log|];
    }
  }

  lemma NothingReopens(log: seq<Event>, results: seq<AssignResult>)
    requires AtMostOnce(log + OkEvents(results))
    ensures OkOnce(results)
  {
    OnlyOksLogged(results);
    forall i, j | 0 <= i < j < |results| && results[i].error == None && results[j].error == None
      ensures results[i].voucherId != results[j].voucherId
    {
      if results[i].voucherId == results[j].voucherId {
        var a, b := TwiceIsLoggedTwice(results, i, j);
        OksDiffer(log, OkEvents(results), a, b);
      }
    }
  }

  ghost predicate RequestOwners(calls: seq<AssignCall>, keys: iset<KeyId>) {
    forall i :: 0 <= i < |calls| ==> calls[i].key.id in keys
  }

  lemma RequestNamesOwners(steps: seq<Step>, keys: iset<KeyId>, calls: seq<AssignCall>, hits: seq<Option<Row>>,
                           ios: seq<AssignIo>)
    requires OnlyOwners(steps, keys) && |calls| == |hits| == |ios| && RequestOwners(calls, keys)
    ensures OnlyOwners(steps + CallsAsSteps(calls, hits, ios), keys)
  {
    var more := CallsAsSteps(calls, hits, ios);
    forall i | 0 <= i < |steps + more| && (steps + more)[i].Assign? ensures (steps + more)[i].call.key.id in keys {
      assert i >= |steps| ==> (steps + more)[i] == more[i - |steps|];
    }
  }

  lemma RequestOkOnce(cfg: Config, s: System, after: seq<Step>, keys: iset<KeyId>, calls: seq<AssignCall>,
                      hits: seq<Option<Row>>, ios: seq<AssignIo>)
    requires ValidConfig(cfg) && Legal(cfg, after) && OnlyOwners(after, keys) && HolderExcluded(cfg, keys)
    requires |calls| == |hits| == |ios| && Run(cfg, after) == AfterRequest(cfg, s, calls, hits, ios)
    ensures OkOnce(BatchEffect(cfg, s.world, calls, hits, ios).1)
  {
    Safety.RunsAreGuarded(cfg, after, keys);
    NothingReopens(s.log, BatchEffect(cfg, s.world, calls, hits, ios).1);
  }

  /** One request never gets two "ok" answers for one voucher, however often its serial is repeated. */
  lemma OkOncePerRequest(cfg: Config, steps: seq<Step>, keys: iset<KeyId>, calls: seq<AssignCall>,
                         hits: seq<Option<Row>>, ios: seq<AssignIo>)
    requires ValidConfig(cfg) && Legal(cfg, steps) && OnlyOwners(steps, keys) && HolderExcluded(cfg, keys)
    requires |calls| == |hits| == |ios| && BatchHits(cfg, Run(cfg, steps).world, calls, hits, ios)
    requires RequestOwners(calls, keys)
    ensures OkOnce(BatchEffect(cfg, Run(cfg, steps).world, calls, hits, ios).1)
  {
    var after := steps + CallsAsSteps(calls, hits, ios);
    assert Legal(cfg, after) && Run(cfg, after) == AfterRequest(cfg, Run(cfg, steps), calls, hits, ios) by {
      AssignRequestIsRun(cfg, steps, calls, hits, ios);
    }
    assert OnlyOwners(after, keys) by {
      RequestNamesOwners(steps, keys, calls, hits, ios);
    }
    RequestOkOnce(cfg, Run(cfg, steps), after, keys, calls, hits, ios);
  }

  lemma CallsAsStepsSnoc(steps: seq<Step>, calls: seq<AssignCall>, hits: seq<Option<Row>>, ios: seq<AssignIo>)
    requires 0 < |calls| == |hits| == |ios|
    ensures
      var n := |calls| - 1;
      steps + CallsAsSteps(calls[..n], hits[..n], ios[..n]) + [Assign(calls[n], hits[n], ios[n])]
        == steps + CallsAsSteps(calls, hits, ios)
  {
    var n := |calls| - 1;
    assert CallsAsSteps(calls, hits, ios)
      == CallsAsSteps(calls[..n], hits[..n], ios[..n]) + [Assign(calls[n], hits[n], ios[n])];
  }

  lemma AssignRequestSnoc(cfg: Config, steps: seq<Step>, calls: seq<AssignCall>, hits: seq<Option<Row>>,
                          ios: seq<AssignIo>)
    requires 0 < |calls| == |hits| == |ios|
    requires
      var n := |calls| - 1;
      var before := steps + CallsAsSteps(calls[..n], hits[..n], ios[..n]);
      && Legal(cfg, before)
      && Run(cfg, before) == AfterRequest(cfg, Run(cfg, steps), calls[..n], hits[..n], ios[..n])
      && SerialHit(Run(cfg, before).world, calls[n].serial, ios[n].lookup, hits[n])
    ensures Legal(cfg, steps + CallsAsSteps(calls, hits, ios))
    ensures Run(cfg, steps + CallsAsSteps(calls, hits, ios)) == AfterRequest(cfg, Run(cfg, steps), calls, hits, ios)
  {
    var n := |calls| - 1;
    CallsAsStepsSnoc(steps, calls, hits, ios);
    AfterRequestSnoc(cfg, Run(cfg, steps), calls, hits, ios);
    RunSnoc(cfg, steps + CallsAsSteps(calls[..n], hits[..n], ios[..n]), Assign(calls[n], hits[n], ios[n]));
  }
}
