/** What no run can do to a voucher file, and exactly when. */
module Safety {
  import opened Common
  import opened Vouchers
  import opened Records
  import opened FileStore
  import opened TransmissionStore
  import opened Settings
  import opened Assignment
  import opened Delivery
  import opened Intake
  import opened Runs

  // ---------- each step keeps every voucher guarded ----------

  ghost predicate AllGuarded(cfg: Config, s: System) {
    forall h :: Canonical(h) ==> Guarded(cfg, s, h)
  }

  predicate SameAt(files: Files, files': Files, p: string) {
    (p in files <==> p in files') && (p in files ==> files[p] == files'[p])
  }

  ghost predicate TouchesOnly(cfg: Config, files: Files, files': Files, g: string) {
    forall p :: p != FilePath(cfg.directory, g) && p != BackupPath(cfg.directory, g) ==> SameAt(files, files', p)
  }

  /** A step that leaves the files of `h` alone, and logs no assignment of `h`, keeps it guarded. */
  lemma GuardedFrame(cfg: Config, s: System, s': System, h: string)
    requires Guarded(cfg, s, h)
    requires SameAt(s.world.files, s'.world.files, FilePath(cfg.directory, h))
    requires SameAt(s.world.files, s'.world.files, BackupPath(cfg.directory, h))
    requires s.log <= s'.log && (Open(s'.log, h) ==> Open(s.log, h))
    ensures Guarded(cfg, s', h)
  {
    assert forall e :: e in s.log ==> e in s'.log;
  }

  /** A step that writes only the voucher file and backup of `g` keeps every other voucher guarded. */
  lemma GuardedElsewhere(cfg: Config, s: System, s': System, g: string, h: string)
    requires cfg.directory != "" && Canonical(g) && Canonical(h) && g != h && Guarded(cfg, s, h)
    requires TouchesOnly(cfg, s.world.files, s'.world.files, g)
    requires s.log <= s'.log && (Open(s'.log, h) ==> Open(s.log, h))
    ensures Guarded(cfg, s', h)
  {
    PathsDistinct(cfg.directory, g, h);
    PathsDistinct(cfg.directory, h, g);
    GuardedFrame(cfg, s, s', h);
  }

  /** Taking a voucher file away, with no new event, keeps it guarded. */
  lemma GuardedWithoutFile(cfg: Config, s: System, s': System, g: string, h: string)
    requires cfg.directory != "" && Canonical(g) && Canonical(h) && Guarded(cfg, s, h)
    requires s'.world.files == s.world.files || s'.world.files == s.world.files - {FilePath(cfg.directory, g)}
    requires s.log <= s'.log && (Open(s'.log, h) ==> Open(s.log, h))
    ensures Guarded(cfg, s', h)
  {
    PathsDistinct(cfg.directory, g, h);
    PathsDistinct(cfg.directory, h, g);
    assert forall e :: e in s.log ==> e in s'.log;
  }

  lemma ReceiveKeepsGuarded(cfg: Config, s: System, raw: Bytes, io: ReceiveIo, h: string)
    requires ValidConfig(cfg) && Canonical(h) && Guarded(cfg, s, h)
    ensures Guarded(cfg, Next(cfg, s, Receive(raw, io)), h)
  {
    var s' := Next(cfg, s, Receive(raw, io));
    var (files, receipt) := ReceiveEffect(cfg, s.world.files, raw, io);
    if cfg.lib.parse(raw).Some? {
      var g := Hex(cfg.lib.parse(raw).value.guid);
      HexIsCanonical(cfg.lib.parse(raw).value.guid);
      PathsDistinct(cfg.directory, h, g);
      PathsDistinct(cfg.directory, g, h);
      if receipt.Accepted? {
        OpenSnoc(s.log, Received(g, AsPem(cfg.lib, raw)), h);
        if g == h {
          assert s'.log[|s.log|] == Received(h, AsPem(cfg.lib, raw));
        } else {
          GuardedFrame(cfg, s, s', h);
        }
      } else {
        GuardedFrame(cfg, s, s', h);
      }
    }
  }

  lemma ProcessKeepsGuarded(cfg: Config, s: System, p: PipelineInput, h: string)
    requires ValidConfig(cfg) && Coherent(cfg, s) && WasReceived(s.log, p.guid) && Canonical(h) && Guarded(cfg, s, h)
    ensures Guarded(cfg, Next(cfg, s, Process(p)), h)
  {
    ReceivedGuidIsCanonical(cfg, s, p.guid);
    GuardedWithoutFile(cfg, s, Next(cfg, s, Process(p)), p.guid, h);
  }

  lemma AttemptKeepsGuarded(cfg: Config, s: System, rec: Row, a: Attempt, log: seq<Event>, h: string)
    requires ValidConfig(cfg) && Coherent(cfg, s) && rec in s.world.rows && Canonical(h) && Guarded(cfg, s, h)
    requires s.log <= log && (Open(log, h) ==> Open(s.log, h))
    ensures Guarded(cfg, System(AttemptWorld(cfg, s.world, rec, a), log), h)
  {
    RecordIsCanonical(cfg, s, rec);
    GuardedWithoutFile(cfg, s, System(AttemptWorld(cfg, s.world, rec, a), log), rec.guid, h);
  }

  /** An assignment that passes its checks works on received bytes: an extended file is not the holder's to sign. */
  lemma AssignWorksOnReceived(cfg: Config, s: System, call: AssignCall, rec: Row, io: AssignIo)
    requires ValidConfig(cfg) && Coherent(cfg, s) && rec in s.world.rows && Guarded(cfg, s, rec.guid)
    requires Decide(cfg, s.world, call, rec, io).Ok?
    ensures
      var path := FilePath(cfg.directory, rec.guid);
      && Canonical(rec.guid)
      && TipIsHolder(cfg, s.world.files, path)
      && Received(rec.guid, s.world.files[path]) in s.log
      && Hex(cfg.lib.parse(s.world.files[path]).value.guid) == rec.guid
      && !Open(s.log, rec.guid)
  {
    RecordIsCanonical(cfg, s, rec);
  }

  /** The three ways an assignment that passed its checks can end. */
  lemma AssignTouches(cfg: Config, s: System, call: AssignCall, rec: Row, io: AssignIo)
    requires Decide(cfg, s.world, call, rec, io).Ok?
    requires Hex(Decide(cfg, s.world, call, rec, io).value.guid) == rec.guid
    ensures
      var ext := Decide(cfg, s.world, call, rec, io).value;
      var path, backup := FilePath(cfg.directory, rec.guid), BackupPath(cfg.directory, rec.guid);
      var s' := Next(cfg, s, Assign(call, Some(rec), io));
      && path in s.world.files
      && (|| (s'.world.files == s.world.files && s'.log == s.log)
          || (s'.world.files == s.world.files[backup := s.world.files[path]] && s'.log == s.log)
          || (&& s'.world.files == s.world.files[backup := s.world.files[path]][path := cfg.lib.format(ext)]
              && s'.log == s.log + [AssignedOk(rec.guid)]))
  {
  }

  lemma AssignTouchesOnly(cfg: Config, s: System, call: AssignCall, rec: Row, io: AssignIo, h: string)
    requires Decide(cfg, s.world, call, rec, io).Ok?
    requires Hex(Decide(cfg, s.world, call, rec, io).value.guid) == rec.guid
    ensures
      var s' := Next(cfg, s, Assign(call, Some(rec), io));
      && TouchesOnly(cfg, s.world.files, s'.world.files, rec.guid)
      && s.log <= s'.log && (h != rec.guid && Open(s'.log, h) ==> Open(s.log, h))
  {
    AssignTouches(cfg, s, call, rec, io);
    OpenSnoc(s.log, AssignedOk(rec.guid), h);
  }

  lemma AssignElsewhere(cfg: Config, s: System, call: AssignCall, rec: Row, io: AssignIo, h: string)
    requires cfg.directory != "" && Decide(cfg, s.world, call, rec, io).Ok?
    requires Hex(Decide(cfg, s.world, call, rec, io).value.guid) == rec.guid && Canonical(rec.guid)
    requires Canonical(h) && h != rec.guid && Guarded(cfg, s, h)
    ensures Guarded(cfg, Next(cfg, s, Assign(call, Some(rec), io)), h)
  {
    AssignTouchesOnly(cfg, s, call, rec, io, h);
    GuardedElsewhere(cfg, s, Next(cfg, s, Assign(call, Some(rec), io)), rec.guid, h);
  }

  /** The extended voucher is saved under the record's own GUID. */
  lemma SavedUnderRecordGuid(cfg: Config, s: System, call: AssignCall, rec: Row, io: AssignIo)
    requires ValidConfig(cfg) && Coherent(cfg, s) && rec in s.world.rows && Guarded(cfg, s, rec.guid)
    requires Decide(cfg, s.world, call, rec, io).Ok?
    ensures Hex(Decide(cfg, s.world, call, rec, io).value.guid) == rec.guid
  {
    AssignWorksOnReceived(cfg, s, call, rec, io);
  }

  lemma RefusedAssignIsNoStep(cfg: Config, s: System, call: AssignCall, hit: Option<Row>, io: AssignIo)
    requires hit == None || Decide(cfg, s.world, call, hit.value, io).Err?
    ensures Next(cfg, s, Assign(call, hit, io)) == s
  {
  }

  lemma AssignHitKeepsGuarded(cfg: Config, s: System, call: AssignCall, rec: Row, io: AssignIo, h: string)
    requires ValidConfig(cfg) && Coherent(cfg, s) && Canonical(h) && AllGuarded(cfg, s)
    requires rec in s.world.rows && cfg.holder != Some(call.key.id)
    requires Decide(cfg, s.world, call, rec, io).Ok?
    ensures Guarded(cfg, Next(cfg, s, Assign(call, Some(rec), io)), h)
  {
    RecordIsCanonical(cfg, s, rec);
    if rec.guid == h {
      AssignHere(cfg, s, call, rec, io);
    } else {
      SavedUnderRecordGuid(cfg, s, call, rec, io);
      AssignElsewhere(cfg, s, call, rec, io, h);
    }
  }

  lemma AssignKeepsGuarded(cfg: Config, s: System, call: AssignCall, hit: Option<Row>, io: AssignIo, h: string)
    requires ValidConfig(cfg) && Coherent(cfg, s) && Canonical(h) && AllGuarded(cfg, s)
    requires SerialHit(s.world, call.serial, io.lookup, hit)
    requires cfg.holder != Some(call.key.id)
    ensures Guarded(cfg, Next(cfg, s, Assign(call, hit, io)), h)
  {
    if hit.Some? && Decide(cfg, s.world, call, hit.value, io).Ok? {
      AssignHitKeepsGuarded(cfg, s, call, hit.value, io, h);
    } else {
      RefusedAssignIsNoStep(cfg, s, call, hit, io);
    }
  }

  lemma AssignHere(cfg: Config, s: System, call: AssignCall, rec: Row, io: AssignIo)
    requires ValidConfig(cfg) && Coherent(cfg, s) && rec in s.world.rows && Guarded(cfg, s, rec.guid)
    requires Decide(cfg, s.world, call, rec, io).Ok?
    requires cfg.holder != Some(call.key.id)
    ensures Guarded(cfg, Next(cfg, s, Assign(call, Some(rec), io)), rec.guid)
  {
    var s' := Next(cfg, s, Assign(call, Some(rec), io));
    var g := rec.guid;
    var path, backup := FilePath(cfg.directory, g), BackupPath(cfg.directory, g);
    AssignWorksOnReceived(cfg, s, call, rec, io);
    PathsDistinct(cfg.directory, g, g);
    OpenSnoc(s.log, AssignedOk(g), g);
    AssignTouches(cfg, s, call, rec, io);
    var before := s.world.files[path];
    var ext := Decide(cfg, s.world, call, rec, io).value;
    ExtendMeansOneMore(cfg.lib.parse(before).value, cfg.holder.value, call.key.id, io.signature);
    assert Extended(cfg.lib, before, cfg.lib.format(ext));
    assert forall e :: e in s.log ==> e in s'.log;
  }

  /** What an unassignment of `g` can do to the files, and to whether `h` counts as open. */
  ghost predicate UnassignLeaves(cfg: Config, s: System, s': System, g: string, h: string) {
    var path, backup := FilePath(cfg.directory, g), BackupPath(cfg.directory, g);
    && s.log <= s'.log
    && (|| (s'.world.files == s.world.files && Open(s'.log, h) == Open(s.log, h))
        || (&& backup in s.world.files
            && Open(s'.log, h) == (h != g && Open(s.log, h))
            && (|| s'.world.files == s.world.files[path := s.world.files[backup]]
                || s'.world.files == s.world.files[path := s.world.files[backup]] - {backup})))
  }

  lemma UnassignTouches(cfg: Config, s: System, serial: string, rec: Row, io: UnassignIo, h: string)
    requires UnassignVerdict(Some(rec), io).Ok?
    ensures UnassignLeaves(cfg, s, Next(cfg, s, Unassign(serial, Some(rec), io)), rec.guid, h)
  {
    var s' := Next(cfg, s, Unassign(serial, Some(rec), io));
    var mid := s.log + [UnassignedRow(rec.id)];
    OpenSnoc(s.log, UnassignedRow(rec.id), h);
    OpenSnoc(mid, RestoredBackup(rec.guid), h);
    assert s'.log == mid || s'.log == mid + [RestoredBackup(rec.guid)];
  }

  /** A restore puts received bytes back. */
  lemma GuardedAfterRestore(cfg: Config, s: System, s': System, g: string)
    requires cfg.directory != "" && Canonical(g) && Guarded(cfg, s, g)
    requires s.log <= s'.log && !Open(s'.log, g)
    requires
      var path, backup := FilePath(cfg.directory, g), BackupPath(cfg.directory, g);
      && backup in s.world.files
      && (|| s'.world.files == s.world.files[path := s.world.files[backup]]
          || s'.world.files == s.world.files[path := s.world.files[backup]] - {backup})
    ensures Guarded(cfg, s', g)
  {
    PathsDistinct(cfg.directory, g, g);
    assert forall e :: e in s.log ==> e in s'.log;
  }

  /** What UnassignTouches leaves of a step is enough to keep every voucher guarded. */
  lemma GuardedAfterUnassign(cfg: Config, s: System, s': System, g: string, h: string)
    requires cfg.directory != "" && Canonical(g) && Canonical(h) && Guarded(cfg, s, h)
    requires UnassignLeaves(cfg, s, s', g, h)
    ensures Guarded(cfg, s', h)
  {
    if s'.world.files == s.world.files && Open(s'.log, h) == Open(s.log, h) {
      GuardedFrame(cfg, s, s', h);
    } else if g == h {
      GuardedAfterRestore(cfg, s, s', g);
    } else {
      GuardedElsewhere(cfg, s, s', g, h);
    }
  }

  lemma RefusedUnassignIsNoStep(cfg: Config, s: System, serial: string, hit: Option<Row>, io: UnassignIo)
    requires UnassignVerdict(hit, io).Err?
    ensures Next(cfg, s, Unassign(serial, hit, io)) == s
  {
    assert s.log + [] == s.log;
  }

  lemma UnassignHitKeepsGuarded(cfg: Config, s: System, serial: string, rec: Row, io: UnassignIo, h: string)
    requires cfg.directory != "" && Canonical(rec.guid) && Canonical(h) && Guarded(cfg, s, h)
    requires UnassignVerdict(Some(rec), io).Ok?
    ensures Guarded(cfg, Next(cfg, s, Unassign(serial, Some(rec), io)), h)
  {
    UnassignTouches(cfg, s, serial, rec, io, h);
    GuardedAfterUnassign(cfg, s, Next(cfg, s, Unassign(serial, Some(rec), io)), rec.guid, h);
  }

  lemma UnassignKeepsGuarded(cfg: Config, s: System, serial: string, hit: Option<Row>, io: UnassignIo, h: string)
    requires ValidConfig(cfg) && Coherent(cfg, s) && Canonical(h) && Guarded(cfg, s, h)
    requires SerialHit(s.world, serial, io.lookup, hit)
    ensures Guarded(cfg, Next(cfg, s, Unassign(serial, hit, io)), h)
  {
    if UnassignVerdict(hit, io).Ok? {
      RecordIsCanonical(cfg, s, hit.value);
      UnassignHitKeepsGuarded(cfg, s, serial, hit.value, io, h);
    } else {
      RefusedUnassignIsNoStep(cfg, s, serial, hit, io);
    }
  }

  lemma StepKeepsGuarded(cfg: Config, s: System, step: Step, h: string)
    requires ValidConfig(cfg) && Coherent(cfg, s) && AllGuarded(cfg, s) && Enabled(s, step) && Canonical(h)
    requires step.Assign? ==> cfg.holder != Some(step.call.key.id)
    ensures Guarded(cfg, Next(cfg, s, step), h)
  {
    match step
    case Receive(raw, io) => ReceiveKeepsGuarded(cfg, s, raw, io, h);
    case Process(p) => ProcessKeepsGuarded(cfg, s, p, h);
    case Assign(call, hit, io) => AssignKeepsGuarded(cfg, s, call, hit, io, h);
    case Unassign(serial, hit, io) => UnassignKeepsGuarded(cfg, s, serial, hit, io, h);
    case WorkerAttempt(rec, _, a) => AttemptKeepsGuarded(cfg, s, rec, a, s.log, h);
    case ManualRetry(_, hit, a) =>
      if hit.Some? {
        OpenSnoc(s.log, RetriedRow(hit.value.id), h);
        AttemptKeepsGuarded(cfg, s, hit.value, a, s.log + [RetriedRow(hit.value.id)], h);
      }
  }

  /** The heart of at-most-once: "ok" is only answered for a voucher with no assignment outstanding. */
  lemma OkMeansNotOpen(cfg: Config, s: System, call: AssignCall, hit: Option<Row>, io: AssignIo)
    requires ValidConfig(cfg) && Coherent(cfg, s) && AllGuarded(cfg, s)
    requires SerialHit(s.world, call.serial, io.lookup, hit)
    requires AssignEffect(cfg, s.world, call, hit, io).1.error == None
    ensures AssignEffect(cfg, s.world, call, hit, io).1.voucherId == hit.value.guid
    ensures !Open(s.log, hit.value.guid)
  {
    var rec := hit.value;
    RecordIsCanonical(cfg, s, rec);
    AssignWorksOnReceived(cfg, s, call, rec, io);
  }

  lemma UnassignKeepsAtMostOnce(cfg: Config, s: System, serial: string, hit: Option<Row>, io: UnassignIo)
    requires AtMostOnce(s.log)
    ensures AtMostOnce(Next(cfg, s, Unassign(serial, hit, io)).log)
  {
    var log := Next(cfg, s, Unassign(serial, hit, io)).log;
    if UnassignVerdict(hit, io).Ok? {
      var mid := s.log + [UnassignedRow(hit.value.id)];
      AtMostOnceSnoc(s.log, UnassignedRow(hit.value.id));
      AtMostOnceSnoc(mid, RestoredBackup(hit.value.guid));
      assert log == mid || log == mid + [RestoredBackup(hit.value.guid)];
    } else {
      assert log == s.log;
    }
  }

  lemma StepKeepsAtMostOnce(cfg: Config, s: System, step: Step)
    requires ValidConfig(cfg) && Coherent(cfg, s) && AllGuarded(cfg, s) && Enabled(s, step) && AtMostOnce(s.log)
    ensures AtMostOnce(Next(cfg, s, step).log)
  {
    match step
    case Receive(raw, io) =>
      var receipt := ReceiveEffect(cfg, s.world.files, raw, io).1;
      if receipt.Accepted? { AtMostOnceSnoc(s.log, Received(receipt.guid, AsPem(cfg.lib, raw))); }
    case Process(_) =>
    case Assign(call, hit, io) =>
      if AssignEffect(cfg, s.world, call, hit, io).1.error == None {
        OkMeansNotOpen(cfg, s, call, hit, io);
        AtMostOnceSnoc(s.log, AssignedOk(hit.value.guid));
      }
    case Unassign(serial, hit, io) => UnassignKeepsAtMostOnce(cfg, s, serial, hit, io);
    case WorkerAttempt(_, _, _) =>
    case ManualRetry(_, hit, _) =>
      if hit.Some? { AtMostOnceSnoc(s.log, RetriedRow(hit.value.id)); }
  }

  // ---------- whole runs ----------

  lemma {:induction false} RunsAreCoherent(cfg: Config, steps: seq<Step>)
    requires ValidConfig(cfg) && Legal(cfg, steps)
    ensures Coherent(cfg, Run(cfg, steps))
  {
    if steps != [] {
      var n := |steps| - 1;
      RunsAreCoherent(cfg, steps[..n]);
      StepKeepsCoherent(cfg, Run(cfg, steps[..n]), steps[n]);
    }
  }

  lemma {:induction false} RunsAreGuarded(cfg: Config, steps: seq<Step>, keys: iset<KeyId>)
    requires ValidConfig(cfg) && Legal(cfg, steps) && OnlyOwners(steps, keys) && HolderExcluded(cfg, keys)
    ensures AllGuarded(cfg, Run(cfg, steps)) && AtMostOnce(Run(cfg, steps).log)
  {
    if steps != [] {
      var n := |steps| - 1;
      var s := Run(cfg, steps[..n]);
      RunsAreGuarded(cfg, steps[..n], keys);
      RunsAreCoherent(cfg, steps[..n]);
      forall h | Canonical(h) ensures Guarded(cfg, Next(cfg, s, steps[n]), h) {
        StepKeepsGuarded(cfg, s, steps[n], h);
      }
      StepKeepsAtMostOnce(cfg, s, steps[n]);
    }
  }

  ghost predicate FilesAlwaysSafe(cfg: Config, keys: iset<KeyId>) {
    forall steps, h :: Legal(cfg, steps) && OnlyOwners(steps, keys) && Canonical(h) ==>
      FileSafe(cfg, Run(cfg, steps), h)
  }

  ghost predicate AlwaysAtMostOnce(cfg: Config, keys: iset<KeyId>) {
    forall steps :: Legal(cfg, steps) && OnlyOwners(steps, keys) ==> AtMostOnce(Run(cfg, steps).log)
  }

  // ---------- the run that breaks both when the holder may be named as new owner ----------

  const ALL_OK: AssignIo := AssignIo(true, true, true, true, true, true, true, true, true, true, 0, 0)

  function HeldVoucher(cfg: Config, g: Guid): Voucher
    requires cfg.holder.Some?
  {
    Voucher(g, cfg.holder.value, [])
  }

  /** The operator names the owner of key `k`. */
  function OwnerCall(k: KeyId): AssignCall {
    AssignCall(Cli, "s", PublicKey(Ecdsa, k), "", Caller("operator", BearerToken))
  }

  /** An assignment in which everything works except the update of the record's status. */
  function SilentStep(rec: Row, k: KeyId): Step {
    Assign(OwnerCall(k), Some(rec), ALL_OK.(mark := false))
  }

  function NewInput(g: Guid): PipelineInput {
    PipelineInput(Hex(g), "s", "m", "", NoPush, true, 0, Attempt(Delivered, 0, 0.0, true, true))
  }

  /** Receive, record, then twice assign to the holder itself while the status update fails. */
  ghost function BadRun(cfg: Config, g: Guid): seq<Step>
    requires cfg.holder.Some?
  {
    [FirstStep(cfg, g), Process(NewInput(g)), SelfStep(cfg, g), SelfStep(cfg, g)]
  }

  function FirstStep(cfg: Config, g: Guid): Step
    requires cfg.holder.Some?
  {
    Receive(cfg.lib.format(HeldVoucher(cfg, g)), ReceiveIo(NoPartnerStore, true, true, true, true))
  }

  function SelfStep(cfg: Config, g: Guid): Step
    requires cfg.holder.Some?
  {
    SilentStep(FreshRecord(cfg, NewInput(g), 1), cfg.holder.value)
  }

  /** One more entry, for the holder. */
  function Own(cfg: Config, v: Voucher): Voucher
    requires cfg.holder.Some?
  {
    OneMore(v, cfg.holder.value)
  }

  function OneMore(v: Voucher, k: KeyId): Voucher {
    v.(entries := v.entries + [Entry(k, 0)])
  }

  lemma RunOfFour(cfg: Config, a: Step, b: Step, c: Step, d: Step)
    ensures
      var s1 := Next(cfg, START, a);
      var s2 := Next(cfg, s1, b);
      var s3 := Next(cfg, s2, c);
      && Run(cfg, [a, b, c, d]) == Next(cfg, s3, d)
      && (Enabled(START, a) && Enabled(s1, b) && Enabled(s2, c) && Enabled(s3, d) ==> Legal(cfg, [a, b, c, d]))
  {
    RunSnoc(cfg, [], a);
    RunSnoc(cfg, [a], b);
    RunSnoc(cfg, [a, b], c);
    RunSnoc(cfg, [a, b, c], d);
    assert [] + [a] == [a] && [a] + [b] == [a, b] && [a, b] + [c] == [a, b, c] && [a, b, c] + [d] == [a, b, c, d];
  }

  lemma SilentDecide(cfg: Config, w: World, rec: Row, v: Voucher, k: KeyId)
    requires cfg.holder == Some(Tip(v)) && FilePath(cfg.directory, rec.guid) != "" && rec.status == Pending
    requires Stored(cfg.lib, w.files, FilePath(cfg.directory, rec.guid)) == Some(v)
    ensures Decide(cfg, w, OwnerCall(k), rec, ALL_OK.(mark := false)) == Ok(OneMore(v, k))
  {
  }

  /** The file gains an entry, the backup becomes the old file, and the record does not notice. */
  lemma SilentAssign(cfg: Config, s: System, rec: Row, v: Voucher, k: KeyId)
    requires cfg.holder == Some(Tip(v)) && FilePath(cfg.directory, rec.guid) != "" && rec.status == Pending
    requires Stored(cfg.lib, s.world.files, FilePath(cfg.directory, rec.guid)) == Some(v) && Hex(v.guid) == rec.guid
    ensures
      var path, backup := FilePath(cfg.directory, rec.guid), BackupPath(cfg.directory, rec.guid);
      var s' := Next(cfg, s, SilentStep(rec, k));
      && s'.world.files == s.world.files[backup := s.world.files[path]][path := cfg.lib.format(OneMore(v, k))]
      && s'.world.rows == s.world.rows
      && s'.log == s.log + [AssignedOk(rec.guid)]
  {
    SilentDecide(cfg, s.world, rec, v, k);
    assert CanBackup(s.world.files, cfg.directory, rec.guid, true, true);
  }

  /** The same with the record updated: the backup is the old file, and the record names the new owner. */
  lemma OpenAssign(cfg: Config, s: System, rec: Row, v: Voucher, k: KeyId)
    requires cfg.holder == Some(Tip(v)) && FilePath(cfg.directory, rec.guid) != "" && rec.status == Pending
    requires Stored(cfg.lib, s.world.files, FilePath(cfg.directory, rec.guid)) == Some(v) && Hex(v.guid) == rec.guid
    ensures
      var path, backup := FilePath(cfg.directory, rec.guid), BackupPath(cfg.directory, rec.guid);
      var s' := Next(cfg, s, Assign(OwnerCall(k), Some(rec), ALL_OK));
      && s'.world.files == s.world.files[backup := s.world.files[path]][path := cfg.lib.format(OneMore(v, k))]
      && s'.world.rows == UpdateRow(s.world.rows, rec.id, (r: Row) => AssignedRecord(cfg, OwnerCall(k), r, 0))
      && s'.log == s.log + [AssignedOk(rec.guid)]
  {
    assert Decide(cfg, s.world, OwnerCall(k), rec, ALL_OK) == Ok(OneMore(v, k));
    assert CanBackup(s.world.files, cfg.directory, rec.guid, true, true);
    var mark := (r: Row) => MarkedAssigned(r, cfg.lib.fingerprint(OwnerCall(k).key), "", "operator", 0);
    assert UpdateRow(s.world.rows, rec.id, mark)
      == UpdateRow(s.world.rows, rec.id, (r: Row) => AssignedRecord(cfg, OwnerCall(k), r, 0));
  }

  /** One self-assignment leaves the holder at the tip. */
  lemma SelfAssign(cfg: Config, g: Guid, s: System, v: Voucher)
    requires ValidConfig(cfg) && cfg.holder.Some? && v.guid == g && Tip(v) == cfg.holder.value
    requires Stored(cfg.lib, s.world.files, FilePath(cfg.directory, Hex(g))) == Some(v)
    ensures
      var path, backup := FilePath(cfg.directory, Hex(g)), BackupPath(cfg.directory, Hex(g));
      var s' := Next(cfg, s, SelfStep(cfg, g));
      && s'.world.files == s.world.files[backup := s.world.files[path]][path := cfg.lib.format(Own(cfg, v))]
      && s'.world.rows == s.world.rows
      && s'.log == s.log + [AssignedOk(Hex(g))]
  {
    HexIsCanonical(g);
    SilentAssign(cfg, s, FreshRecord(cfg, NewInput(g), 1), v, cfg.holder.value);
  }

  /** After the first two steps: one pending record and the received file. */
  lemma BadRunOpening(cfg: Config, g: Guid)
    requires ValidConfig(cfg) && cfg.holder.Some?
    ensures
      var h := Hex(g);
      var path, pem := FilePath(cfg.directory, h), AsPem(cfg.lib, cfg.lib.format(HeldVoucher(cfg, g)));
      var s1 := Next(cfg, START, FirstStep(cfg, g));
      var s2 := Next(cfg, s1, Process(NewInput(g)));
      && Enabled(s1, Process(NewInput(g)))
      && s2.log == [Received(h, pem)] && s2.world.rows == [FreshRecord(cfg, NewInput(g), 1)]
      && path in s2.world.files && cfg.lib.parse(s2.world.files[path]) == Some(HeldVoucher(cfg, g))
  {
    var h := Hex(g);
    var pem := AsPem(cfg.lib, cfg.lib.format(HeldVoucher(cfg, g)));
    var s1 := Next(cfg, START, FirstStep(cfg, g));
    assert s1.log == [Received(h, pem)];
    assert Received(h, pem) in s1.log;
  }

  /** A file two entries ahead of the only received bytes is not safe. */
  lemma TwoEntriesUnsafe(cfg: Config, s: System, h: string, pem: Bytes, v: Voucher, v1: Voucher, v2: Voucher)
    requires |v1.entries| == |v.entries| + 1 && |v2.entries| == |v.entries| + 2
    requires cfg.lib.parse(pem) == Some(v) && forall b :: Received(h, b) in s.log ==> b == pem
    requires Stored(cfg.lib, s.world.files, FilePath(cfg.directory, h)) == Some(v2)
    requires Stored(cfg.lib, s.world.files, BackupPath(cfg.directory, h)) == Some(v1)
    ensures !FileSafe(cfg, s, h)
  {
  }

  lemma TwiceIsNotOnce(e: Event, h: string)
    ensures !AtMostOnce([e, AssignedOk(h), AssignedOk(h)])
  {
    var log := [e, AssignedOk(h), AssignedOk(h)];
    assert log[1] == AssignedOk(h) && log[2] == AssignedOk(h);
  }

  /** The second self-assignment is as legal as the first: the record is still pending. */
  lemma SelfStepEnabled(cfg: Config, g: Guid, s: System)
    requires cfg.holder.Some? && s.world.rows == [FreshRecord(cfg, NewInput(g), 1)]
    ensures Enabled(s, SelfStep(cfg, g))
  {
    var record := FreshRecord(cfg, NewInput(g), 1);
    assert Newest([record], HasSerial("s"), Some(record));
  }

  /** Where two self-assignments lead from the opening state. */
  lemma TwoSelfAssigns(cfg: Config, g: Guid, s2: System) returns (s3: System, s4: System)
    requires ValidConfig(cfg) && cfg.holder.Some?
    requires s2.world.rows == [FreshRecord(cfg, NewInput(g), 1)]
    requires Stored(cfg.lib, s2.world.files, FilePath(cfg.directory, Hex(g))) == Some(HeldVoucher(cfg, g))
    ensures s3 == Next(cfg, s2, SelfStep(cfg, g)) && s4 == Next(cfg, s3, SelfStep(cfg, g))
    ensures s3.world.rows == s2.world.rows
    ensures s4.log == s2.log + [AssignedOk(Hex(g))] + [AssignedOk(Hex(g))]
    ensures Stored(cfg.lib, s4.world.files, FilePath(cfg.directory, Hex(g)))
      == Some(Own(cfg, Own(cfg, HeldVoucher(cfg, g))))
    ensures Stored(cfg.lib, s4.world.files, BackupPath(cfg.directory, Hex(g))) == Some(Own(cfg, HeldVoucher(cfg, g)))
  {
    var v := HeldVoucher(cfg, g);
    var v1 := Own(cfg, v);
    HexIsCanonical(g);
    PathsDistinct(cfg.directory, Hex(g), Hex(g));
    SelfAssign(cfg, g, s2, v);
    s3 := Next(cfg, s2, SelfStep(cfg, g));
    StoredAfterWrite(cfg, s2.world.files, FilePath(cfg.directory, Hex(g)), BackupPath(cfg.directory, Hex(g)), v1);
    SelfAssign(cfg, g, s3, v1);
    s4 := Next(cfg, s3, SelfStep(cfg, g));
    StoredAfterWrite(cfg, s3.world.files, FilePath(cfg.directory, Hex(g)), BackupPath(cfg.directory, Hex(g)),
                     Own(cfg, v1));
  }

  lemma StoredAfterWrite(cfg: Config, files: Files, path: string, backup: string, v: Voucher)
    requires Lawful(cfg.lib) && path != backup && path in files
    ensures
      var files' := files[backup := files[path]][path := cfg.lib.format(v)];
      Stored(cfg.lib, files', path) == Some(v) && Stored(cfg.lib, files', backup) == Stored(cfg.lib, files, path)
  {
  }

  lemma BadRunReaches(cfg: Config, g: Guid) returns (end: System)
    requires ValidConfig(cfg) && cfg.holder.Some?
    ensures Legal(cfg, BadRun(cfg, g)) && end == Run(cfg, BadRun(cfg, g))
    ensures end.log ==
      [Received(Hex(g), AsPem(cfg.lib, cfg.lib.format(HeldVoucher(cfg, g))))]
        + [AssignedOk(Hex(g))] + [AssignedOk(Hex(g))]
    ensures Stored(cfg.lib, end.world.files, FilePath(cfg.directory, Hex(g)))
      == Some(Own(cfg, Own(cfg, HeldVoucher(cfg, g))))
    ensures Stored(cfg.lib, end.world.files, BackupPath(cfg.directory, Hex(g))) == Some(Own(cfg, HeldVoucher(cfg, g)))
  {
    BadRunOpening(cfg, g);
    var s2 := Next(cfg, Next(cfg, START, FirstStep(cfg, g)), Process(NewInput(g)));
    var s3, s4 := TwoSelfAssigns(cfg, g, s2);
    SelfStepEnabled(cfg, g, s2);
    SelfStepEnabled(cfg, g, s3);
    RunOfFour(cfg, FirstStep(cfg, g), Process(NewInput(g)), SelfStep(cfg, g), SelfStep(cfg, g));
    end := s4;
  }

  lemma BadRunUnsafe(cfg: Config, g: Guid)
    requires ValidConfig(cfg) && cfg.holder.Some?
    ensures !FileSafe(cfg, Run(cfg, BadRun(cfg, g)), Hex(g))
  {
    var v := HeldVoucher(cfg, g);
    var pem := AsPem(cfg.lib, cfg.lib.format(v));
    assert cfg.lib.parse(pem) == Some(v);
    var end := BadRunReaches(cfg, g);
    OnlyReception(end.log, Hex(g), pem);
    TwoEntriesUnsafe(cfg, end, Hex(g), pem, v, Own(cfg, v), Own(cfg, Own(cfg, v)));
  }

  lemma OnlyReception(log: seq<Event>, h: string, pem: Bytes)
    requires log == [Received(h, pem)] + [AssignedOk(h)] + [AssignedOk(h)]
    ensures forall b :: Received(h, b) in log ==> b == pem
    ensures !AtMostOnce(log)
  {
    TwiceIsNotOnce(Received(h, pem), h);
    assert log == [Received(h, pem), AssignedOk(h), AssignedOk(h)];
  }

  lemma BadRunTwice(cfg: Config, g: Guid)
    requires ValidConfig(cfg) && cfg.holder.Some?
    ensures Legal(cfg, BadRun(cfg, g)) && !AtMostOnce(Run(cfg, BadRun(cfg, g)).log)
  {
    var end := BadRunReaches(cfg, g);
    OnlyReception(end.log, Hex(g), AsPem(cfg.lib, cfg.lib.format(HeldVoucher(cfg, g))));
  }

  lemma BadRunNamesHolder(cfg: Config, g: Guid, keys: iset<KeyId>)
    requires cfg.holder.Some? && cfg.holder.value in keys
    ensures OnlyOwners(BadRun(cfg, g), keys)
  {
  }

  // ---------- the theorems ----------

  /** Voucher files stay safe in every run exactly when the holder's own key is never named as new owner. */
  lemma FilesSafeIffHolderExcluded(cfg: Config, keys: iset<KeyId>)
    requires ValidConfig(cfg)
    ensures FilesAlwaysSafe(cfg, keys) <==> HolderExcluded(cfg, keys)
  {
    if HolderExcluded(cfg, keys) {
      forall steps, h | Legal(cfg, steps) && OnlyOwners(steps, keys) && Canonical(h)
        ensures FileSafe(cfg, Run(cfg, steps), h)
      {
        RunsAreGuarded(cfg, steps, keys);
        assert Guarded(cfg, Run(cfg, steps), h);
      }
    } else {
      var g: Guid := *;
      BadRunTwice(cfg, g);
      BadRunUnsafe(cfg, g);
      BadRunNamesHolder(cfg, g, keys);
      HexIsCanonical(g);
    }
  }

  /** Assignment is at most once between restores (or receptions) in every run exactly under the same condition. */
  lemma AtMostOnceIffHolderExcluded(cfg: Config, keys: iset<KeyId>)
    requires ValidConfig(cfg)
    ensures AlwaysAtMostOnce(cfg, keys) <==> HolderExcluded(cfg, keys)
  {
    if HolderExcluded(cfg, keys) {
      forall steps | Legal(cfg, steps) && OnlyOwners(steps, keys) ensures AtMostOnce(Run(cfg, steps).log) {
        RunsAreGuarded(cfg, steps, keys);
      }
    } else {
      var g: Guid := *;
      BadRunTwice(cfg, g);
      BadRunNamesHolder(cfg, g, keys);
    }
  }

  /** In every such run the hypotheses of the assign/unassign round trip hold for every record. */
  lemma RoundTripAppliesInRuns(cfg: Config, steps: seq<Step>, keys: iset<KeyId>, rec: Row)
    requires ValidConfig(cfg) && Legal(cfg, steps) && OnlyOwners(steps, keys) && HolderExcluded(cfg, keys)
    requires rec in Run(cfg, steps).world.rows
    ensures UniqueIds(Run(cfg, steps).world.rows) && UniqueGrants(Run(cfg, steps).world.grants)
    ensures Canonical(rec.guid) && HeaderMatches(cfg, Run(cfg, steps).world, rec)
  {
    var s := Run(cfg, steps);
    RunsAreCoherent(cfg, steps);
    RunsAreGuarded(cfg, steps, keys);
    RecordIsCanonical(cfg, s, rec);
    assert Guarded(cfg, s, rec.guid);
  }
}
