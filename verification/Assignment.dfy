/** voucher_assign_handler.go and voucher_assign_cli.go: sign a voucher over to a new owner, and take it back. */
module Assignment {
  import opened Common
  import opened Vouchers
  import opened Records
  import opened FileStore
  import opened TransmissionStore
  import opened Settings

  datatype Channel = Http | Cli

  datatype AuthMethod = FdoKeyAuth | BearerToken | GlobalToken | NoAuth

  datatype Caller = Caller(fingerprint: string, auth: AuthMethod)

  predicate CanAssign(c: Caller) {
    c.auth != NoAuth && c.fingerprint != ""
  }

  datatype AssignCall = AssignCall(channel: Channel, serial: string, key: PublicKey, did: string, caller: Caller)

  /** Which calls to the disk, the database and the signer succeed; `signature` and `now` come from outside. */
  datatype AssignIo = AssignIo(
    lookup: bool, access: bool, read: bool, sign: bool, backupRead: bool, backupWrite: bool, save: bool,
    mark: bool, custodianGrant: bool, ownerGrant: bool, signature: nat, now: Time)

  datatype AssignError = NotFound | AlreadyAssigned | AlreadySignedOver | InvalidKey | InternalError

  /** `error` is None exactly for the status "ok". */
  datatype AssignResult = AssignResult(serial: string, voucherId: string, error: Option<AssignError>)

  datatype Result<+T, +E> = Ok(value: T) | Err(error: E)

  /** Everything the two stores hold. */
  datatype World = World(files: Files, rows: seq<Row>, grants: seq<Grant>, nextId: nat)

  predicate SupportedKey(key: PublicKey) {
    !key.kind.OtherKind?
  }

  predicate Scoped(channel: Channel, caller: Caller) {
    channel == Http && caller.auth != GlobalToken && caller.fingerprint != ""
  }

  ghost predicate Denied(w: World, call: AssignCall, rec: Row, access: bool) {
    && Scoped(call.channel, call.caller)
    && (!access || (!Accessible(w.rows, w.grants, rec.guid, call.caller.fingerprint)
                    && rec.owner != call.caller.fingerprint))
  }

  /** The voucher a readable file holds. */
  function Stored(lib: Library, files: Files, path: string): Option<Voucher> {
    if path in files then lib.parse(files[path]) else None
  }

  /** Every check before the first write: the extended voucher, or the reason to refuse. */
  ghost function Decide(cfg: Config, w: World, call: AssignCall, rec: Row, io: AssignIo): Result<Voucher, AssignError> {
    var stored := Stored(cfg.lib, w.files, FilePath(cfg.directory, rec.guid));
    if Denied(w, call, rec, io.access) then Err(NotFound)
    else if rec.status == Assigned then Err(AlreadyAssigned)
    else if rec.status == Succeeded then Err(AlreadySignedOver)
    else if FilePath(cfg.directory, rec.guid) == "" then Err(NotFound)
    else if !io.read || stored == None || cfg.holder == None then Err(InternalError)
    else if !SupportedKey(call.key) then Err(InvalidKey)
    else
      var ext := ExtendVoucher(stored.value, cfg.holder.value, call.key.id, io.signature);
      if !io.sign || ext == None then Err(InternalError) else Ok(ext.value)
  }

  function GrantedBy(channel: Channel): string {
    if channel == Http then "assign_api" else "cli"
  }

  function CustodianGrant(call: AssignCall, rec: Row, now: Time): Grant {
    Grant(rec.guid, call.serial, call.caller.fingerprint, Custodian, Full, "", now, GrantedBy(call.channel))
  }

  function OwnerGrant(call: AssignCall, rec: Row, fp: string, now: Time): Grant {
    Grant(rec.guid, call.serial, fp, OwnerKey, Full, "", now, GrantedBy(call.channel))
  }

  function GrantsAfter(cfg: Config, grants: seq<Grant>, call: AssignCall, rec: Row, io: AssignIo): seq<Grant> {
    var g1 := if (call.channel == Cli || call.caller.fingerprint != "") && io.custodianGrant
              then InsertOrIgnore(grants, CustodianGrant(call, rec, io.now)) else grants;
    if io.ownerGrant then InsertOrIgnore(g1, OwnerGrant(call, rec, cfg.lib.fingerprint(call.key), io.now)) else g1
  }

  /** The writes of an assignment that passed its checks: backup, extended file, record, grants. */
  function Committed(cfg: Config, w: World, call: AssignCall, rec: Row, ext: Voucher, io: AssignIo):
    (World, AssignResult)
  {
    var failed := AssignResult(call.serial, rec.guid, Some(InternalError));
    if !CanBackup(w.files, cfg.directory, rec.guid, io.backupRead, io.backupWrite) then (w, failed)
    else
      var backed := BackedUp(w.files, cfg.directory, rec.guid);
      var target := FilePath(cfg.directory, Hex(ext.guid));
      if target == "" || !io.save then (w.(files := backed), failed)
      else
        (World(backed[target := cfg.lib.format(ext)],
               if io.mark then UpdateRow(w.rows, rec.id, (r: Row) =>
                 MarkedAssigned(r, cfg.lib.fingerprint(call.key), call.did, call.caller.fingerprint, io.now))
               else w.rows,
               GrantsAfter(cfg, w.grants, call, rec, io),
               w.nextId),
         AssignResult(call.serial, rec.guid, None))
  }

  /** What one assignment does to the world, given the newest record of the serial. */
  ghost function AssignEffect(cfg: Config, w: World, call: AssignCall, hit: Option<Row>, io: AssignIo):
    (World, AssignResult)
  {
    if hit == None then (w, AssignResult(call.serial, "", Some(NotFound)))
    else
      var rec := hit.value;
      var refused := (e: AssignError) =>
        AssignResult(call.serial, if Denied(w, call, rec, io.access) then "" else rec.guid, Some(e));
      match Decide(cfg, w, call, rec, io)
      case Err(e) => (w, refused(e))
      case Ok(ext) => Committed(cfg, w, call, rec, ext, io)
  }

  /** FetchBySerial's first record, or None when the query fails or finds nothing. */
  ghost predicate SerialHit(w: World, serial: string, lookupOk: bool, hit: Option<Row>) {
    if lookupOk then Newest(w.rows, HasSerial(serial), hit) else hit == None
  }

  /** One assignment took `w` to `w'`, for some choice among equally new records. */
  ghost predicate AssignStep(cfg: Config, w: World, call: AssignCall, io: AssignIo, w': World, result: AssignResult) {
    exists hit: Option<Row> :: AssignStepAt(cfg, w, call, hit, io, w', result)
  }

  ghost predicate AssignStepAt(cfg: Config, w: World, call: AssignCall, hit: Option<Row>, io: AssignIo,
                               w': World, result: AssignResult)
  {
    SerialHit(w, call.serial, io.lookup, hit) && AssignEffect(cfg, w, call, hit, io) == (w', result)
  }

  datatype UnassignIo = UnassignIo(
    lookup: bool, mark: bool, restoreRead: bool, restoreWrite: bool, remove: bool, grants: bool, now: Time)

  datatype UnassignError = NoVoucher | NotAssigned | MarkFailed

  function RestoreStatus(rec: Row): Status {
    if rec.destination != "" then Pending else NoDestination
  }

  function UnassignVerdict(hit: Option<Row>, io: UnassignIo): Result<Row, UnassignError> {
    if hit == None then Err(NoVoucher)
    else if hit.value.status != Assigned then Err(NotAssigned)
    else if !io.mark then Err(MarkFailed)
    else Ok(hit.value)
  }

  function UnassignEffect(cfg: Config, w: World, hit: Option<Row>, io: UnassignIo): World {
    match UnassignVerdict(hit, io)
    case Err(_) => w
    case Ok(rec) =>
      World(if CanRestore(w.files, cfg.directory, rec.guid, io.restoreRead, io.restoreWrite)
              then Restored(w.files, cfg.directory, rec.guid, io.remove) else w.files,
            UpdateRow(w.rows, rec.id, (r: Row) => MarkedUnassigned(r, RestoreStatus(rec), io.now)),
            if io.grants then WithoutGuid(w.grants, rec.guid) else w.grants,
            w.nextId)
  }

  ghost predicate UnassignStep(cfg: Config, w: World, serial: string, io: UnassignIo, w': World,
                               result: Result<Row, UnassignError>)
  {
    exists hit: Option<Row> ::
      && SerialHit(w, serial, io.lookup, hit)
      && result == UnassignVerdict(hit, io)
      && w' == UnassignEffect(cfg, w, hit, io)
  }

  /** Refused are unknown serials, records that are not assigned, and failing updates; then nothing changes. */
  lemma UnassignAnswers(cfg: Config, w: World, hit: Option<Row>, io: UnassignIo)
    ensures UnassignVerdict(hit, io) == Err(NoVoucher) <==> hit == None
    ensures UnassignVerdict(hit, io) == Err(NotAssigned) <==> hit.Some? && hit.value.status != Assigned
    ensures UnassignVerdict(hit, io) == Err(MarkFailed) <==> hit.Some? && hit.value.status == Assigned && !io.mark
    ensures UnassignVerdict(hit, io).Err? ==> UnassignEffect(cfg, w, hit, io) == w
  {
  }

  /**
   * What an unassignment does to files and grants: a backup that can be read and written back replaces the file, and
   * goes if it can be removed; the voucher's grants go if the database removes them.
   */
  lemma UnassignDoes(cfg: Config, w: World, rec: Row, io: UnassignIo)
    requires cfg.directory != "" && rec.guid != "" && rec.status == Assigned && io.mark
    ensures
      var w', path, backup := UnassignEffect(cfg, w, Some(rec), io), FilePath(cfg.directory, rec.guid),
                              BackupPath(cfg.directory, rec.guid);
      && (io.restoreRead && io.restoreWrite && backup in w.files ==>
            w'.files == w.files[path := w.files[backup]] - (if io.remove then {backup} else {}))
      && (!io.restoreRead || !io.restoreWrite || backup !in w.files ==> w'.files == w.files)
      && (forall g :: g in w'.grants <==> g in w.grants && (io.grants ==> g.guid != rec.guid))
  {
  }

  predicate AllAssignOk(io: AssignIo) {
    && io.lookup && io.access && io.read && io.sign && io.backupRead && io.backupWrite && io.save && io.mark
    && io.custodianGrant && io.ownerGrant
  }

  predicate AllUnassignOk(io: UnassignIo) {
    io.lookup && io.mark && io.restoreRead && io.restoreWrite && io.remove && io.grants
  }

  /** The voucher on disk for this record carries the record's GUID in its header. */
  predicate HeaderMatches(cfg: Config, w: World, rec: Row) {
    var stored := Stored(cfg.lib, w.files, FilePath(cfg.directory, rec.guid));
    stored.Some? ==> Hex(stored.value.guid) == rec.guid
  }

  /**
   * The world after the round trip: the files are byte for byte as before (a stale backup of this voucher is
   * gone), the record differs only in its status, its cleared assignment columns and its timestamp, every other
   * record is untouched, and exactly this voucher's grants are gone.
   */
  ghost predicate BackAgain(cfg: Config, w: World, rec: Row, end: World, now: Time) {
    && end.files == w.files - {BackupPath(cfg.directory, rec.guid)}
    && end.rows == UpdateRow(w.rows, rec.id, (r: Row) => MarkedUnassigned(r, RestoreStatus(rec), now))
    && end.grants == WithoutGuid(w.grants, rec.guid)
  }

  /** The record of a voucher that was just assigned, as an unassignment finds it. */
  function AssignedRecord(cfg: Config, call: AssignCall, rec: Row, now: Time): Row {
    MarkedAssigned(rec, cfg.lib.fingerprint(call.key), call.did, call.caller.fingerprint, now)
  }

  /** Assign, then unassign, without a failing call, leads back. */
  lemma AssignUnassignRoundTrip(cfg: Config, w: World, call: AssignCall, rec: Row, aio: AssignIo, uio: UnassignIo)
    requires ValidConfig(cfg) && UniqueIds(w.rows) && Canonical(rec.guid) && HeaderMatches(cfg, w, rec)
    requires rec in w.rows && Newest(w.rows, HasSerial(call.serial), Some(rec))
    requires AllAssignOk(aio) && AllUnassignOk(uio)
    requires AssignEffect(cfg, w, call, Some(rec), aio).1.error == None
    ensures
      var mid := AssignEffect(cfg, w, call, Some(rec), aio).0;
      var found := AssignedRecord(cfg, call, rec, aio.now);
      && Newest(mid.rows, HasSerial(call.serial), Some(found))
      && BackAgain(cfg, w, rec, UnassignEffect(cfg, mid, Some(found), uio), uio.now)
  {
    var mid := AssignEffect(cfg, w, call, Some(rec), aio).0;
    FilesRoundTrip(cfg, w, call, rec, aio);
    RowsRoundTrip(w.rows, rec, cfg.lib.fingerprint(call.key), call.did, call.caller.fingerprint, aio.now,
                  call.serial, uio.now);
    NewGrantsGoAway(cfg, w.grants, call, rec, aio);
  }

  lemma FilesRoundTrip(cfg: Config, w: World, call: AssignCall, rec: Row, io: AssignIo)
    requires ValidConfig(cfg) && Canonical(rec.guid) && HeaderMatches(cfg, w, rec)
    requires AssignEffect(cfg, w, call, Some(rec), io).1.error == None
    ensures
      var files := AssignEffect(cfg, w, call, Some(rec), io).0.files;
      && CanRestore(files, cfg.directory, rec.guid, true, true)
      && Restored(files, cfg.directory, rec.guid, true) == w.files - {BackupPath(cfg.directory, rec.guid)}
  {
    var path := FilePath(cfg.directory, rec.guid);
    var ext := Decide(cfg, w, call, rec, io).value;
    assert AssignEffect(cfg, w, call, Some(rec), io).0.files
      == BackedUp(w.files, cfg.directory, rec.guid)[path := cfg.lib.format(ext)];
    BackupRestoreRoundTrip(w.files, cfg.directory, rec.guid, cfg.lib.format(ext), true);
  }

  lemma RowsRoundTrip(rows: seq<Row>, rec: Row, to: string, did: string, assigner: string, t1: Time,
                      serial: string, t2: Time)
    requires UniqueIds(rows) && rec in rows && Newest(rows, HasSerial(serial), Some(rec))
    ensures
      var found := MarkedAssigned(rec, to, did, assigner, t1);
      var mid := UpdateRow(rows, rec.id, (r: Row) => MarkedAssigned(r, to, did, assigner, t1));
      var undo := (r: Row) => MarkedUnassigned(r, RestoreStatus(rec), t2);
      && Newest(mid, HasSerial(serial), Some(found))
      && UpdateRow(mid, rec.id, undo) == UpdateRow(rows, rec.id, undo)
  {
    var found := MarkedAssigned(rec, to, did, assigner, t1);
    var mid := UpdateRow(rows, rec.id, (r: Row) => MarkedAssigned(r, to, did, assigner, t1));
    var k :| 0 <= k < |rows| && rows[k] == rec;
    assert mid[k] == found;
    forall r | r in mid ensures r == found || r in rows {
      var i :| 0 <= i < |mid| && mid[i] == r;
    }
  }

  /** An "ok" assignment records who it went to and who directed it, in this record and no other. */
  lemma AssignmentIsRecorded(cfg: Config, w: World, call: AssignCall, rec: Row, io: AssignIo, i: nat)
    requires UniqueIds(w.rows) && rec in w.rows && io.mark && i < |w.rows|
    requires AssignEffect(cfg, w, call, Some(rec), io).1.error == None
    ensures
      var after := AssignEffect(cfg, w, call, Some(rec), io).0.rows;
      && |after| == |w.rows|
      && (w.rows[i] != rec ==> after[i] == w.rows[i])
      && (w.rows[i] == rec ==>
            && after[i].status == Assigned && after[i].assignedAt == Some(io.now) && after[i].updatedAt == io.now
            && after[i].assignedTo == cfg.lib.fingerprint(call.key) && after[i].assignedToDid == call.did
            && after[i].assignedBy == call.caller.fingerprint
            && after[i].(status := rec.status, assignedAt := rec.assignedAt, updatedAt := rec.updatedAt,
                         assignedTo := rec.assignedTo, assignedToDid := rec.assignedToDid,
                         assignedBy := rec.assignedBy) == rec)
  {
  }

  /** When the update of the status fails, the records stay as they were, although the answer is "ok". */
  lemma FailedMarkIsSilent(cfg: Config, w: World, call: AssignCall, hit: Option<Row>, io: AssignIo)
    requires !io.mark
    ensures AssignEffect(cfg, w, call, hit, io).0.rows == w.rows
  {
  }

  /** The grants of an assignment all name its voucher, so removing the voucher's grants removes them. */
  lemma NewGrantsGoAway(cfg: Config, grants: seq<Grant>, call: AssignCall, rec: Row, io: AssignIo)
    ensures WithoutGuid(GrantsAfter(cfg, grants, call, rec, io), rec.guid) == WithoutGuid(grants, rec.guid)
  {
    var g1 := if (call.channel == Cli || call.caller.fingerprint != "") && io.custodianGrant
              then InsertOrIgnore(grants, CustodianGrant(call, rec, io.now)) else grants;
    AppendedGrantGoesAway(grants, CustodianGrant(call, rec, io.now));
    AppendedGrantGoesAway(g1, OwnerGrant(call, rec, cfg.lib.fingerprint(call.key), io.now));
  }

  lemma AppendedGrantGoesAway(grants: seq<Grant>, g: Grant)
    ensures WithoutGuid(InsertOrIgnore(grants, g), g.guid) == WithoutGuid(grants, g.guid)
  {
    assert (grants + [g])[..|grants|] == grants;
  }

  /**
   * What a round trip brings back, and exactly when: the files unless a stale backup was there, the grants unless
   * the voucher had some before, and the record, up to its timestamp, if it had no assignment columns and the
   * status unassign falls back to. Every other column of the record is kept, and every other record.
   */
  lemma RoundTripRestoresIff(cfg: Config, w: World, rec: Row, end: World, now: Time, i: nat)
    requires UniqueIds(w.rows) && i < |w.rows| && w.rows[i] == rec && BackAgain(cfg, w, rec, end, now)
    ensures end.files == w.files <==> BackupPath(cfg.directory, rec.guid) !in w.files
    ensures end.grants == w.grants <==> forall g :: g in w.grants ==> g.guid != rec.guid
    ensures
      var r := end.rows[i];
      && (r.status == Pending <==> rec.destination != "")
      && r == rec.(status := r.status, assignedAt := None, assignedTo := "", assignedToDid := "", assignedBy := "",
                   updatedAt := now)
      && (r == rec.(updatedAt := now) <==>
            && rec.assignedAt == None && rec.assignedTo == rec.assignedToDid == rec.assignedBy == ""
            && (|| (rec.status == Pending && rec.destination != "")
                || (rec.status == NoDestination && rec.destination == "")))
    ensures |end.rows| == |w.rows| && forall j :: 0 <= j < |w.rows| && j != i ==> end.rows[j] == w.rows[j]
  {
    WithoutGuidSameIff(w.grants, rec.guid);
    var backup := BackupPath(cfg.directory, rec.guid);
    assert backup !in end.files;
    assert backup !in w.files ==> w.files - {backup} == w.files;
  }

  /** After an "ok" assignment whose database calls succeeded, custodian and new owner can see the voucher. */
  lemma AssignmentGrantsAccess(cfg: Config, w: World, call: AssignCall, hit: Option<Row>, io: AssignIo)
    requires UniqueGrants(w.grants) && io.custodianGrant && io.ownerGrant
    requires AssignEffect(cfg, w, call, hit, io).1.error == None
    ensures
      var (w', _) := AssignEffect(cfg, w, call, hit, io);
      && UniqueGrants(w'.grants)
      && w.grants <= w'.grants
      && Accessible(w'.rows, w'.grants, hit.value.guid, cfg.lib.fingerprint(call.key))
      && (call.caller.fingerprint != "" ==>
            Accessible(w'.rows, w'.grants, hit.value.guid, call.caller.fingerprint))
  {
    var rec := hit.value;
    var g1 := if call.channel == Cli || call.caller.fingerprint != ""
              then InsertOrIgnore(w.grants, CustodianGrant(call, rec, io.now)) else w.grants;
    InsertKeepsFirstWriter(w.grants, CustodianGrant(call, rec, io.now));
    InsertKeepsFirstWriter(g1, OwnerGrant(call, rec, cfg.lib.fingerprint(call.key), io.now));
  }

  /** The caller owns no record of the voucher and holds no grant for it. */
  ghost predicate Stranger(w: World, fp: string, rec: Row) {
    && rec.owner != fp
    && (forall r :: r in w.rows && r.guid == rec.guid ==> r.owner != fp)
    && (forall g :: g in w.grants && g.guid == rec.guid ==> g.fingerprint != fp)
  }

  /** Denied are callers of the API with a fingerprint and no global token, who are strangers or cannot be checked. */
  lemma DeniedIff(w: World, call: AssignCall, rec: Row, access: bool)
    ensures Denied(w, call, rec, access) <==>
      && call.channel == Http && call.caller.auth != GlobalToken && call.caller.fingerprint != ""
      && (!access || Stranger(w, call.caller.fingerprint, rec))
  {
  }

  /** An unknown serial, and a voucher the caller may not see, get one and the same answer, and change nothing. */
  lemma DeniedLooksUnknown(cfg: Config, w: World, call: AssignCall, rec: Row, io: AssignIo)
    requires Denied(w, call, rec, io.access)
    ensures AssignEffect(cfg, w, call, Some(rec), io) == AssignEffect(cfg, w, call, None, io)
    ensures AssignEffect(cfg, w, call, None, io) == (w, AssignResult(call.serial, "", Some(NotFound)))
  {
  }

  predicate Signable(cfg: Config, w: World, call: AssignCall, rec: Row) {
    var stored := Stored(cfg.lib, w.files, FilePath(cfg.directory, rec.guid));
    stored.Some? && cfg.holder == Some(Tip(stored.value)) && call.key.kind != OtherKind
  }

  predicate Assignable(rec: Row) { rec.status != Assigned && rec.status != Succeeded }

  /** The answer to a caller who is not denied, by the record's status and the file. */
  ghost predicate AnswerFits(cfg: Config, w: World, call: AssignCall, rec: Row, io: AssignIo, answer: AssignResult) {
    && answer.serial == call.serial && answer.voucherId == rec.guid && answer.error != Some(NotFound)
    && (answer.error == Some(AlreadyAssigned) <==> rec.status == Assigned)
    && (answer.error == Some(AlreadySignedOver) <==> rec.status == Succeeded)
    && (answer.error == Some(InvalidKey) ==> Assignable(rec) && call.key.kind == OtherKind)
    && (answer.error == None <==> Assignable(rec) && Signable(cfg, w, call, rec) && io.read && io.sign
                                  && io.backupRead && io.backupWrite && io.save)
  }

  lemma AnswerMeans(cfg: Config, w: World, call: AssignCall, rec: Row, io: AssignIo)
    requires cfg.directory != "" && rec.guid != "" && !Denied(w, call, rec, io.access)
    ensures AnswerFits(cfg, w, call, rec, io, AssignEffect(cfg, w, call, Some(rec), io).1)
  {
  }

  /** A refusal leaves rows and grants alone, and every file but the backup. */
  lemma RefusalChangesNothing(cfg: Config, w: World, call: AssignCall, hit: Option<Row>, io: AssignIo)
    requires AssignEffect(cfg, w, call, hit, io).1.error != None
    ensures
      var w' := AssignEffect(cfg, w, call, hit, io).0;
      && w'.rows == w.rows && w'.grants == w.grants && w'.nextId == w.nextId
      && (hit == None ==> w' == w)
      && (hit.Some? ==>
            var backup := BackupPath(cfg.directory, hit.value.guid);
            w'.files - {backup} == w.files - {backup})
  {
  }

  lemma InsertedCustodian(grants: seq<Grant>, g: Grant, fp: string)
    ensures GrantedGuids(InsertOrIgnore(grants, g), fp) ==
      GrantedGuids(grants, fp) + if g.kind == Custodian && g.fingerprint == fp then {g.guid} else {}
    ensures forall h :: h in InsertOrIgnore(grants, g) ==> h in grants || h == g
    ensures exists h :: h in InsertOrIgnore(grants, g) && SameGrantKey(h, g)
  {
    if i :| 0 <= i < |grants| && SameGrantKey(grants[i], g) {
      assert grants[i] in grants;
    } else {
      assert (grants + [g])[|grants|] == g;
      assert forall h :: h in grants + [g] <==> h in grants || h == g;
      assert g in InsertOrIgnore(grants, g) && SameGrantKey(g, g);
    }
  }

  /**
   * The custodians after an "ok" assignment: the caller becomes one of this voucher, if the caller is known and the
   * insert works, and nobody else of any. Every new grant is full, carries the serial that was asked for and says
   * where it came from, and the new owner holds one as owner.
   */
  lemma AssignmentMakesCustodian(cfg: Config, w: World, call: AssignCall, hit: Option<Row>, io: AssignIo, fp: string)
    requires AssignEffect(cfg, w, call, hit, io).1.error == None
    ensures
      var grants, caller := AssignEffect(cfg, w, call, hit, io).0.grants, call.caller.fingerprint;
      var inserted := io.custodianGrant && (call.channel == Cli || caller != "");
      GrantedGuids(grants, fp) == GrantedGuids(w.grants, fp) + if inserted && fp == caller then {hit.value.guid} else {}
    ensures io.ownerGrant ==> HoldsAsOwner(AssignEffect(cfg, w, call, hit, io).0.grants, hit.value.guid,
                                           cfg.lib.fingerprint(call.key))
    ensures forall g :: g in AssignEffect(cfg, w, call, hit, io).0.grants && g !in w.grants ==>
      && g.guid == hit.value.guid && g.serial == call.serial && g.level == Full && g.partner == ""
      && g.grantedAt == io.now && g.grantedBy == (if call.channel == Http then "assign_api" else "cli")
      && ((g.kind == Custodian && g.fingerprint == call.caller.fingerprint)
          || (g.kind == OwnerKey && g.fingerprint == cfg.lib.fingerprint(call.key)))
  {
    var rec, to := hit.value, cfg.lib.fingerprint(call.key);
    var g1 := if (call.channel == Cli || call.caller.fingerprint != "") && io.custodianGrant
              then InsertOrIgnore(w.grants, CustodianGrant(call, rec, io.now)) else w.grants;
    InsertedCustodian(w.grants, CustodianGrant(call, rec, io.now), fp);
    InsertedCustodian(g1, OwnerGrant(call, rec, to, io.now), fp);
  }

  predicate HoldsAsOwner(grants: seq<Grant>, guid: string, fp: string) {
    exists g :: g in grants && g.guid == guid && g.fingerprint == fp && g.kind == OwnerKey
  }

  /** After an unassignment exactly the direct owners of the voucher's records can see it. */
  lemma UnassignLeavesDirectOwners(cfg: Config, w: World, hit: Option<Row>, io: UnassignIo, fp: string)
    requires UnassignVerdict(hit, io).Ok? && io.grants
    ensures
      var w' := UnassignEffect(cfg, w, hit, io);
      Accessible(w'.rows, w'.grants, hit.value.guid, fp) <==> DirectlyOwned(w.rows, hit.value.guid, fp)
  {
    var w' := UnassignEffect(cfg, w, hit, io);
    UpdateKeepsOwners(w.rows, hit.value.id, (r: Row) => MarkedUnassigned(r, RestoreStatus(hit.value), io.now),
                      hit.value.guid, fp);
    assert forall g :: g in w'.grants ==> g.guid != hit.value.guid;
  }

  predicate DirectlyOwned(rows: seq<Row>, guid: string, fp: string) {
    exists r :: r in rows && r.guid == guid && r.owner == fp
  }

  lemma UpdateKeepsOwners(rows: seq<Row>, id: nat, f: Row -> Row, guid: string, fp: string)
    requires forall r :: f(r).guid == r.guid && f(r).owner == r.owner
    ensures DirectlyOwned(UpdateRow(rows, id, f), guid, fp) <==> DirectlyOwned(rows, guid, fp)
  {
    var after := UpdateRow(rows, id, f);
    if DirectlyOwned(rows, guid, fp) {
      var i :| 0 <= i < |rows| && rows[i].guid == guid && rows[i].owner == fp;
      assert after[i] in after;
    }
    if DirectlyOwned(after, guid, fp) {
      var i :| 0 <= i < |after| && after[i].guid == guid && after[i].owner == fp;
      assert rows[i] in rows;
    }
  }

  lemma {:induction false} NewestExists(rows: seq<Row>, where: Row -> bool)
    ensures exists hit: Option<Row> :: Newest(rows, where, hit)
  {
    if rows == [] {
      assert Newest(rows, where, None);
    } else {
      var init, last := rows[..|rows| - 1], rows[|rows| - 1];
      NewestExists(init, where);
      var hit: Option<Row> :| Newest(init, where, hit);
      assert rows == init + [last];
      var better := if where(last) && (hit == None || hit.value.createdAt < last.createdAt) then Some(last) else hit;
      assert Newest(rows, where, better);
    }
  }

  /** Some record of the voucher, under this serial, is newer than every other voucher's record under it. */
  ghost predicate NewestUnderSerial(rows: seq<Row>, guid: string, serial: string) {
    exists q :: q in rows && q.guid == guid && q.serial == serial
      && forall r :: r in rows && r.serial == serial && r.guid != guid ==> r.createdAt < q.createdAt
  }

  /**
   * The commands' GUID form looks the voucher up, then works on the newest record of its serial. It reaches the
   * voucher that was named, whichever equally new record is picked, exactly under NewestUnderSerial.
   */
  lemma GuidFormReachesVoucherIff(rows: seq<Row>, guid: string, named: Row)
    requires named in rows && named.guid == guid
    ensures (forall hit :: Newest(rows, HasSerial(named.serial), Some(hit)) ==> hit.guid == guid)
      <==> NewestUnderSerial(rows, guid, named.serial)
  {
    var where := HasSerial(named.serial);
    if forall hit :: Newest(rows, where, Some(hit)) ==> hit.guid == guid {
      NewestExists(rows, where);
      var found: Option<Row> :| Newest(rows, where, found);
      assert where(named);
      var q := found.value;
      forall r | r in rows && r.serial == named.serial && r.guid != guid ensures r.createdAt < q.createdAt {
        assert where(r);
        assert r.createdAt == q.createdAt ==> Newest(rows, where, Some(r));
      }
    }
  }

  /** Two vouchers under one serial, the other one newer: naming the older one reaches the newer. */
  lemma GuidFormMisses(a: Row, b: Row)
    requires a.guid != b.guid && a.serial == b.serial && a.createdAt < b.createdAt
    ensures Newest([a, b], HasGuid(a.guid), Some(a))
    ensures forall hit :: Newest([a, b], HasSerial(a.serial), Some(hit)) ==> hit == b
    ensures !NewestUnderSerial([a, b], a.guid, a.serial)
  {
    assert HasSerial(a.serial)(b);
    assert b in [a, b];
  }

  datatype BatchResponse = Forbidden | BadRequest | Results(results: seq<AssignResult>)

  /** The new owner a request names, and what resolving its DID or parsing its key gave. */
  datatype NewOwner = NewOwner(did: string, keyText: string, resolver: bool, key: Option<PublicKey>)

  /** Serials are given, the owner is named in exactly one way, and that way leads to a key. */
  predicate WellPosed(serials: seq<string>, owner: NewOwner) {
    && serials != []
    && (owner.did == "") != (owner.keyText == "")
    && (owner.did != "" ==> owner.resolver)
    && owner.key.Some?
  }

  /** A request is turned down for no serials, no key, no owner or two, and a DID that cannot be resolved. */
  lemma WellPosedMeans(serials: seq<string>, owner: NewOwner)
    ensures WellPosed(serials, owner) <==>
      && serials != [] && owner.key.Some?
      && ((owner.did == "" && owner.keyText != "") || (owner.did != "" && owner.keyText == "" && owner.resolver))
  {
  }

  function Requests(serials: seq<string>, owner: NewOwner, caller: Caller): seq<AssignCall>
    requires owner.key.Some?
  {
    seq(|serials|, i requires 0 <= i < |serials| => AssignCall(Http, serials[i], owner.key.value, owner.did, caller))
  }

  /** One call per serial, each on the world the previous one left behind. */
  ghost function BatchEffect(cfg: Config, w: World, calls: seq<AssignCall>, hits: seq<Option<Row>>, ios: seq<AssignIo>):
    (World, seq<AssignResult>)
    requires |calls| == |hits| == |ios|
  {
    if calls == [] then (w, [])
    else
      var n := |calls| - 1;
      var (mid, rs) := BatchEffect(cfg, w, calls[..n], hits[..n], ios[..n]);
      var (end, r) := AssignEffect(cfg, mid, calls[n], hits[n], ios[n]);
      (end, rs + [r])
  }

  /** The n-th call found a newest record in the world the calls before it left. */
  ghost predicate HitAt(cfg: Config, w: World, calls: seq<AssignCall>, hits: seq<Option<Row>>, ios: seq<AssignIo>,
                        n: nat)
    requires n < |calls| == |hits| == |ios|
  {
    SerialHit(BatchEffect(cfg, w, calls[..n], hits[..n], ios[..n]).0, calls[n].serial, ios[n].lookup, hits[n])
  }

  ghost predicate BatchHits(cfg: Config, w: World, calls: seq<AssignCall>, hits: seq<Option<Row>>, ios: seq<AssignIo>)
    requires |calls| == |hits| == |ios|
  {
    forall n :: 0 <= n < |calls| ==> HitAt(cfg, w, calls, hits, ios, n)
  }

  /** What the first calls found does not depend on the calls after them. */
  lemma HitAtOfPrefix(cfg: Config, w: World, calls: seq<AssignCall>, hits: seq<Option<Row>>, ios: seq<AssignIo>,
                      i: nat, n: nat)
    requires n < i <= |calls| == |hits| == |ios|
    ensures HitAt(cfg, w, calls[..i], hits[..i], ios[..i], n) <==> HitAt(cfg, w, calls, hits, ios, n)
  {
    assert calls[..i][..n] == calls[..n] && hits[..i][..n] == hits[..n] && ios[..i][..n] == ios[..n];
  }

  /** The calls before the last found what they found in the whole request, and the other way round. */
  lemma HitsOfPrefix(cfg: Config, w: World, calls: seq<AssignCall>, hits: seq<Option<Row>>, ios: seq<AssignIo>)
    requires 0 < |calls| == |hits| == |ios|
    ensures
      var n := |calls| - 1;
      BatchHits(cfg, w, calls, hits, ios) <==>
        BatchHits(cfg, w, calls[..n], hits[..n], ios[..n]) && HitAt(cfg, w, calls, hits, ios, n)
  {
    var n := |calls| - 1;
    forall k: nat | k < n
      ensures HitAt(cfg, w, calls[..n], hits[..n], ios[..n], k) <==> HitAt(cfg, w, calls, hits, ios, k)
    {
      HitAtOfPrefix(cfg, w, calls, hits, ios, n, k);
    }
  }

  /** The calls were answered one after the other, for some choice among equally new records. */
  ghost predicate ServedAs(cfg: Config, w: World, calls: seq<AssignCall>, ios: seq<AssignIo>, w': World,
                           results: seq<AssignResult>)
    requires |ios| == |calls|
  {
    exists hits: seq<Option<Row>> :: |hits| == |calls|
      && BatchHits(cfg, w, calls, hits, ios) && (w', results) == BatchEffect(cfg, w, calls, hits, ios)
  }

  /** A row of the new owner: by which call, and to whom. */
  predicate GivenBy(cfg: Config, r: Row, serial: string, key: PublicKey, did: string, caller: Caller) {
    && r.serial == serial && r.status == Assigned && r.assignedTo == cfg.lib.fingerprint(key)
    && r.assignedToDid == did && r.assignedBy == caller.fingerprint
  }

  /** Rows that one call rewrites are assigned as the call says. */
  lemma AssignMarks(cfg: Config, w: World, call: AssignCall, hit: Option<Row>, io: AssignIo)
    requires UniqueIds(w.rows) && SerialHit(w, call.serial, io.lookup, hit)
    ensures
      var (w', result) := AssignEffect(cfg, w, call, hit, io);
      && result.serial == call.serial && UniqueIds(w'.rows)
      && forall r :: r in w'.rows && r !in w.rows ==> GivenBy(cfg, r, call.serial, call.key, call.did, call.caller)
  {
    var w' := AssignEffect(cfg, w, call, hit, io).0;
    forall r | r in w'.rows && r !in w.rows ensures GivenBy(cfg, r, call.serial, call.key, call.did, call.caller) {
      var i :| 0 <= i < |w'.rows| && w'.rows[i] == r;
      assert w.rows[i] in w.rows;
    }
  }

  ghost predicate GivenByOne(cfg: Config, r: Row, calls: seq<AssignCall>) {
    exists i :: 0 <= i < |calls| && GivenBy(cfg, r, calls[i].serial, calls[i].key, calls[i].did, calls[i].caller)
  }

  /** One answer per call, in order, about its serial; and every row that is new was assigned by some call. */
  ghost predicate Answered(cfg: Config, w: World, calls: seq<AssignCall>, w': World, results: seq<AssignResult>) {
    && |results| == |calls| && UniqueIds(w'.rows)
    && (forall i :: 0 <= i < |calls| ==> results[i].serial == calls[i].serial)
    && (forall r :: r in w'.rows && r !in w.rows ==> GivenByOne(cfg, r, calls))
  }

  lemma AnsweredSnoc(cfg: Config, w: World, calls: seq<AssignCall>, mid: World, rs: seq<AssignResult>,
                     call: AssignCall, end: World, result: AssignResult)
    requires Answered(cfg, w, calls, mid, rs) && result.serial == call.serial && UniqueIds(end.rows)
    requires forall r :: r in end.rows && r !in mid.rows ==>
      GivenBy(cfg, r, call.serial, call.key, call.did, call.caller)
    ensures Answered(cfg, w, calls + [call], end, rs + [result])
  {
    var all := calls + [call];
    forall r | r in end.rows && r !in w.rows
      ensures GivenByOne(cfg, r, all)
    {
      if r in mid.rows {
        var i :| 0 <= i < |calls| && GivenBy(cfg, r, calls[i].serial, calls[i].key, calls[i].did, calls[i].caller);
        assert all[i] == calls[i];
      } else {
        assert all[|calls|] == call;
      }
    }
  }

  lemma {:induction false} CallsAnswered(cfg: Config, w: World, calls: seq<AssignCall>, hits: seq<Option<Row>>,
                                        ios: seq<AssignIo>)
    requires |calls| == |hits| == |ios| && UniqueIds(w.rows) && BatchHits(cfg, w, calls, hits, ios)
    ensures
      var (w', results) := BatchEffect(cfg, w, calls, hits, ios);
      Answered(cfg, w, calls, w', results)
  {
    if calls != [] {
      var n := |calls| - 1;
      HitsOfPrefix(cfg, w, calls, hits, ios);
      CallsAnswered(cfg, w, calls[..n], hits[..n], ios[..n]);
      var (mid, rs) := BatchEffect(cfg, w, calls[..n], hits[..n], ios[..n]);
      var (end, result) := AssignEffect(cfg, mid, calls[n], hits[n], ios[n]);
      AssignMarks(cfg, mid, calls[n], hits[n], ios[n]);
      AnsweredSnoc(cfg, w, calls[..n], mid, rs, calls[n], end, result);
      assert calls[..n] + [calls[n]] == calls;
    }
  }

  /** The same in terms of the request: the i-th answer is about the i-th serial, for the owner it names. */
  ghost predicate RequestAnswered(cfg: Config, serials: seq<string>, key: PublicKey, did: string, caller: Caller,
                                  w: World, w': World, results: seq<AssignResult>)
  {
    && |results| == |serials| && (forall i :: 0 <= i < |serials| ==> results[i].serial == serials[i])
    && (forall r :: r in w'.rows && r !in w.rows ==> r.serial in serials && GivenBy(cfg, r, r.serial, key, did, caller))
  }

  lemma RequestIsAnswered(cfg: Config, serials: seq<string>, owner: NewOwner, caller: Caller, ios: seq<AssignIo>,
                          w: World, w': World, results: seq<AssignResult>)
    requires owner.key.Some? && |ios| == |serials| && UniqueIds(w.rows)
    requires ServedAs(cfg, w, Requests(serials, owner, caller), ios, w', results)
    ensures RequestAnswered(cfg, serials, owner.key.value, owner.did, caller, w, w', results)
  {
    var calls := Requests(serials, owner, caller);
    var hits: seq<Option<Row>> :| |hits| == |calls|
      && BatchHits(cfg, w, calls, hits, ios) && (w', results) == BatchEffect(cfg, w, calls, hits, ios);
    CallsAnswered(cfg, w, calls, hits, ios);
    forall i | 0 <= i < |serials| ensures results[i].serial == serials[i] && calls[i].serial in serials {
      assert calls[i].serial == serials[i];
    }
  }

  class VoucherAssignHandler {
    const cfg: Config
    const fileStore: VoucherFileStore
    const store: VoucherTransmissionStore

    constructor (cfg: Config, fileStore: VoucherFileStore, store: VoucherTransmissionStore)
      ensures this.cfg == cfg && this.fileStore == fileStore && this.store == store
    {
      this.cfg, this.fileStore, this.store := cfg, fileStore, store;
    }

    ghost predicate Valid()
      reads this, store
    {
      fileStore.directory == cfg.directory && store.Valid()
    }

    ghost function Now(): World
      reads this, fileStore, store
    {
      World(fileStore.files, store.rows, store.grants, store.nextId)
    }

    /** fdo.ParseVoucherFile */
    method ParseVoucherFile(path: string, readOk: bool) returns (voucher: Option<Voucher>)
      ensures voucher == if readOk then Stored(cfg.lib, fileStore.files, path) else None
    {
      if !readOk || path !in fileStore.files {
        return None;
      }
      voucher := cfg.lib.parse(fileStore.files[path]);
    }

    /** The per-voucher access check of the assign API. */
    method DenyAccess(call: AssignCall, rec: Row, accessOk: bool) returns (denied: bool)
      requires call.channel == Http
      ensures denied <==> Denied(Now(), call, rec, accessOk)
    {
      denied := false;
      if call.caller.auth != GlobalToken && call.caller.fingerprint != "" {
        var hasAccess := store.HasAccessByGUID(rec.guid, call.caller.fingerprint);
        denied := !accessOk || (!hasAccess && rec.owner != call.caller.fingerprint);
      }
    }

    method AssignVoucher(call: AssignCall, io: AssignIo) returns (result: AssignResult)
      requires Valid() && call.channel == Http
      modifies fileStore, store
      ensures Valid()
      ensures AssignStep(cfg, old(Now()), call, io, Now(), result)
    {
      var recs: seq<Row> := [];
      if io.lookup {
        recs := store.FetchBySerial(call.serial);
      }
      if recs == [] {
        result := AssignResult(call.serial, "", Some(NotFound));
      } else {
        result := AssignRecord(recs[0], call, io);
      }
      ghost var hit := if recs == [] then None else Some(recs[0]);
      assert AssignStepAt(cfg, old(Now()), call, hit, io, Now(), result);
    }

    /** The rest of the call, once the newest record is known. */
    method AssignRecord(rec: Row, call: AssignCall, io: AssignIo) returns (result: AssignResult)
      requires Valid() && call.channel == Http
      modifies fileStore, store
      ensures Valid()
      ensures (Now(), result) == AssignEffect(cfg, old(Now()), call, Some(rec), io)
    {
      var denied := DenyAccess(call, rec, io.access);
      if denied {
        return AssignResult(call.serial, "", Some(NotFound));
      }
      if rec.status == Assigned {
        return AssignResult(call.serial, rec.guid, Some(AlreadyAssigned));
      }
      if rec.status == Succeeded {
        return AssignResult(call.serial, rec.guid, Some(AlreadySignedOver));
      }
      var path := FilePath(fileStore.directory, rec.guid);
      if path == "" {
        return AssignResult(call.serial, rec.guid, Some(NotFound));
      }
      var voucher := ParseVoucherFile(path, io.read);
      if voucher == None || cfg.holder == None {
        return AssignResult(call.serial, rec.guid, Some(InternalError));
      }
      if !SupportedKey(call.key) {
        return AssignResult(call.serial, rec.guid, Some(InvalidKey));
      }
      var extended := ExtendVoucher(voucher.value, cfg.holder.value, call.key.id, io.signature);
      if !io.sign || extended == None {
        return AssignResult(call.serial, rec.guid, Some(InternalError));
      }
      result := Commit(rec, call, extended.value, io);
    }

    /** The writes, once every check has passed. */
    method Commit(rec: Row, call: AssignCall, ext: Voucher, io: AssignIo) returns (result: AssignResult)
      requires Valid() && call.channel == Http
      modifies fileStore, store
      ensures Valid()
      ensures (Now(), result) == Committed(cfg, old(Now()), call, rec, ext, io)
    {
      var backedUp := fileStore.BackupVoucher(rec.guid, io.backupRead, io.backupWrite);
      if !backedUp {
        return AssignResult(call.serial, rec.guid, Some(InternalError));
      }
      var saved := fileStore.SaveVoucher(cfg.lib, ext, io.save);
      if saved == None {
        return AssignResult(call.serial, rec.guid, Some(InternalError));
      }
      var fp := cfg.lib.fingerprint(call.key);
      var marked := store.MarkAssigned(rec.id, fp, call.did, call.caller.fingerprint, io.now, io.mark);
      if call.caller.fingerprint != "" {
        var _ := store.InsertAccessGrant(CustodianGrant(call, rec, io.now), io.custodianGrant);
      }
      var _ := store.InsertAccessGrant(OwnerGrant(call, rec, fp, io.now), io.ownerGrant);
      return AssignResult(call.serial, rec.guid, None);
    }

    /** The checks and the serial loop of ServeHTTP. */
    method ServeAssign(serials: seq<string>, owner: NewOwner, caller: Caller, ios: seq<AssignIo>)
      returns (response: BatchResponse)
      requires Valid() && |ios| == |serials|
      modifies fileStore, store
      ensures Valid()
      ensures response == Forbidden <==> caller.auth == NoAuth || caller.fingerprint == ""
      ensures response == BadRequest <==> CanAssign(caller) && !WellPosed(serials, owner)
      ensures response.Results? ==> owner.key.Some?
      ensures !response.Results? ==> Now() == old(Now())
      ensures response.Results? ==>
        ServedAs(cfg, old(Now()), Requests(serials, owner, caller), ios, Now(), response.results)
      ensures response.Results? ==>
        RequestAnswered(cfg, serials, owner.key.value, owner.did, caller, old(Now()), Now(), response.results)
    {
      if !CanAssign(caller) {
        return Forbidden;
      }
      if |serials| == 0 {
        return BadRequest;
      }
      if owner.did == "" && owner.keyText == "" {
        return BadRequest;
      }
      if owner.did != "" && owner.keyText != "" {
        return BadRequest;
      }
      if owner.did != "" && !owner.resolver {
        return BadRequest;
      }
      if owner.key == None {
        return BadRequest;
      }
      var results := AssignAll(serials, owner, caller, ios);
      RequestIsAnswered(cfg, serials, owner, caller, ios, old(Now()), Now(), results);
      return Results(results);
    }

    /** The loop over the serials of a request. */
    method AssignAll(serials: seq<string>, owner: NewOwner, caller: Caller, ios: seq<AssignIo>)
      returns (results: seq<AssignResult>)
      requires Valid() && |ios| == |serials| && owner.key.Some?
      modifies fileStore, store
      ensures Valid()
      ensures ServedAs(cfg, old(Now()), Requests(serials, owner, caller), ios, Now(), results)
    {
      ghost var calls := Requests(serials, owner, caller);
      results := [];
      ghost var hits: seq<Option<Row>> := [];
      ghost var start := Now();
      for i := 0 to |serials|
        invariant Valid()
        invariant |hits| == i
        invariant BatchHits(cfg, start, calls[..i], hits, ios[..i])
        invariant (Now(), results) == BatchEffect(cfg, start, calls[..i], hits, ios[..i])
      {
        ghost var mid := Now();
        var result := AssignVoucher(AssignCall(Http, serials[i], owner.key.value, owner.did, caller), ios[i]);
        ghost var hit :| AssignStepAt(cfg, mid, calls[i], hit, ios[i], Now(), result);
        BatchExtends(cfg, start, calls, hits, hit, ios, i);
        results := results + [result];
        hits := hits + [hit];
      }
      assert calls[..|serials|] == calls && ios[..|serials|] == ios;
    }
  }

  lemma BatchExtends(cfg: Config, w: World, calls: seq<AssignCall>, hits: seq<Option<Row>>, hit: Option<Row>,
                     ios: seq<AssignIo>, i: nat)
    requires |hits| == i < |calls| == |ios|
    requires BatchHits(cfg, w, calls[..i], hits, ios[..i])
    requires SerialHit(BatchEffect(cfg, w, calls[..i], hits, ios[..i]).0, calls[i].serial, ios[i].lookup, hit)
    ensures BatchHits(cfg, w, calls[..i + 1], hits + [hit], ios[..i + 1])
    ensures
      var (mid, rs) := BatchEffect(cfg, w, calls[..i], hits, ios[..i]);
      var (end, r) := AssignEffect(cfg, mid, calls[i], hit, ios[i]);
      BatchEffect(cfg, w, calls[..i + 1], hits + [hit], ios[..i + 1]) == (end, rs + [r])
  {
    var cs, hs, os := calls[..i + 1], hits + [hit], ios[..i + 1];
    assert cs[..i] == calls[..i] && hs[..i] == hits && os[..i] == ios[..i];
    HitsOfPrefix(cfg, w, cs, hs, os);
  }

  /** The command-line forms, which act as the operator and skip the access check. */
  class VoucherCommands {
    const cfg: Config
    const fileStore: VoucherFileStore
    const store: VoucherTransmissionStore

    constructor (cfg: Config, fileStore: VoucherFileStore, store: VoucherTransmissionStore)
      ensures this.cfg == cfg && this.fileStore == fileStore && this.store == store
    {
      this.cfg, this.fileStore, this.store := cfg, fileStore, store;
    }

    ghost predicate Valid()
      reads this, store
    {
      fileStore.directory == cfg.directory && store.Valid()
    }

    ghost function Now(): World
      reads this, fileStore, store
    {
      World(fileStore.files, store.rows, store.grants, store.nextId)
    }

    /** The serials to work on: those given, or the serial of the voucher's newest record. */
    method SelectSerials(guid: string, given: seq<string>) returns (serials: Option<seq<string>>)
      requires Valid()
      ensures guid == "" ==> serials == Some(given)
      ensures guid != "" ==> exists hit ::
        && Newest(store.rows, HasGuid(guid), hit)
        && serials == (if hit == None then None else Some([hit.value.serial]))
    {
      if guid == "" {
        return Some(given);
      }
      var rec := store.FetchLatestByGUID(guid);
      if rec == None {
        return None;
      }
      return Some([rec.value.serial]);
    }

    method AssignVoucherCLI(call: AssignCall, io: AssignIo) returns (result: AssignResult)
      requires Valid() && call.channel == Cli && cfg.holder.Some?
      modifies fileStore, store
      ensures Valid()
      ensures AssignStep(cfg, old(Now()), call, io, Now(), result)
    {
      var recs: seq<Row> := [];
      if io.lookup {
        recs := store.FetchBySerial(call.serial);
      }
      if recs == [] {
        result := AssignResult(call.serial, "", Some(NotFound));
      } else {
        result := AssignRecord(recs[0], call, io);
      }
      ghost var hit := if recs == [] then None else Some(recs[0]);
      assert AssignStepAt(cfg, old(Now()), call, hit, io, Now(), result);
    }

    /** The rest of the call, once the newest record is known. */
    method AssignRecord(rec: Row, call: AssignCall, io: AssignIo) returns (result: AssignResult)
      requires Valid() && call.channel == Cli && cfg.holder.Some?
      modifies fileStore, store
      ensures Valid()
      ensures (Now(), result) == AssignEffect(cfg, old(Now()), call, Some(rec), io)
    {
      if rec.status == Assigned {
        return AssignResult(call.serial, rec.guid, Some(AlreadyAssigned));
      }
      if rec.status == Succeeded {
        return AssignResult(call.serial, rec.guid, Some(AlreadySignedOver));
      }
      var path := FilePath(fileStore.directory, rec.guid);
      if path == "" {
        return AssignResult(call.serial, rec.guid, Some(NotFound));
      }
      if !io.read || path !in fileStore.files || cfg.lib.parse(fileStore.files[path]) == None {
        return AssignResult(call.serial, rec.guid, Some(InternalError));
      }
      var voucher := cfg.lib.parse(fileStore.files[path]).value;
      if !SupportedKey(call.key) {
        return AssignResult(call.serial, rec.guid, Some(InvalidKey));
      }
      var extended := ExtendVoucher(voucher, cfg.holder.value, call.key.id, io.signature);
      if !io.sign || extended == None {
        return AssignResult(call.serial, rec.guid, Some(InternalError));
      }
      result := Commit(rec, call, extended.value, io);
    }

    /** The writes, once every check has passed. */
    method Commit(rec: Row, call: AssignCall, ext: Voucher, io: AssignIo) returns (result: AssignResult)
      requires Valid() && call.channel == Cli
      modifies fileStore, store
      ensures Valid()
      ensures (Now(), result) == Committed(cfg, old(Now()), call, rec, ext, io)
    {
      var backedUp := fileStore.BackupVoucher(rec.guid, io.backupRead, io.backupWrite);
      if !backedUp {
        return AssignResult(call.serial, rec.guid, Some(InternalError));
      }
      var saved := fileStore.SaveVoucher(cfg.lib, ext, io.save);
      if saved == None {
        return AssignResult(call.serial, rec.guid, Some(InternalError));
      }
      var fp := cfg.lib.fingerprint(call.key);
      var _ := store.MarkAssigned(rec.id, fp, call.did, call.caller.fingerprint, io.now, io.mark);
      var _ := store.InsertAccessGrant(CustodianGrant(call, rec, io.now), io.custodianGrant);
      var _ := store.InsertAccessGrant(OwnerGrant(call, rec, fp, io.now), io.ownerGrant);
      return AssignResult(call.serial, rec.guid, None);
    }

    /** One turn of the unassign loop. */
    method Unassign(serial: string, io: UnassignIo) returns (result: Result<Row, UnassignError>)
      requires Valid()
      modifies fileStore, store
      ensures Valid()
      ensures UnassignStep(cfg, old(Now()), serial, io, Now(), result)
    {
      var recs: seq<Row> := [];
      if io.lookup {
        recs := store.FetchBySerial(serial);
      }
      ghost var hit := if recs == [] then None else Some(recs[0]);
      assert SerialHit(old(Now()), serial, io.lookup, hit);
      if recs == [] {
        return Err(NoVoucher);
      }
      var rec := recs[0];
      if rec.status != Assigned {
        return Err(NotAssigned);
      }
      var restoreStatus := NoDestination;
      if rec.destination != "" {
        restoreStatus := Pending;
      }
      var marked := store.MarkUnassigned(rec.id, restoreStatus, io.now, io.mark);
      if !marked {
        return Err(MarkFailed);
      }
      var _ := fileStore.RestoreVoucher(rec.guid, io.restoreRead, io.restoreWrite, io.remove);
      var _ := store.RemoveAccessGrantsForVoucher(rec.guid, io.grants);
      return Ok(rec);
    }
  }
}
