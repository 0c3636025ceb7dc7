/** voucher_receiver_handler.go and voucher_pipeline.go: store a received voucher, then create its record. */
module Intake {
  import opened Common
  import opened Vouchers
  import opened Records
  import opened FileStore
  import opened TransmissionStore
  import opened Settings
  import opened Delivery
  import opened Backoff

  /** What the partner store says about the voucher's manufacturer key. */
  datatype Supplier = NoPartnerStore | UnreadableKey | Checked(trusted: bool)

  /** `stat` is false when Stat fails on a file that is there. */
  datatype ReceiveIo = ReceiveIo(supplier: Supplier, stat: bool, temp: bool, rename: bool, remove: bool)

  datatype Receipt = Invalid | Untrusted | Conflict | SaveFailed | Accepted(guid: string)

  predicate Refused(cfg: Config, supplier: Supplier) {
    supplier == UnreadableKey || (supplier == Checked(false) && cfg.requireTrustedManufacturer)
  }

  function AsPem(lib: Library, raw: Bytes): Bytes {
    if lib.isPem(raw) then raw else lib.wrapPem(raw)
  }

  function ReceiveEffect(cfg: Config, files: Files, raw: Bytes, io: ReceiveIo): (Files, Receipt) {
    match cfg.lib.parse(raw)
    case None => (files, Invalid)
    case Some(v) =>
      var guid := Hex(v.guid);
      var path, temp := FilePath(cfg.directory, guid), TempPath(cfg.directory, guid);
      var written := files[temp := AsPem(cfg.lib, raw)];
      if Refused(cfg, io.supplier) then (files, Untrusted)
      else if io.stat && path in files then (files, Conflict)
      else if !io.temp then (files, SaveFailed)
      else if !io.rename then (if io.remove then written - {temp} else written, SaveFailed)
      else ((written - {temp})[path := AsPem(cfg.lib, raw)], Accepted(guid))
  }

  /**
   * What each answer to a reception means, in terms of the bytes, the manufacturer's key, the setting and the file:
   * only an accepted voucher, or one that a write failed for, changes the files, and the latter only the temporary
   * one.
   */
  ghost predicate ReceiptFits(cfg: Config, files: Files, raw: Bytes, io: ReceiveIo, files': Files, receipt: Receipt) {
    var parsed := cfg.lib.parse(raw);
    var guid := if parsed.Some? then Hex(parsed.value.guid) else "";
    var distrusted := io.supplier == UnreadableKey || (cfg.requireTrustedManufacturer && io.supplier == Checked(false));
    var duplicate := io.stat && FilePath(cfg.directory, guid) in files;
    && (receipt == Invalid <==> parsed == None)
    && (receipt == Untrusted <==> parsed.Some? && distrusted)
    && (receipt == Conflict <==> parsed.Some? && !distrusted && duplicate)
    && (receipt == SaveFailed <==> parsed.Some? && !distrusted && !duplicate && !(io.temp && io.rename))
    && (receipt.Accepted? <==> parsed.Some? && !distrusted && !duplicate && io.temp && io.rename)
    && (receipt.Accepted? ==> receipt.guid == guid && StoredAt(cfg, raw, FilePath(cfg.directory, guid), files'))
    && (!receipt.Accepted? && receipt != SaveFailed ==> files' == files)
    && (receipt == SaveFailed ==>
          files' - {TempPath(cfg.directory, guid)} == files - {TempPath(cfg.directory, guid)})
    && (receipt == SaveFailed && io.temp && io.remove ==> TempPath(cfg.directory, guid) !in files')
    && (receipt == SaveFailed && !io.temp ==> files' == files)
    && (receipt.Accepted? ==>
          files' - {FilePath(cfg.directory, guid), TempPath(cfg.directory, guid)}
            == files - {FilePath(cfg.directory, guid), TempPath(cfg.directory, guid)})
  }

  /** The file holds the bytes that came in, in PEM, and no temporary file is left. */
  predicate StoredAt(cfg: Config, raw: Bytes, path: string, files: Files) {
    && path in files && path + TEMP_SUFFIX !in files
    && files[path] == (if cfg.lib.isPem(raw) then raw else cfg.lib.wrapPem(raw))
  }

  lemma ReceiveAnswers(cfg: Config, files: Files, raw: Bytes, io: ReceiveIo)
    ensures
      var (files', receipt) := ReceiveEffect(cfg, files, raw, io);
      ReceiptFits(cfg, files, raw, io, files', receipt)
  {
    if cfg.lib.parse(raw).Some? {
      var path := FilePath(cfg.directory, Hex(cfg.lib.parse(raw).value.guid));
      assert |path + TEMP_SUFFIX| == |path| + 4;
    }
  }

  /** An accepted voucher is on disk as bytes that still parse to the voucher that was sent. */
  lemma AcceptedParses(cfg: Config, files: Files, raw: Bytes, io: ReceiveIo)
    requires ValidConfig(cfg) && ReceiveEffect(cfg, files, raw, io).1.Accepted?
    ensures
      var (files', receipt) := ReceiveEffect(cfg, files, raw, io);
      var path := FilePath(cfg.directory, receipt.guid);
      && cfg.lib.parse(raw).Some? && receipt.guid == Hex(cfg.lib.parse(raw).value.guid)
      && path in files' && cfg.lib.parse(files'[path]) == cfg.lib.parse(raw)
  {
  }

  datatype Route = NoPush | Unresolved | To(dest: VoucherDestination)

  datatype PipelineInput = PipelineInput(guid: string, serial: string, model: string, owner: string, route: Route,
                                         insert: bool, now: Time, first: Attempt)

  function Destination(route: Route): VoucherDestination {
    match route
    case To(dest) => dest
    case _ => VoucherDestination("", "", "", "")
  }

  /** The record a pipeline run hands to CreatePending; without a destination it still starts out pending. */
  function NewRecord(cfg: Config, p: PipelineInput): Row {
    var dest := Destination(p.route);
    Row(0, p.guid, FilePath(cfg.directory, p.guid), dest.url, dest.token, dest.source, dest.mode, Pending, 0, "",
        p.serial, p.model, p.owner, "", None, "", "", "", ZERO_TIME, ZERO_TIME, None, None, None)
  }

  function FreshRecord(cfg: Config, p: PipelineInput, id: nat): Row {
    Inserted(NewRecord(cfg, p), id, p.now)
  }

  /** The record a pipeline run stores: what it was given, and where the route leads, if anywhere. */
  predicate Describes(cfg: Config, p: PipelineInput, r: Row) {
    && r.guid == p.guid && r.filePath == FilePath(cfg.directory, p.guid) && r.serial == p.serial && r.model == p.model
    && r.owner == p.owner && r.originalOwner == "" && r.assignedAt == None
    && r.assignedTo == r.assignedToDid == r.assignedBy == ""
    && (p.route.To? ==> r.destination == p.route.dest.url && r.authToken == p.route.dest.token
                        && r.source == p.route.dest.source && r.mode == p.route.dest.mode)
    && (!p.route.To? ==> r.destination == r.authToken == r.source == r.mode == "")
    && r.createdAt == p.now
  }

  /**
   * After a pipeline run that could store its record there is one row more, which describes the voucher; without a
   * destination it is pending and was never attempted. Its owner can see the voucher.
   */
  lemma PipelineRecords(cfg: Config, rows: seq<Row>, grants: seq<Grant>, id: nat, p: PipelineInput)
    requires p.insert && forall r :: r in rows ==> r.id < id
    ensures
      var rows' := ProcessRows(cfg, rows, id, p);
      && |rows'| == |rows| + 1 && rows'[..|rows|] == rows
      && rows'[|rows|].id == id && Describes(cfg, p, rows'[|rows|])
      && (!p.route.To? ==>
            var r := rows'[|rows|];
            r.status == Pending && r.attempts == 0 && r.retryAfter == r.lastAttemptAt == r.deliveredAt == None)
      && Accessible(rows', grants, p.guid, p.owner)
  {
    var rows' := ProcessRows(cfg, rows, id, p);
    assert Describes(cfg, p, rows'[|rows|]);
    forall i | 0 <= i < |rows| ensures rows'[i] == rows[i] {
      assert rows[i] in rows;
    }
    assert rows'[|rows|] in rows';
  }

  /** A pipeline run that cannot store its record leaves everything as it was. */
  lemma PipelineFails(cfg: Config, rows: seq<Row>, files: Files, id: nat, p: PipelineInput)
    requires !p.insert
    ensures ProcessRows(cfg, rows, id, p) == rows && ProcessFiles(cfg, files, id, p) == files
  {
  }

  function ProcessRows(cfg: Config, rows: seq<Row>, id: nat, p: PipelineInput): seq<Row> {
    if !p.insert then rows
    else
      var record := FreshRecord(cfg, p, id);
      if p.route.To? then AttemptRows(cfg, rows + [record], record, p.first) else rows + [record]
  }

  function ProcessFiles(cfg: Config, files: Files, id: nat, p: PipelineInput): Files {
    if p.insert && p.route.To? then AttemptFiles(cfg, files, FreshRecord(cfg, p, id), p.first) else files
  }

  class VoucherReceiverHandler {
    const cfg: Config
    const fileStore: VoucherFileStore

    constructor (cfg: Config, fileStore: VoucherFileStore)
      ensures this.cfg == cfg && this.fileStore == fileStore
    {
      this.cfg, this.fileStore := cfg, fileStore;
    }

    method SaveVoucher(path: string, raw: Bytes, io: ReceiveIo) returns (ok: bool)
      modifies fileStore
      ensures ok <==> io.temp && io.rename
      ensures
        var temp, data := path + TEMP_SUFFIX, AsPem(cfg.lib, raw);
        fileStore.files == (
          if ok then (old(fileStore.files)[temp := data] - {temp})[path := data]
          else if !io.temp then old(fileStore.files)
          else if io.remove then old(fileStore.files)[temp := data] - {temp}
          else old(fileStore.files)[temp := data])
    {
      var pemData := if cfg.lib.isPem(raw) then raw else cfg.lib.wrapPem(raw);
      var tempPath := path + TEMP_SUFFIX;
      if !io.temp {
        return false;
      }
      fileStore.files := fileStore.files[tempPath := pemData];
      if !io.rename {
        if io.remove {
          fileStore.files := fileStore.files - {tempPath};
        }
        return false;
      }
      fileStore.files := (fileStore.files - {tempPath})[path := pemData];
      return true;
    }

    method Receive(raw: Bytes, io: ReceiveIo) returns (receipt: Receipt)
      requires fileStore.directory == cfg.directory
      modifies fileStore
      ensures (fileStore.files, receipt) == ReceiveEffect(cfg, old(fileStore.files), raw, io)
      ensures ReceiptFits(cfg, old(fileStore.files), raw, io, fileStore.files, receipt)
    {
      ReceiveAnswers(cfg, fileStore.files, raw, io);
      var voucher := cfg.lib.parse(raw);
      if voucher == None {
        return Invalid;
      }
      var guid := Hex(voucher.value.guid);
      if io.supplier == UnreadableKey {
        return Untrusted;
      }
      if io.supplier == Checked(false) && cfg.requireTrustedManufacturer {
        return Untrusted;
      }
      var path := FilePath(fileStore.directory, guid);
      if io.stat && path in fileStore.files {
        return Conflict;
      }
      var saved := SaveVoucher(path, raw, io);
      if !saved {
        return SaveFailed;
      }
      return Accepted(guid);
    }
  }

  class VoucherPipeline {
    const cfg: Config
    const store: VoucherTransmissionStore
    const pushService: VoucherPushService

    constructor (cfg: Config, store: VoucherTransmissionStore, pushService: VoucherPushService)
      ensures this.cfg == cfg && this.store == store && this.pushService == pushService
    {
      this.cfg, this.store, this.pushService := cfg, store, pushService;
    }

    /** Steps 4 onward: the destination has been looked up, the record is created and pushed once. */
    method ProcessVoucher(p: PipelineInput) returns (ok: bool)
      requires store.Valid() && pushService.store == store && pushService.cfg == cfg
      requires JitterFactor(p.first.jitter) && Int64(RetryInterval(cfg))
      modifies pushService.fileStore`files, store`rows, store`nextId
      ensures store.Valid()
      ensures ok <==> p.insert || !p.route.To?
      ensures store.rows == ProcessRows(cfg, old(store.rows), old(store.nextId), p)
      ensures store.nextId == if p.insert then old(store.nextId) + 1 else old(store.nextId)
      ensures pushService.fileStore.files ==
        ProcessFiles(cfg, old(pushService.fileStore.files), old(store.nextId), p)
    {
      var record := NewRecord(cfg, p);
      var id := store.CreatePending(record, p.now, p.insert);
      if id == None {
        return !p.route.To?;
      }
      record := Inserted(record, id.value, p.now);
      if p.route.To? {
        var _ := pushService.AttemptRecord(record, p.first);
      }
      return true;
    }
  }
}
