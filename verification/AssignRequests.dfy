/** What one assign request does for each of its serials, when nothing fails. */
module AssignRequests {
  import opened Common
  import opened Vouchers
  import opened Records
  import opened FileStore
  import opened TransmissionStore
  import opened Settings
  import opened Assignment

  /** Different serials of the request belong to different vouchers, and every record fits its file. */
  ghost predicate Apart(cfg: Config, w: World, serials: seq<string>) {
    && UniqueIds(w.rows) && Distinct(serials)
    && (forall r :: r in w.rows ==> Canonical(r.guid) && HeaderMatches(cfg, w, r))
    && (forall r, q :: r in w.rows && q in w.rows && r.serial in serials && q.serial in serials ==>
          r.serial == q.serial || r.guid != q.guid)
  }

  /** Whichever newest record the serial has, the caller may assign it, and the holder can sign its voucher over. */
  ghost predicate Ready(cfg: Config, w: World, serial: string, caller: Caller) {
    && (exists r :: r in w.rows && r.serial == serial)
    && forall rec :: Newest(w.rows, HasSerial(serial), Some(rec)) ==>
         Assignable(rec) && MaySee(w, caller, rec) && HolderSigns(cfg, w, rec)
  }

  ghost predicate MaySee(w: World, caller: Caller, rec: Row) {
    caller.auth == GlobalToken || caller.fingerprint == "" || !Stranger(w, caller.fingerprint, rec)
  }

  predicate HolderSigns(cfg: Config, w: World, rec: Row) {
    var stored := Stored(cfg.lib, w.files, FilePath(cfg.directory, rec.guid));
    stored.Some? && cfg.holder == Some(Tip(stored.value))
  }

  predicate SameFile(files: Files, files': Files, p: string) {
    (p in files <==> p in files') && (p in files ==> files[p] == files'[p])
  }

  /** The serials of `rest` are as they were: same records, same files, no access lost. */
  ghost predicate Agrees(cfg: Config, w: World, mid: World, rest: set<string>) {
    && UniqueIds(mid.rows)
    && (forall r: Row :: r.serial in rest ==> (r in mid.rows <==> r in w.rows))
    && (forall r :: r in w.rows && r.serial in rest ==> SameFile(w.files, mid.files, FilePath(cfg.directory, r.guid)))
    && (forall g :: g in w.grants ==> g in mid.grants)
    && (forall guid, fp :: DirectlyOwned(w.rows, guid, fp) ==> DirectlyOwned(mid.rows, guid, fp))
  }

  lemma NewestAgrees(cfg: Config, w: World, mid: World, rest: set<string>, serial: string, hit: Option<Row>)
    requires Agrees(cfg, w, mid, rest) && serial in rest
    ensures Newest(mid.rows, HasSerial(serial), hit) <==> Newest(w.rows, HasSerial(serial), hit)
  {
  }

  lemma StillSees(cfg: Config, w: World, mid: World, rest: set<string>, caller: Caller, rec: Row)
    requires Agrees(cfg, w, mid, rest) && MaySee(w, caller, rec)
    ensures MaySee(mid, caller, rec)
  {
    var fp := caller.fingerprint;
    if r :| r in w.rows && r.guid == rec.guid && r.owner == fp {
      assert DirectlyOwned(w.rows, rec.guid, fp);
    }
  }

  /** A ready serial is answered "ok", and its record assigned, also after others were. */
  lemma ReadyIsAssigned(cfg: Config, w: World, mid: World, rest: set<string>, call: AssignCall, hit: Option<Row>,
                        io: AssignIo)
    requires cfg.directory != "" && Agrees(cfg, w, mid, rest) && call.serial in rest && AllAssignOk(io)
    requires forall r :: r in w.rows ==> Canonical(r.guid)
    requires Ready(cfg, w, call.serial, call.caller) && call.key.kind != OtherKind
    requires SerialHit(mid, call.serial, io.lookup, hit)
    ensures
      var (end, answer) := AssignEffect(cfg, mid, call, hit, io);
      && answer.error == None && hit.Some?
      && exists r :: r in end.rows && GivenBy(cfg, r, call.serial, call.key, call.did, call.caller)
  {
    NewestAgrees(cfg, w, mid, rest, call.serial, hit);
    assert hit.Some?;
    var rec := hit.value;
    StillSees(cfg, w, mid, rest, call.caller, rec);
    assert HasSerial(call.serial)(rec) && rec in w.rows;
    DeniedIff(mid, call, rec, io.access);
    AnswerMeans(cfg, mid, call, rec, io);
    MarkedRow(cfg, mid, call, rec, io);
  }

  lemma MarkedRow(cfg: Config, w: World, call: AssignCall, rec: Row, io: AssignIo)
    requires rec in w.rows && rec.serial == call.serial && io.mark
    requires AssignEffect(cfg, w, call, Some(rec), io).1.error == None
    ensures exists r :: r in AssignEffect(cfg, w, call, Some(rec), io).0.rows
              && GivenBy(cfg, r, call.serial, call.key, call.did, call.caller)
  {
    var rows := AssignEffect(cfg, w, call, Some(rec), io).0.rows;
    var i :| 0 <= i < |w.rows| && w.rows[i] == rec;
    assert rows[i] in rows && GivenBy(cfg, rows[i], call.serial, call.key, call.did, call.caller);
  }

  // ---------- one call leaves the other serials as they were ----------

  lemma RowsOfOthersStay(cfg: Config, mid: World, call: AssignCall, rec: Row, io: AssignIo)
    requires UniqueIds(mid.rows) && rec in mid.rows && rec.serial == call.serial
    ensures
      var end := AssignEffect(cfg, mid, call, Some(rec), io).0;
      && UniqueIds(end.rows)
      && (forall r: Row :: r.serial != call.serial ==> (r in end.rows <==> r in mid.rows))
  {
    var end := AssignEffect(cfg, mid, call, Some(rec), io).0;
    forall r: Row | r.serial != call.serial ensures r in end.rows <==> r in mid.rows {
      if r in mid.rows {
        var i :| 0 <= i < |mid.rows| && mid.rows[i] == r;
        assert end.rows[i] == r;
      }
      if r in end.rows {
        var i :| 0 <= i < |end.rows| && end.rows[i] == r;
        assert mid.rows[i] in mid.rows;
      }
    }
  }

  lemma OwnersStay(cfg: Config, mid: World, call: AssignCall, rec: Row, io: AssignIo, guid: string, fp: string)
    requires DirectlyOwned(mid.rows, guid, fp)
    ensures DirectlyOwned(AssignEffect(cfg, mid, call, Some(rec), io).0.rows, guid, fp)
  {
    UpdateKeepsOwners(mid.rows, rec.id, (r: Row) =>
      MarkedAssigned(r, cfg.lib.fingerprint(call.key), call.did, call.caller.fingerprint, io.now), guid, fp);
  }

  lemma GrantsStay(cfg: Config, mid: World, call: AssignCall, rec: Row, io: AssignIo, g: Grant)
    requires g in mid.grants
    ensures g in AssignEffect(cfg, mid, call, Some(rec), io).0.grants
  {
  }

  /** The call writes the backup and the file of its own voucher only. */
  lemma FilesOfOthersStay(cfg: Config, mid: World, call: AssignCall, rec: Row, io: AssignIo, h: string)
    requires cfg.directory != "" && Canonical(rec.guid) && Canonical(h) && h != rec.guid && HeaderMatches(cfg, mid, rec)
    ensures SameFile(mid.files, AssignEffect(cfg, mid, call, Some(rec), io).0.files, FilePath(cfg.directory, h))
  {
    PathsDistinct(cfg.directory, rec.guid, h);
    PathsDistinct(cfg.directory, h, rec.guid);
  }

  lemma OthersAgree(cfg: Config, w: World, serials: seq<string>, mid: World, rest: set<string>, call: AssignCall,
                    hit: Option<Row>, io: AssignIo)
    requires cfg.directory != "" && Apart(cfg, w, serials) && Agrees(cfg, w, mid, rest)
    requires call.serial in rest && (forall s :: s in rest ==> s in serials)
    requires SerialHit(mid, call.serial, io.lookup, hit)
    ensures Agrees(cfg, w, AssignEffect(cfg, mid, call, hit, io).0, rest - {call.serial})
  {
    if hit.Some? {
      var rec, end := hit.value, AssignEffect(cfg, mid, call, hit, io).0;
      assert rec in w.rows;
      assert HeaderMatches(cfg, mid, rec);
      RowsOfOthersStay(cfg, mid, call, rec, io);
      forall r | r in w.rows && r.serial in rest - {call.serial}
        ensures SameFile(w.files, end.files, FilePath(cfg.directory, r.guid))
      {
        FilesOfOthersStay(cfg, mid, call, rec, io, r.guid);
      }
      forall g | g in w.grants ensures g in end.grants {
        GrantsStay(cfg, mid, call, rec, io, g);
      }
      forall guid, fp | DirectlyOwned(w.rows, guid, fp) ensures DirectlyOwned(end.rows, guid, fp) {
        OwnersStay(cfg, mid, call, rec, io, guid, fp);
      }
    }
  }

  // ---------- the whole request ----------

  ghost predicate Done(cfg: Config, end: World, answer: AssignResult, serial: string, key: PublicKey,
                       did: string, caller: Caller)
  {
    answer.error == None && exists r :: r in end.rows && GivenBy(cfg, r, serial, key, did, caller)
  }

  /** The first `n` calls have been served, and those of them that were ready are done. */
  ghost predicate Progressed(cfg: Config, w: World, serials: seq<string>, key: PublicKey, did: string, caller: Caller,
                             n: nat, mid: World, rs: seq<AssignResult>)
  {
    && n <= |serials| && |rs| == n && Agrees(cfg, w, mid, Elems(serials[n..]))
    && forall i :: 0 <= i < n && Ready(cfg, w, serials[i], caller) ==>
         Done(cfg, mid, rs[i], serials[i], key, did, caller)
  }

  lemma DoneStays(cfg: Config, mid: World, call: AssignCall, hit: Option<Row>, io: AssignIo,
                  answer: AssignResult, serial: string)
    requires UniqueIds(mid.rows) && SerialHit(mid, call.serial, io.lookup, hit) && serial != call.serial
    requires Done(cfg, mid, answer, serial, call.key, call.did, call.caller)
    ensures Done(cfg, AssignEffect(cfg, mid, call, hit, io).0, answer, serial, call.key, call.did, call.caller)
  {
    if hit.Some? { RowsOfOthersStay(cfg, mid, call, hit.value, io); }
    var r :| r in mid.rows && GivenBy(cfg, r, serial, call.key, call.did, call.caller);
    assert r in AssignEffect(cfg, mid, call, hit, io).0.rows;
  }

  lemma OneMoreServed(cfg: Config, w: World, serials: seq<string>, n: nat, mid: World, rs: seq<AssignResult>,
                      call: AssignCall, hit: Option<Row>, io: AssignIo)
    requires cfg.directory != "" && Apart(cfg, w, serials) && n < |serials| && call.serial == serials[n]
    requires call.key.kind != OtherKind && AllAssignOk(io) && SerialHit(mid, call.serial, io.lookup, hit)
    requires Progressed(cfg, w, serials, call.key, call.did, call.caller, n, mid, rs)
    ensures
      var (end, answer) := AssignEffect(cfg, mid, call, hit, io);
      Progressed(cfg, w, serials, call.key, call.did, call.caller, n + 1, end, rs + [answer])
  {
    var (end, answer) := AssignEffect(cfg, mid, call, hit, io);
    var rest := Elems(serials[n..]);
    assert serials[n..][0] == serials[n] && call.serial in rest;
    assert rest - {call.serial} == Elems(serials[n + 1..]) by { RestOf(serials, n); }
    OthersAgree(cfg, w, serials, mid, rest, call, hit, io);
    forall i | 0 <= i < n + 1 && Ready(cfg, w, serials[i], call.caller)
      ensures Done(cfg, end, (rs + [answer])[i], serials[i], call.key, call.did, call.caller)
    {
      if i < n {
        DoneStays(cfg, mid, call, hit, io, rs[i], serials[i]);
      } else {
        ReadyIsAssigned(cfg, w, mid, rest, call, hit, io);
      }
    }
  }

  lemma RestOf(serials: seq<string>, n: nat)
    requires Distinct(serials) && n < |serials|
    ensures Elems(serials[n..]) - {serials[n]} == Elems(serials[n + 1..])
  {
    assert serials[n..] == [serials[n]] + serials[n + 1..];
    assert serials[n] !in serials[n + 1..];
  }

  lemma {:induction false} PrefixServed(cfg: Config, w: World, serials: seq<string>, owner: NewOwner, caller: Caller,
                                       hits: seq<Option<Row>>, ios: seq<AssignIo>, n: nat)
    requires owner.key.Some? && owner.key.value.kind != OtherKind && |hits| == |ios| == |serials| && n <= |serials|
    requires cfg.directory != "" && Apart(cfg, w, serials) && forall i :: 0 <= i < |ios| ==> AllAssignOk(ios[i])
    requires BatchHits(cfg, w, Requests(serials, owner, caller), hits, ios)
    ensures
      var (mid, rs) := BatchEffect(cfg, w, Requests(serials, owner, caller)[..n], hits[..n], ios[..n]);
      Progressed(cfg, w, serials, owner.key.value, owner.did, caller, n, mid, rs)
  {
    var calls := Requests(serials, owner, caller);
    if n > 0 {
      PrefixServed(cfg, w, serials, owner, caller, hits, ios, n - 1);
      assert calls[..n][..n - 1] == calls[..n - 1] && hits[..n][..n - 1] == hits[..n - 1];
      assert ios[..n][..n - 1] == ios[..n - 1];
      assert HitAt(cfg, w, calls, hits, ios, n - 1);
      var (mid, rs) := BatchEffect(cfg, w, calls[..n - 1], hits[..n - 1], ios[..n - 1]);
      OneMoreServed(cfg, w, serials, n - 1, mid, rs, calls[n - 1], hits[n - 1], ios[n - 1]);
    }
  }

  /**
   * A request for different vouchers in which no call fails: every serial that was ready is answered "ok", and its
   * record is assigned to the owner the request names, whichever equally new records were picked.
   */
  lemma EachReadyIsAssigned(cfg: Config, w: World, serials: seq<string>, owner: NewOwner, caller: Caller,
                            ios: seq<AssignIo>, w': World, results: seq<AssignResult>)
    requires owner.key.Some? && owner.key.value.kind != OtherKind && |ios| == |serials|
    requires cfg.directory != "" && Apart(cfg, w, serials) && forall i :: 0 <= i < |ios| ==> AllAssignOk(ios[i])
    requires ServedAs(cfg, w, Requests(serials, owner, caller), ios, w', results)
    ensures |results| == |serials| && forall i :: 0 <= i < |serials| && Ready(cfg, w, serials[i], caller) ==>
      Done(cfg, w', results[i], serials[i], owner.key.value, owner.did, caller)
  {
    var calls, n := Requests(serials, owner, caller), |serials|;
    var hits: seq<Option<Row>> :| |hits| == |calls|
      && BatchHits(cfg, w, calls, hits, ios) && (w', results) == BatchEffect(cfg, w, calls, hits, ios);
    PrefixServed(cfg, w, serials, owner, caller, hits, ios, n);
    assert calls[..n] == calls && hits[..n] == hits && ios[..n] == ios;
  }
}
