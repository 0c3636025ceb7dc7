/** voucher_push_service.go and voucher_retry_worker.go: deliver pending vouchers, retrying with a cap. */
module Delivery {
  import opened Common
  import opened Records
  import opened Queries
  import opened FileStore
  import opened TransmissionStore
  import opened Settings
  import opened Backoff

  datatype PushOutcome =
    | Delivered
    | PushFailed(permanent: bool, serverRetryAfter: Time, message: string)

  /** The outside of one attempt: how the push went, the clock, the jitter, and which store calls succeed. */
  datatype Attempt = Attempt(outcome: PushOutcome, now: Time, jitter: real, mark: bool, remove: bool)

  function MaxAttempts(cfg: Config): (n: int)
    ensures n > 0
  {
    if cfg.pushMaxAttempts > 0 then cfg.pushMaxAttempts
    else if cfg.workerMaxAttempts > 0 then cfg.workerMaxAttempts
    else 5
  }

  function RetryInterval(cfg: Config): (t: Time)
    ensures t > 0
  {
    if cfg.pushRetryInterval > 0 then cfg.pushRetryInterval
    else if cfg.workerRetryInterval > 0 then cfg.workerRetryInterval
    else 8 * HOUR
  }

  predicate Deliverable(r: Row) {
    r.filePath != "" && r.destination != ""
  }

  /** What MarkAttempt is told after an attempt. */
  datatype Mark = Mark(status: Status, attempts: int, retryAfter: Option<Time>, lastError: string, delivered: bool)

  function Verdict(cfg: Config, rec: Row, a: Attempt): Mark {
    var n := rec.attempts + 1;
    match a.outcome
    case Delivered => Mark(Succeeded, n, None, "", true)
    case PushFailed(permanent, server, message) =>
      if permanent || n >= MaxAttempts(cfg) then Mark(Failed, n, None, message, false)
      else
        var backoff := Delay(n, RetryInterval(cfg), a.jitter, cfg.round);
        Mark(Pending, n, Some(a.now + (if server > backoff then server else backoff)), message, false)
  }

  function After(cfg: Config, rec: Row, a: Attempt): Row -> Row {
    var m := Verdict(cfg, rec, a);
    (r: Row) => MarkedAttempt(r, m.status, m.attempts, m.retryAfter, m.lastError, m.delivered, a.now)
  }

  function AttemptRows(cfg: Config, rows: seq<Row>, rec: Row, a: Attempt): seq<Row> {
    if Deliverable(rec) && a.mark then UpdateRow(rows, rec.id, After(cfg, rec, a)) else rows
  }

  predicate RemovesFile(cfg: Config, rec: Row, a: Attempt) {
    Deliverable(rec) && a.mark && a.outcome == Delivered && cfg.deleteAfterSuccess && a.remove
  }

  function AttemptFiles(cfg: Config, files: Files, rec: Row, a: Attempt): Files {
    if RemovesFile(cfg, rec, a) then files - {rec.filePath} else files
  }

  /**
   * A row stays pending exactly after a transient failure with attempts left. It then waits for the longer of
   * the server's wish and a delay inside the backoff band.
   */
  lemma RescheduleBand(cfg: Config, rec: Row, a: Attempt)
    requires rec.attempts >= 0 && JitterFactor(a.jitter) && LawfulRounding(cfg.round)
    requires BackoffFits(RetryInterval(cfg), MaxAttempts(cfg))
    ensures
      var m := Verdict(cfg, rec, a);
      var d := Capped(Doubled(m.attempts, RetryInterval(cfg)));
      && (m.status == Pending <==>
            a.outcome.PushFailed? && !a.outcome.permanent && rec.attempts + 1 < MaxAttempts(cfg))
      && (m.status == Pending <==> m.retryAfter.Some?)
      && (m.status == Pending ==>
            && m.retryAfter.value - a.now >= d - d / 4 > 0
            && m.retryAfter.value - a.now >= a.outcome.serverRetryAfter
            && (m.retryAfter.value - a.now <= d + d / 4 <= 30 * HOUR
                || m.retryAfter.value - a.now == a.outcome.serverRetryAfter))
  {
    var n := rec.attempts + 1;
    if a.outcome.PushFailed? && !a.outcome.permanent && n < MaxAttempts(cfg) {
      FitsAtEveryAttempt(n, MaxAttempts(cfg), RetryInterval(cfg));
      DelayBand(n, RetryInterval(cfg), a.jitter, cfg.round);
    }
  }

  /** What a stored attempt leaves in a record whatever the outcome: one attempt more, and the clock. */
  predicate AttemptCounted(rec: Row, r: Row, a: Attempt) {
    && r.attempts == rec.attempts + 1 && r.lastAttemptAt == Some(a.now) && r.updatedAt == a.now
    && r.(status := rec.status, attempts := rec.attempts, lastError := rec.lastError, updatedAt := rec.updatedAt,
          lastAttemptAt := rec.lastAttemptAt, deliveredAt := rec.deliveredAt, retryAfter := rec.retryAfter) == rec
  }

  /** The stored record after an attempt, by the outcome and the limit that is configured. */
  lemma AttemptStored(cfg: Config, rows: seq<Row>, rec: Row, a: Attempt, i: nat)
    requires UniqueIds(rows) && i < |rows| && rows[i] == rec && a.mark
    requires rec.filePath != "" && rec.destination != ""
    ensures
      var r, n := AttemptRows(cfg, rows, rec, a)[i], rec.attempts + 1;
      && AttemptCounted(rec, r, a)
      && (a.outcome == Delivered ==>
            r.status == Succeeded && r.deliveredAt == Some(a.now) && r.retryAfter == None && r.lastError == "")
      && (a.outcome != Delivered ==> r.deliveredAt == rec.deliveredAt && r.lastError == a.outcome.message)
      && (a.outcome != Delivered && a.outcome.permanent ==> r.status == Failed && r.retryAfter == None)
    ensures a.outcome != Delivered && !a.outcome.permanent ==>
      var r, n := AttemptRows(cfg, rows, rec, a)[i], rec.attempts + 1;
      && (r.status == Pending || r.status == Failed) && (r.status == Pending <==> r.retryAfter.Some?)
      && (cfg.pushMaxAttempts > 0 ==> (r.status == Pending <==> n < cfg.pushMaxAttempts))
      && (cfg.pushMaxAttempts <= 0 && cfg.workerMaxAttempts > 0 ==>
            (r.status == Pending <==> n < cfg.workerMaxAttempts))
      && (cfg.pushMaxAttempts <= 0 && cfg.workerMaxAttempts <= 0 ==> (r.status == Pending <==> n < 5))
    ensures |AttemptRows(cfg, rows, rec, a)| == |rows|
    ensures forall j :: 0 <= j < |rows| && j != i ==> AttemptRows(cfg, rows, rec, a)[j] == rows[j]
  {
  }

  /** Without a file, a destination or a working database an attempt leaves the rows alone. */
  lemma AttemptNotStored(cfg: Config, rows: seq<Row>, files: Files, rec: Row, a: Attempt)
    requires rec.filePath == "" || rec.destination == "" || !a.mark
    ensures AttemptRows(cfg, rows, rec, a) == rows && AttemptFiles(cfg, files, rec, a) == files
  {
  }

  /** The file goes exactly after a stored delivery with removal on, if removing it works. */
  lemma AttemptRemoves(cfg: Config, files: Files, rec: Row, a: Attempt)
    requires rec.filePath != "" && rec.destination != "" && a.mark
    ensures AttemptFiles(cfg, files, rec, a) ==
      if cfg.deleteAfterSuccess && a.outcome == Delivered && a.remove then files - {rec.filePath} else files
  {
  }

  /** The push service's interval if it is set, else the worker's, else eight hours. */
  predicate ConfiguredInterval(cfg: Config, interval: Time) {
    && (cfg.pushRetryInterval > 0 ==> interval == cfg.pushRetryInterval)
    && (cfg.pushRetryInterval <= 0 && cfg.workerRetryInterval > 0 ==> interval == cfg.workerRetryInterval)
    && (cfg.pushRetryInterval <= 0 && cfg.workerRetryInterval <= 0 ==> interval == 8 * 60 * 60 * 1_000_000_000)
  }

  /**
   * A record left pending waits for the longer of the server's wish and the interval, doubled with each attempt up
   * to the 21st, at most a day, and jittered by a quarter.
   */
  lemma WaitStored(cfg: Config, rows: seq<Row>, rec: Row, a: Attempt, i: nat, interval: Time, doublings: nat)
    requires UniqueIds(rows) && i < |rows| && rows[i] == rec && Deliverable(rec) && a.mark
    requires a.outcome.PushFailed? && AttemptRows(cfg, rows, rec, a)[i].status == Pending
    requires rec.attempts >= 0 && JitterFactor(a.jitter) && LawfulRounding(cfg.round)
    requires ConfiguredInterval(cfg, interval) && doublings == (if rec.attempts > 20 then 20 else rec.attempts)
    requires interval * Pow2(doublings) < TWO_TO_63
    ensures AttemptRows(cfg, rows, rec, a)[i].retryAfter.Some?
    ensures
      var wait, doubled := AttemptRows(cfg, rows, rec, a)[i].retryAfter.value - a.now, interval * Pow2(doublings);
      var d := if doubled > 24 * 60 * 60 * 1_000_000_000 then 24 * 60 * 60 * 1_000_000_000 else doubled;
      && 0 < d - d / 4 <= wait && a.outcome.serverRetryAfter <= wait
      && (wait <= d + d / 4 || wait == a.outcome.serverRetryAfter)
  {
    StoredRetryTime(cfg, rows, rec, a, i);
    IntervalDoubles(cfg, rec.attempts + 1, interval, doublings);
    DelayBand(rec.attempts + 1, RetryInterval(cfg), a.jitter, cfg.round);
  }

  lemma StoredRetryTime(cfg: Config, rows: seq<Row>, rec: Row, a: Attempt, i: nat)
    requires i < |rows| && rows[i] == rec && Deliverable(rec) && a.mark
    requires a.outcome.PushFailed? && AttemptRows(cfg, rows, rec, a)[i].status == Pending
    ensures
      var delay := Delay(rec.attempts + 1, RetryInterval(cfg), a.jitter, cfg.round);
      AttemptRows(cfg, rows, rec, a)[i].retryAfter
        == Some(a.now + if a.outcome.serverRetryAfter > delay then a.outcome.serverRetryAfter else delay)
  {
  }

  lemma IntervalIsConfigured(cfg: Config, interval: Time)
    requires ConfiguredInterval(cfg, interval)
    ensures RetryInterval(cfg) == interval
  {
  }

  lemma IntervalDoubles(cfg: Config, n: int, interval: Time, doublings: nat)
    requires n >= 1 && ConfiguredInterval(cfg, interval) && doublings == (if n > 21 then 20 else n - 1)
    requires interval * Pow2(doublings) < TWO_TO_63
    ensures Doubled(n, RetryInterval(cfg)) == interval * Pow2(doublings) && NoOverflow(n, RetryInterval(cfg))
  {
    IntervalIsConfigured(cfg, interval);
  }

  /** With nothing configured the first retry comes six to ten hours later, or when the server says. */
  lemma FirstRetryByDefault(cfg: Config, rows: seq<Row>, rec: Row, a: Attempt, i: nat)
    requires UniqueIds(rows) && i < |rows| && rows[i] == rec && Deliverable(rec) && a.mark && rec.attempts == 0
    requires a.outcome.PushFailed? && !a.outcome.permanent && JitterFactor(a.jitter) && LawfulRounding(cfg.round)
    requires cfg.pushRetryInterval <= 0 && cfg.workerRetryInterval <= 0
    requires cfg.pushMaxAttempts <= 0 && cfg.workerMaxAttempts <= 0
    ensures AttemptRows(cfg, rows, rec, a)[i].retryAfter.Some?
    ensures
      var wait := AttemptRows(cfg, rows, rec, a)[i].retryAfter.value - a.now;
      6 * HOUR <= wait && (wait <= 10 * HOUR || wait == a.outcome.serverRetryAfter)
  {
    AttemptStored(cfg, rows, rec, a, i);
    assert Pow2(0) == 1;
    WaitStored(cfg, rows, rec, a, i, 8 * HOUR, 0);
  }

  class VoucherPushService {
    const cfg: Config
    const fileStore: VoucherFileStore
    const store: VoucherTransmissionStore

    constructor (cfg: Config, fileStore: VoucherFileStore, store: VoucherTransmissionStore)
      ensures this.cfg == cfg && this.fileStore == fileStore && this.store == store
    {
      this.cfg, this.fileStore, this.store := cfg, fileStore, store;
    }

    method AttemptRecord(rec: Row, a: Attempt) returns (ok: bool)
      requires store.Valid() && JitterFactor(a.jitter) && Int64(RetryInterval(cfg))
      modifies fileStore`files, store`rows
      ensures store.Valid()
      ensures ok <==> Deliverable(rec) && a.outcome == Delivered && a.mark
      ensures store.rows == AttemptRows(cfg, old(store.rows), rec, a)
      ensures fileStore.files == AttemptFiles(cfg, old(fileStore.files), rec, a)
    {
      if rec.filePath == "" {
        return false;
      }
      if rec.destination == "" {
        return false;
      }
      var attempts := rec.attempts + 1;
      match a.outcome
      case PushFailed(permanent, serverRetryAfter, message) =>
        var status := Pending;
        var retryAfter: Option<Time> := None;
        if permanent {
          status := Failed;
        } else if attempts >= MaxAttempts(cfg) {
          status := Failed;
        } else {
          var backoff := BackoffDuration(attempts, RetryInterval(cfg), a.jitter, cfg.round);
          if serverRetryAfter > backoff {
            backoff := serverRetryAfter;
          }
          retryAfter := Some(a.now + backoff);
        }
        assert Verdict(cfg, rec, a) == Mark(status, attempts, retryAfter, message, false);
        var _ := store.MarkAttempt(rec.id, status, attempts, retryAfter, message, false, a.now, a.mark);
        SameUpdate(cfg, old(store.rows), rec, a, status, attempts, retryAfter, message, false);
        return false;
      case Delivered =>
        var marked := store.MarkAttempt(rec.id, Succeeded, attempts, None, "", true, a.now, a.mark);
        SameUpdate(cfg, old(store.rows), rec, a, Succeeded, attempts, None, "", true);
        if !marked {
          return false;
        }
        if cfg.deleteAfterSuccess && a.remove {
          fileStore.files := fileStore.files - {rec.filePath};
        }
        return true;
    }
  }

  lemma SameUpdate(cfg: Config, rows: seq<Row>, rec: Row, a: Attempt, status: Status, attempts: int,
                   retryAfter: Option<Time>, message: string, delivered: bool)
    requires Verdict(cfg, rec, a) == Mark(status, attempts, retryAfter, message, delivered)
    ensures UpdateRow(rows, rec.id, After(cfg, rec, a)) ==
      UpdateRow(rows, rec.id, (r: Row) => MarkedAttempt(r, status, attempts, retryAfter, message, delivered, a.now))
  {
  }

  /** A batch works through its snapshots one after the other. */
  function BatchRows(cfg: Config, rows: seq<Row>, batch: seq<Row>, attempts: seq<Attempt>): seq<Row>
    requires |batch| <= |attempts|
  {
    if batch == [] then rows
    else
      var n := |batch| - 1;
      AttemptRows(cfg, BatchRows(cfg, rows, batch[..n], attempts), batch[n], attempts[n])
  }

  function BatchFiles(cfg: Config, files: Files, batch: seq<Row>, attempts: seq<Attempt>): Files
    requires |batch| <= |attempts|
  {
    if batch == [] then files
    else
      var n := |batch| - 1;
      AttemptFiles(cfg, BatchFiles(cfg, files, batch[..n], attempts), batch[n], attempts[n])
  }

  /** Some legal query result, worked through up to `stop` records, leads from the old rows to the new. */
  ghost predicate BatchStep(cfg: Config, size: nat, now: Time, rows: seq<Row>, rows': seq<Row>, attempts: seq<Attempt>,
                            stop: nat)
  {
    exists batch: seq<Row> :: BatchStepAt(cfg, size, now, rows, rows', batch, attempts, stop)
  }

  ghost predicate BatchStepAt(cfg: Config, size: nat, now: Time, rows: seq<Row>, rows': seq<Row>, batch: seq<Row>,
                              attempts: seq<Attempt>, stop: nat)
  {
    && Limited(batch, Matching(rows, IsDue(now)), DueFirst, size)
    && |batch| <= |attempts|
    && rows' == BatchRows(cfg, rows, Prefix(batch, stop), attempts)
  }

  function Prefix(s: seq<Row>, n: nat): seq<Row> {
    if n < |s| then s[..n] else s
  }

  class VoucherRetryWorker {
    const cfg: Config
    const store: VoucherTransmissionStore
    const pushService: VoucherPushService
    const batchSize: nat

    /** Without a configuration the batch size is 10; otherwise it follows the worker's attempt limit, clamped. */
    constructor (cfg: Config, store: VoucherTransmissionStore, pushService: VoucherPushService)
      ensures this.cfg == cfg && this.store == store && this.pushService == pushService
      ensures 5 <= batchSize <= 50
      ensures cfg.workerMaxAttempts <= 0 ==> batchSize == 10
      ensures 0 < cfg.workerMaxAttempts < 5 ==> batchSize == 5
      ensures 5 <= cfg.workerMaxAttempts <= 50 ==> batchSize == cfg.workerMaxAttempts
      ensures 50 < cfg.workerMaxAttempts ==> batchSize == 50
    {
      var size := 10;
      if cfg.workerMaxAttempts > 0 {
        size := cfg.workerMaxAttempts;
      }
      if size < 5 {
        size := 5;
      }
      if size > 50 {
        size := 50;
      }
      this.cfg, this.store, this.pushService, this.batchSize := cfg, store, pushService, size;
    }

    /** `stop` is the number of records after which the context is found cancelled. */
    method ProcessBatch(now: Time, attempts: seq<Attempt>, queryOk: bool, stop: nat)
      requires store.Valid() && pushService.store == store && pushService.cfg == cfg
      requires |attempts| >= batchSize
      requires forall a :: a in attempts ==> JitterFactor(a.jitter)
      requires Int64(RetryInterval(cfg))
      modifies pushService.fileStore`files, store`rows
      ensures store.Valid()
      ensures !queryOk ==>
        store.rows == old(store.rows) && pushService.fileStore.files == old(pushService.fileStore.files)
      ensures queryOk ==> exists batch: seq<Row> ::
        && BatchStepAt(cfg, batchSize, now, old(store.rows), store.rows, batch, attempts, stop)
        && pushService.fileStore.files ==
             BatchFiles(cfg, old(pushService.fileStore.files), Prefix(batch, stop), attempts)
    {
      if !queryOk {
        return;
      }
      var records := store.PendingForRetry(batchSize, now);
      WorkThrough(records, attempts, stop);
      assert BatchStepAt(cfg, batchSize, now, old(store.rows), store.rows, records, attempts, stop);
    }

    /** The loop over the fetched records. */
    method WorkThrough(records: seq<Row>, attempts: seq<Attempt>, stop: nat)
      requires store.Valid() && pushService.store == store && pushService.cfg == cfg
      requires |records| <= |attempts|
      requires forall a :: a in attempts ==> JitterFactor(a.jitter)
      requires Int64(RetryInterval(cfg))
      modifies pushService.fileStore`files, store`rows
      ensures store.Valid()
      ensures store.rows == BatchRows(cfg, old(store.rows), Prefix(records, stop), attempts)
      ensures pushService.fileStore.files ==
        BatchFiles(cfg, old(pushService.fileStore.files), Prefix(records, stop), attempts)
    {
      var i := 0;
      while i < |records| && i < stop
        invariant 0 <= i <= |records| && i <= stop
        invariant store.Valid()
        invariant store.rows == BatchRows(cfg, old(store.rows), records[..i], attempts)
        invariant pushService.fileStore.files ==
          BatchFiles(cfg, old(pushService.fileStore.files), records[..i], attempts)
      {
        assert records[..i + 1][..i] == records[..i];
        var _ := pushService.AttemptRecord(records[i], attempts[i]);
        i := i + 1;
      }
      assert records[..i] == Prefix(records, stop);
    }
  }

  // ---------- the rows a batch selected, and the others ----------

  lemma UpdateKeepsOthers(rows: seq<Row>, id: nat, f: Row -> Row, r: Row)
    requires r.id != id && r in rows
    ensures r in UpdateRow(rows, id, f)
  {
    var i :| 0 <= i < |rows| && rows[i] == r;
    assert UpdateRow(rows, id, f)[i] == r;
  }

  /** Records attempted in one batch have different ids, so each snapshot is still current at its turn. */
  lemma {:induction false} SnapshotsStayCurrent(cfg: Config, rows: seq<Row>, batch: seq<Row>,
                                               attempts: seq<Attempt>, r: Row)
    requires UniqueIds(rows) && |batch| <= |attempts|
    requires r in rows && forall b :: b in batch ==> b.id != r.id
    ensures r in BatchRows(cfg, rows, batch, attempts)
    ensures UniqueIds(BatchRows(cfg, rows, batch, attempts))
  {
    if batch != [] {
      var n := |batch| - 1;
      SnapshotsStayCurrent(cfg, rows, batch[..n], attempts, r);
      var mid := BatchRows(cfg, rows, batch[..n], attempts);
      assert batch[n].id != r.id;
      UpdateKeepsOthers(mid, batch[n].id, After(cfg, batch[n], attempts[n]), r);
    }
  }

  /** Rows outside the batch, in particular all that are not pending, come through unchanged. */
  lemma BatchTouchesOnlyDueRows(cfg: Config, size: nat, now: Time, rows: seq<Row>, rows': seq<Row>, batch: seq<Row>,
                                attempts: seq<Attempt>, stop: nat, r: Row)
    requires UniqueIds(rows) && BatchStepAt(cfg, size, now, rows, rows', batch, attempts, stop)
    requires r in rows && (r.status != Pending || forall k :: 0 <= k < |batch| && k < stop ==> batch[k] != r)
    ensures r in rows'
  {
    forall b | b in batch ensures b in rows && IsDue(now)(b) {
      assert b in Elems(batch);
    }
    assert forall b :: b in Prefix(batch, stop) ==> b in batch;
    SnapshotsStayCurrent(cfg, rows, Prefix(batch, stop), attempts, r);
  }

  /** The last record of a batch is still the stored one when its turn comes. */
  lemma LastStillCurrent(cfg: Config, rows: seq<Row>, batch: seq<Row>, attempts: seq<Attempt>)
    requires UniqueIds(rows) && 0 < |batch| <= |attempts| && Distinct(batch)
    requires forall b :: b in batch ==> b in rows
    ensures
      var before := BatchRows(cfg, rows, batch[..|batch| - 1], attempts);
      batch[|batch| - 1] in before && UniqueIds(before)
  {
    var n := |batch| - 1;
    forall b | b in batch[..n] ensures b.id != batch[n].id {
      var i :| 0 <= i < n && batch[i] == b;
      assert batch[n] in rows && b in rows && b != batch[n];
    }
    SnapshotsStayCurrent(cfg, rows, batch[..n], attempts, batch[n]);
  }
}
