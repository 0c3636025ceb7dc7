/** What the retry worker's batches achieve: when retries end, and exactly when a record is never attempted. */
module Progress {
  import opened Common
  import opened Vouchers
  import opened Records
  import opened Queries
  import opened FileStore
  import opened TransmissionStore
  import opened Settings
  import opened Backoff
  import opened Assignment
  import opened Delivery
  import opened Intake
  import opened Runs
  import Safety

  function Weight(cfg: Config, r: Row): nat {
    if r.status == Pending && Deliverable(r)
    then if MaxAttempts(cfg) - r.attempts > 1 then MaxAttempts(cfg) - r.attempts else 1
    else 0
  }

  /** Pushes still owed to deliverable pending rows. */
  function Measure(cfg: Config, rows: seq<Row>): nat {
    if rows == [] then 0 else Measure(cfg, rows[..|rows| - 1]) + Weight(cfg, rows[|rows| - 1])
  }

  lemma {:induction false} MeasureOfUpdate(cfg: Config, rows: seq<Row>, r: Row, f: Row -> Row)
    requires UniqueIds(rows) && r in rows
    ensures Measure(cfg, UpdateRow(rows, r.id, f)) + Weight(cfg, r) == Measure(cfg, rows) + Weight(cfg, f(r))
  {
    var n := |rows| - 1;
    var updated := UpdateRow(rows, r.id, f);
    assert updated[..n] == UpdateRow(rows[..n], r.id, f);
    if rows[n] == r {
      assert forall i :: 0 <= i < n ==> rows[i].id != r.id;
      assert updated[..n] == rows[..n];
    } else {
      assert r in rows[..n];
      MeasureOfUpdate(cfg, rows[..n], r, f);
    }
  }

  lemma AttemptDecreases(cfg: Config, rows: seq<Row>, r: Row, a: Attempt)
    requires UniqueIds(rows) && r in rows && r.status == Pending
    ensures Measure(cfg, AttemptRows(cfg, rows, r, a)) <= Measure(cfg, rows)
    ensures Deliverable(r) && a.mark ==> Measure(cfg, AttemptRows(cfg, rows, r, a)) < Measure(cfg, rows)
  {
    MeasureOfUpdate(cfg, rows, r, After(cfg, r, a));
  }

  /** Some record of the batch is deliverable and its outcome gets stored. */
  ghost predicate Productive(batch: seq<Row>, attempts: seq<Attempt>)
    requires |batch| <= |attempts|
  {
    exists k :: 0 <= k < |batch| && Deliverable(batch[k]) && attempts[k].mark
  }

  lemma ProductiveLastOrBefore(batch: seq<Row>, attempts: seq<Attempt>)
    requires 0 < |batch| <= |attempts|
    ensures
      var n := |batch| - 1;
      Productive(batch, attempts) ==> Productive(batch[..n], attempts) || (Deliverable(batch[n]) && attempts[n].mark)
  {
    var n := |batch| - 1;
    if Productive(batch, attempts) {
      var k :| 0 <= k < |batch| && Deliverable(batch[k]) && attempts[k].mark;
      assert k < n ==> batch[..n][k] == batch[k];
    }
  }

  lemma {:induction false} BatchDecreases(cfg: Config, rows: seq<Row>, batch: seq<Row>, attempts: seq<Attempt>)
    requires UniqueIds(rows) && |batch| <= |attempts| && Distinct(batch)
    requires forall b :: b in batch ==> b in rows && b.status == Pending
    ensures UniqueIds(BatchRows(cfg, rows, batch, attempts))
    ensures Measure(cfg, BatchRows(cfg, rows, batch, attempts)) <= Measure(cfg, rows)
    ensures Productive(batch, attempts) ==> Measure(cfg, BatchRows(cfg, rows, batch, attempts)) < Measure(cfg, rows)
  {
    if batch != [] {
      var n := |batch| - 1;
      BatchDecreases(cfg, rows, batch[..n], attempts);
      LastStillCurrent(cfg, rows, batch, attempts);
      ProductiveLastOrBefore(batch, attempts);
      assert batch[n] in batch;
      AttemptDecreases(cfg, BatchRows(cfg, rows, batch[..n], attempts), batch[n], attempts[n]);
    }
  }

  // ---------- a deliverable record gets a slot exactly when too few records block it ----------

  ghost predicate HoldsDeliverable(batch: seq<Row>) {
    exists k :: 0 <= k < |batch| && Deliverable(batch[k])
  }

  /** Due records that no batch can deliver, and that may be listed ahead of every one it could. */
  ghost function Blockers(rows: seq<Row>, now: Time): set<Row> {
    set u | u in rows && IsDue(now)(u) && !Deliverable(u) && AheadOfDeliverable(rows, now, u)
  }

  ghost predicate AheadOfDeliverable(rows: seq<Row>, now: Time, u: Row) {
    forall d :: d in rows && IsDue(now)(d) && Deliverable(d) ==> DueFirst(u, d)
  }

  /** An answer without a deliverable record, although one is due, is full of blockers. */
  lemma FullOfBlockers(rows: seq<Row>, now: Time, size: nat, batch: seq<Row>, due: Row)
    requires Limited(batch, Matching(rows, IsDue(now)), DueFirst, size) && !HoldsDeliverable(batch)
    requires due in rows && IsDue(now)(due) && Deliverable(due)
    ensures size <= |Blockers(rows, now)|
  {
    var all := Matching(rows, IsDue(now));
    assert forall u :: u in batch ==> !Deliverable(u);
    forall u | u in Elems(batch) ensures u in Blockers(rows, now) {
      assert u in all && u in batch;
      assert forall d :: d in rows && IsDue(now)(d) && Deliverable(d) ==> d in all && d !in batch;
    }
    DistinctCount(batch);
    SubsetCount(Elems(batch), Blockers(rows, now));
    assert due in all && due !in Elems(batch);
    SubsetCount(Elems(batch) + {due}, all);
  }

  /** Pigeonhole: with fewer blockers than slots some deliverable record is among those selected. */
  lemma FewBlockers(rows: seq<Row>, now: Time, size: nat, batch: seq<Row>, due: Row)
    requires Limited(batch, Matching(rows, IsDue(now)), DueFirst, size)
    requires due in rows && IsDue(now)(due) && Deliverable(due)
    requires |Blockers(rows, now)| < size
    ensures HoldsDeliverable(batch)
  {
    if !HoldsDeliverable(batch) {
      FullOfBlockers(rows, now, size, batch, due);
    }
  }

  /** With as many blockers as slots, the first of them are a legal answer to the query. */
  lemma BlockersFillBatch(rows: seq<Row>, now: Time, size: nat, due: Row) returns (batch: seq<Row>)
    requires due in rows && IsDue(now)(due) && Deliverable(due)
    requires size <= |Blockers(rows, now)|
    ensures Limited(batch, Matching(rows, IsDue(now)), DueFirst, size)
    ensures !HoldsDeliverable(batch)
  {
    var all, blockers := Matching(rows, IsDue(now)), Blockers(rows, now);
    batch := LimitedExists(blockers, DueFirst, size);
    forall r, s | r in all && r !in blockers && s in blockers ensures DueFirst(s, r) {
      BlockerBefore(rows, now, s, r, due);
    }
    LimitedByInitial(batch, blockers, all, DueFirst, size);
    forall k | 0 <= k < |batch| ensures batch[k] in blockers {
      assert batch[k] in Elems(batch);
    }
  }

  /** A blocker comes before every due record that is not one. */
  lemma BlockerBefore(rows: seq<Row>, now: Time, s: Row, r: Row, due: Row)
    requires due in rows && IsDue(now)(due) && Deliverable(due)
    requires s in Blockers(rows, now) && r in Matching(rows, IsDue(now))
    ensures r in Blockers(rows, now) || DueFirst(s, r)
  {
  }

  /**
   * The exact condition: whichever legal answer the query gives, it holds a deliverable record, if and only if
   * there are fewer blockers than slots.
   */
  lemma DeliverableGetsASlotIff(rows: seq<Row>, now: Time, size: nat, due: Row)
    requires due in rows && IsDue(now)(due) && Deliverable(due)
    ensures (forall batch: seq<Row> :: Limited(batch, Matching(rows, IsDue(now)), DueFirst, size)
              ==> HoldsDeliverable(batch))
      <==> |Blockers(rows, now)| < size
  {
    if |Blockers(rows, now)| < size {
      forall batch: seq<Row> | Limited(batch, Matching(rows, IsDue(now)), DueFirst, size)
        ensures HoldsDeliverable(batch)
      {
        FewBlockers(rows, now, size, batch, due);
      }
    } else {
      var batch := BlockersFillBatch(rows, now, size, due);
    }
  }

  // ---------- retries end ----------

  /** A batch that finds a deliverable record due, with few blockers, no cancellation and a working database. */
  ghost predicate MustProgress(rows: seq<Row>, size: nat, input: BatchInput) {
    && (exists r :: r in rows && IsDue(input.now)(r) && Deliverable(r))
    && |Blockers(rows, input.now)| < size
    && input.stop >= size
    && (forall a :: a in input.attempts ==> a.mark)
  }

  datatype BatchInput = BatchInput(now: Time, attempts: seq<Attempt>, stop: nat)

  ghost predicate Batch(cfg: Config, size: nat, input: BatchInput, rows: seq<Row>, rows': seq<Row>) {
    BatchStep(cfg, size, input.now, rows, rows', input.attempts, input.stop)
  }

  /** No batch raises the pushes still owed, whatever fails in it. */
  lemma BatchNeverRaises(cfg: Config, size: nat, input: BatchInput, rows: seq<Row>, rows': seq<Row>, batch: seq<Row>)
    requires UniqueIds(rows)
    requires BatchStepAt(cfg, size, input.now, rows, rows', batch, input.attempts, input.stop)
    ensures UniqueIds(rows') && Measure(cfg, rows') <= Measure(cfg, rows)
    ensures Productive(Prefix(batch, input.stop), input.attempts) ==> Measure(cfg, rows') < Measure(cfg, rows)
  {
    var done := Prefix(batch, input.stop);
    forall b | b in done ensures b in rows && b.status == Pending {
      assert b in batch && b in Elems(batch);
    }
    assert Distinct(done);
    BatchDecreases(cfg, rows, done, input.attempts);
  }

  lemma BatchProgress(cfg: Config, size: nat, input: BatchInput, rows: seq<Row>, rows': seq<Row>)
    requires UniqueIds(rows) && Batch(cfg, size, input, rows, rows')
    ensures UniqueIds(rows') && Measure(cfg, rows') <= Measure(cfg, rows)
    ensures MustProgress(rows, size, input) ==> Measure(cfg, rows') < Measure(cfg, rows)
  {
    var batch: seq<Row> :| BatchStepAt(cfg, size, input.now, rows, rows', batch, input.attempts, input.stop);
    BatchNeverRaises(cfg, size, input, rows, rows', batch);
    if MustProgress(rows, size, input) {
      MustBeProductive(rows, size, input, batch);
    }
  }

  lemma MustBeProductive(rows: seq<Row>, size: nat, input: BatchInput, batch: seq<Row>)
    requires Limited(batch, Matching(rows, IsDue(input.now)), DueFirst, size) && |batch| <= |input.attempts|
    requires MustProgress(rows, size, input)
    ensures Productive(Prefix(batch, input.stop), input.attempts)
  {
    var due :| due in rows && IsDue(input.now)(due) && Deliverable(due);
    FewBlockers(rows, input.now, size, batch, due);
    assert Prefix(batch, input.stop) == batch;
    var k :| 0 <= k < |batch| && Deliverable(batch[k]);
    assert input.attempts[k] in input.attempts;
  }

  /** Batches one after the other, each starting from the rows the previous one left. */
  ghost predicate Chain(cfg: Config, size: nat, states: seq<seq<Row>>, inputs: seq<BatchInput>) {
    && |states| == |inputs| + 1
    && UniqueIds(states[0])
    && forall i :: 0 <= i < |inputs| ==> Batch(cfg, size, inputs[i], states[i], states[i + 1])
  }

  /** How many of the batches met the conditions of MustProgress. */
  ghost function Forced(size: nat, states: seq<seq<Row>>, inputs: seq<BatchInput>): nat
    requires |states| == |inputs| + 1
  {
    if inputs == [] then 0
    else
      var n := |inputs| - 1;
      Forced(size, states[..n + 1], inputs[..n]) + if MustProgress(states[n], size, inputs[n]) then 1 else 0
  }

  /**
   * Over any sequence of batches, idle and failing ones included, those that had to make progress are at most
   * the pushes owed at the start.
   */
  lemma {:induction false} RetriesTerminate(cfg: Config, size: nat, states: seq<seq<Row>>, inputs: seq<BatchInput>)
    requires Chain(cfg, size, states, inputs)
    ensures UniqueIds(states[|inputs|])
    ensures Forced(size, states, inputs) + Measure(cfg, states[|inputs|]) <= Measure(cfg, states[0])
  {
    if |inputs| > 0 {
      var n := |inputs| - 1;
      RetriesTerminate(cfg, size, states[..n + 1], inputs[..n]);
      BatchProgress(cfg, size, inputs[n], states[n], states[n + 1]);
    }
  }

  // ---------- a record is never attempted exactly when too many stuck records are ahead of it ----------

  /** Strictly ahead of `d` in the order the worker asks for, so ahead whichever way ties fall. */
  predicate Ahead(u: Row, d: Row) { !DueFirst(d, u) }

  /** Pending records that no batch can deliver, strictly ahead of `d`. */
  function StuckAhead(rows: seq<Row>, d: Row): set<Row> {
    set u | u in rows && u.status == Pending && !Deliverable(u) && Ahead(u, d)
  }

  ghost function PendingAhead(rows: seq<Row>, d: Row): set<Row> {
    set u | u in rows && u.status == Pending && Ahead(u, d)
  }

  ghost predicate Selectable(rows: seq<Row>, size: nat, now: Time, batch: seq<Row>) {
    Limited(batch, Matching(rows, IsDue(now)), DueFirst, size)
  }

  /** No legal answer, whatever the clock says, holds the record. */
  ghost predicate NeverSelected(rows: seq<Row>, size: nat, d: Row) {
    forall now, batch: seq<Row> :: Selectable(rows, size, now, batch) ==> d !in batch
  }

  /** A pending record ahead of a due one is due. */
  lemma AheadIsDue(u: Row, d: Row, now: Time)
    requires u.status == Pending && IsDue(now)(d) && Ahead(u, d)
    ensures IsDue(now)(u)
  {
  }

  lemma AllAheadAreDue(rows: seq<Row>, d: Row, now: Time)
    requires IsDue(now)(d)
    ensures PendingAhead(rows, d) <= Matching(rows, IsDue(now))
  {
    forall u | u in PendingAhead(rows, d) ensures IsDue(now)(u) {
      AheadIsDue(u, d, now);
    }
  }

  /** As many pending records ahead as slots keep a record out of every answer. */
  lemma AheadKeepsOut(rows: seq<Row>, size: nat, d: Row)
    requires |PendingAhead(rows, d)| >= size
    ensures NeverSelected(rows, size, d)
  {
    forall now, batch: seq<Row> | Selectable(rows, size, now, batch) ensures d !in batch {
      if d in batch {
        var all, ahead := Matching(rows, IsDue(now)), PendingAhead(rows, d);
        assert d in Elems(batch);
        AllAheadAreDue(rows, d, now);
        assert forall u :: u in ahead ==> u in all && u in Elems(batch);
        DistinctCount(batch);
        SubsetCount(ahead + {d}, Elems(batch));
      }
    }
  }

  /** With fewer, some legal answer to the query at a time when the record is due holds it. */
  lemma FewAheadLetIn(rows: seq<Row>, size: nat, d: Row, now: Time) returns (batch: seq<Row>)
    requires d in rows && IsDue(now)(d) && |PendingAhead(rows, d)| < size
    ensures Selectable(rows, size, now, batch) && d in batch
  {
    var all, ahead := Matching(rows, IsDue(now)), PendingAhead(rows, d);
    AllAheadAreDue(rows, d, now);
    var first := SortedListing(ahead, DueFirst);
    var rest := SortedListing(all - ahead - {d}, DueFirst);
    var listing := first + [d] + rest;
    DistinctCount(first);
    Concatenated(first, d, rest, all);
    FirstOfSorted(listing, DueFirst, size);
    batch := if |listing| <= size then listing else listing[..size];
    assert batch[|first|] == d;
  }

  lemma Concatenated(first: seq<Row>, d: Row, rest: seq<Row>, all: set<Row>)
    requires Sorted(first, DueFirst) && Distinct(first) && Sorted(rest, DueFirst) && Distinct(rest)
    requires d in all && Elems(first) <= all && Elems(rest) == all - Elems(first) - {d}
    requires forall u :: u in Elems(first) ==> Ahead(u, d)
    requires forall u :: u in Elems(rest) ==> !Ahead(u, d)
    ensures
      var listing := first + [d] + rest;
      Sorted(listing, DueFirst) && Distinct(listing) && Elems(listing) == all
  {
    var listing := first + [d] + rest;
    var n := |first|;
    forall i | 0 <= i < |listing|
      ensures (i < n ==> listing[i] in first && listing[i] in Elems(first))
        && (i > n ==> listing[i] in rest && listing[i] in Elems(rest))
    {
    }
    assert forall u :: u in listing <==> u in Elems(first) || u == d || u in Elems(rest);
  }

  /** Rows without a destination or file are selected but never changed. */
  lemma {:induction false} UndeliverableStay(cfg: Config, rows: seq<Row>, batch: seq<Row>,
                                            attempts: seq<Attempt>, r: Row)
    requires UniqueIds(rows) && |batch| <= |attempts| && r in rows && !Deliverable(r)
    requires forall b :: b in batch ==> b in rows
    ensures r in BatchRows(cfg, rows, batch, attempts)
  {
    if batch != [] {
      var n := |batch| - 1;
      UndeliverableStay(cfg, rows, batch[..n], attempts, r);
      assert batch[n] in rows;
      if Deliverable(batch[n]) {
        assert batch[n].id != r.id;
        var before := BatchRows(cfg, rows, batch[..n], attempts);
        UpdateKeepsOthers(before, batch[n].id, After(cfg, batch[n], attempts[n]), r);
      }
    }
  }

  /** What a batch leaves of the records it attempted, when every push is delivered: none of them is pending. */
  lemma {:induction false} DeliveredOrSame(cfg: Config, rows: seq<Row>, batch: seq<Row>, attempts: seq<Attempt>, r: Row)
    requires |batch| <= |attempts| && forall a :: a in attempts ==> a.outcome == Delivered
    requires r in BatchRows(cfg, rows, batch, attempts)
    ensures r in rows || r.status == Succeeded
  {
    if batch != [] {
      var n := |batch| - 1;
      var before := BatchRows(cfg, rows, batch[..n], attempts);
      var i :| 0 <= i < |before| && AttemptRows(cfg, before, batch[n], attempts[n])[i] == r;
      assert attempts[n] in attempts;
      if r in before {
        DeliveredOrSame(cfg, rows, batch[..n], attempts, r);
      }
    }
  }

  /** What no batch changes: an undeliverable record, and a record kept out of every answer. */
  lemma BatchKeeps(cfg: Config, size: nat, input: BatchInput, rows: seq<Row>, rows': seq<Row>, d: Row)
    requires UniqueIds(rows) && Batch(cfg, size, input, rows, rows')
    ensures UniqueIds(rows') && forall u :: u in rows && !Deliverable(u) ==> u in rows'
    ensures d in rows && NeverSelected(rows, size, d) ==> d in rows'
  {
    var batch: seq<Row> :| BatchStepAt(cfg, size, input.now, rows, rows', batch, input.attempts, input.stop);
    BatchNeverRaises(cfg, size, input, rows, rows', batch);
    forall b | b in Prefix(batch, input.stop) ensures b in rows {
      assert b in batch && b in Elems(batch);
    }
    forall u | u in rows && !Deliverable(u) ensures u in rows' {
      UndeliverableStay(cfg, rows, Prefix(batch, input.stop), input.attempts, u);
    }
    if d in rows && NeverSelected(rows, size, d) {
      assert Selectable(rows, size, input.now, batch);
      BatchTouchesOnlyDueRows(cfg, size, input.now, rows, rows', batch, input.attempts, input.stop, d);
    }
  }

  /** No sequence of batches, at any times and with any outcomes, ever leads to an answer that holds the record. */
  ghost predicate StarvedForever(cfg: Config, size: nat, rows: seq<Row>, d: Row) {
    forall states, inputs :: Chain(cfg, size, states, inputs) && states[0] == rows ==>
      d in states[|inputs|] && NeverSelected(states[|inputs|], size, d)
  }

  lemma StuckKeepsOut(rows: seq<Row>, size: nat, d: Row)
    requires |StuckAhead(rows, d)| >= size
    ensures NeverSelected(rows, size, d)
  {
    SubsetCount(StuckAhead(rows, d), PendingAhead(rows, d));
    AheadKeepsOut(rows, size, d);
  }

  lemma {:induction false} StuckStaysStuck(cfg: Config, size: nat, states: seq<seq<Row>>,
                                          inputs: seq<BatchInput>, d: Row)
    requires Chain(cfg, size, states, inputs) && d in states[0] && |StuckAhead(states[0], d)| >= size
    ensures UniqueIds(states[|inputs|]) && d in states[|inputs|]
    ensures StuckAhead(states[0], d) <= StuckAhead(states[|inputs|], d)
    ensures NeverSelected(states[|inputs|], size, d)
  {
    var n := |inputs|;
    if n > 0 {
      StuckStaysStuck(cfg, size, states[..n], inputs[..n - 1], d);
      BatchKeeps(cfg, size, inputs[n - 1], states[n - 1], states[n], d);
    }
    SubsetCount(StuckAhead(states[0], d), StuckAhead(states[n], d));
    StuckKeepsOut(states[n], size, d);
  }

  /** When the records ahead fill a batch, the first of them are a legal answer. */
  lemma AheadFillBatch(rows: seq<Row>, size: nat, d: Row, now: Time) returns (batch: seq<Row>)
    requires d in rows && IsDue(now)(d) && |PendingAhead(rows, d)| >= size
    ensures Selectable(rows, size, now, batch) && |batch| == size && d !in batch
    ensures Elems(batch) <= PendingAhead(rows, d)
  {
    var all, ahead := Matching(rows, IsDue(now)), PendingAhead(rows, d);
    batch := LimitedExists(ahead, DueFirst, size);
    AllAheadAreDue(rows, d, now);
    LimitedByInitial(batch, ahead, all, DueFirst, size);
    assert d in batch ==> d in Elems(batch);
  }

  lemma FewStuckSoDeliverable(rows: seq<Row>, size: nat, d: Row, batch: seq<Row>)
    requires |batch| == size && Distinct(batch) && Elems(batch) <= PendingAhead(rows, d)
    requires |StuckAhead(rows, d)| < size
    ensures HoldsDeliverable(batch)
  {
    DistinctCount(batch);
    assert !(Elems(batch) <= StuckAhead(rows, d)) by {
      if Elems(batch) <= StuckAhead(rows, d) { SubsetCount(Elems(batch), StuckAhead(rows, d)); }
    }
    var u :| u in Elems(batch) && u !in StuckAhead(rows, d);
    var k :| 0 <= k < |batch| && batch[k] == u;
    assert Deliverable(batch[k]);
  }

  function AllDelivered(now: Time, n: nat): (attempts: seq<Attempt>)
    ensures |attempts| == n && forall a :: a in attempts ==> a == Attempt(Delivered, now, 0.0, true, true)
  {
    seq(n, _ => Attempt(Delivered, now, 0.0, true, true))
  }

  /** A batch that delivers what is ahead of `d` lowers the pushes owed and sticks nothing new ahead of it. */
  lemma DeliverAhead(cfg: Config, size: nat, rows: seq<Row>, d: Row, now: Time)
    returns (input: BatchInput, rows': seq<Row>)
    requires UniqueIds(rows) && d in rows && IsDue(now)(d)
    requires |StuckAhead(rows, d)| < size <= |PendingAhead(rows, d)|
    ensures Batch(cfg, size, input, rows, rows')
    ensures UniqueIds(rows') && d in rows' && StuckAhead(rows', d) <= StuckAhead(rows, d)
    ensures Measure(cfg, rows') < Measure(cfg, rows)
  {
    var batch := AheadFillBatch(rows, size, d, now);
    FewStuckSoDeliverable(rows, size, d, batch);
    input := BatchInput(now, AllDelivered(now, size), size);
    rows' := BatchRows(cfg, rows, batch, input.attempts);
    assert Prefix(batch, size) == batch;
    assert BatchStepAt(cfg, size, now, rows, rows', batch, input.attempts, size);
    BatchNeverRaises(cfg, size, input, rows, rows', batch);
    assert Productive(batch, input.attempts);
    BatchTouchesOnlyDueRows(cfg, size, now, rows, rows', batch, input.attempts, size, d);
    forall u | u in StuckAhead(rows', d) ensures u in rows {
      DeliveredOrSame(cfg, rows, batch, input.attempts, u);
    }
  }

  /** With fewer stuck records ahead than slots, delivering what is ahead brings the record's turn. */
  lemma {:induction false} TurnComes(cfg: Config, size: nat, rows: seq<Row>, d: Row)
    returns (states: seq<seq<Row>>, inputs: seq<BatchInput>)
    requires UniqueIds(rows) && d in rows && d.status == Pending && |StuckAhead(rows, d)| < size
    ensures Chain(cfg, size, states, inputs) && states[0] == rows && !NeverSelected(states[|inputs|], size, d)
    decreases Measure(cfg, rows)
  {
    var now := if d.retryAfter.Some? then d.retryAfter.value else 0;
    if |PendingAhead(rows, d)| < size {
      var batch := FewAheadLetIn(rows, size, d, now);
      states, inputs := [rows], [];
    } else {
      var input, rows' := DeliverAhead(cfg, size, rows, d, now);
      SubsetCount(StuckAhead(rows', d), StuckAhead(rows, d));
      var later, more := TurnComes(cfg, size, rows', d);
      states, inputs := [rows] + later, [input] + more;
      assert Batch(cfg, size, inputs[0], states[0], states[1]);
    }
  }

  /**
   * A pending record is starved for good, whatever the clock and the outcomes, exactly when as many undeliverable
   * pending records as slots are strictly ahead of it.
   */
  lemma StarvedForeverIff(cfg: Config, size: nat, rows: seq<Row>, d: Row)
    requires UniqueIds(rows) && d in rows && d.status == Pending
    ensures StarvedForever(cfg, size, rows, d) <==> |StuckAhead(rows, d)| >= size
  {
    if |StuckAhead(rows, d)| >= size {
      forall states, inputs | Chain(cfg, size, states, inputs) && states[0] == rows
        ensures d in states[|inputs|] && NeverSelected(states[|inputs|], size, d)
      {
        StuckStaysStuck(cfg, size, states, inputs, d);
      }
    } else {
      var states, inputs := TurnComes(cfg, size, rows, d);
    }
  }

  // ---------- no record is retried early ----------

  /** A pending record whose retry time lies ahead of every clock comes through all batches unchanged. */
  lemma {:induction false} NotDueNotTouched(cfg: Config, size: nat, states: seq<seq<Row>>,
                                           inputs: seq<BatchInput>, r: Row)
    requires Chain(cfg, size, states, inputs) && r in states[0] && r.retryAfter.Some?
    requires forall i :: 0 <= i < |inputs| ==> inputs[i].now < r.retryAfter.value
    ensures r in states[|inputs|] && UniqueIds(states[|inputs|])
  {
    var n := |inputs|;
    if n > 0 {
      NotDueNotTouched(cfg, size, states[..n], inputs[..n - 1], r);
      NotDueOnce(cfg, size, inputs[n - 1], states[n - 1], states[n], r);
    }
  }

  lemma NotDueOnce(cfg: Config, size: nat, input: BatchInput, rows: seq<Row>, rows': seq<Row>, r: Row)
    requires UniqueIds(rows) && Batch(cfg, size, input, rows, rows')
    requires r in rows && r.retryAfter.Some? && input.now < r.retryAfter.value
    ensures r in rows' && UniqueIds(rows')
  {
    var batch: seq<Row> :| BatchStepAt(cfg, size, input.now, rows, rows', batch, input.attempts, input.stop);
    DueMeans(rows, batch, input.now, size);
    BatchTouchesOnlyDueRows(cfg, size, input.now, rows, rows', batch, input.attempts, input.stop, r);
    BatchNeverRaises(cfg, size, input, rows, rows', batch);
  }

  /**
   * After a transient failure that leaves a record pending, no batch touches it before the longer of the server's
   * wish and three quarters of the doubled interval has passed.
   */
  lemma NotRetriedEarly(cfg: Config, size: nat, rows: seq<Row>, rec: Row, a: Attempt, i: nat, interval: Time,
                        doublings: nat, states: seq<seq<Row>>, inputs: seq<BatchInput>)
    requires UniqueIds(rows) && i < |rows| && rows[i] == rec && Deliverable(rec) && a.mark
    requires a.outcome.PushFailed? && AttemptRows(cfg, rows, rec, a)[i].status == Pending
    requires rec.attempts >= 0 && JitterFactor(a.jitter) && LawfulRounding(cfg.round)
    requires ConfiguredInterval(cfg, interval) && doublings == (if rec.attempts > 20 then 20 else rec.attempts)
    requires interval * Pow2(doublings) < TWO_TO_63
    requires Chain(cfg, size, states, inputs) && states[0] == AttemptRows(cfg, rows, rec, a)
    requires
      var doubled := interval * Pow2(doublings);
      var d := if doubled > 24 * HOUR then 24 * HOUR else doubled;
      forall k :: 0 <= k < |inputs| ==>
        inputs[k].now < a.now + d - d / 4 || inputs[k].now < a.now + a.outcome.serverRetryAfter
    ensures AttemptRows(cfg, rows, rec, a)[i] in states[|inputs|]
  {
    WaitStored(cfg, rows, rec, a, i, interval, doublings);
    NotDueNotTouched(cfg, size, states, inputs, AttemptRows(cfg, rows, rec, a)[i]);
  }

  // ---------- a run that starves a deliverable record ----------

  function Reception(cfg: Config, g: Guid): Step {
    Receive(cfg.lib.format(Voucher(g, 0, [])), ReceiveIo(NoPartnerStore, true, true, true, true))
  }

  function NewInput(g: Guid, route: Route, now: Time): PipelineInput {
    PipelineInput(Hex(g), "", "", "", route, true, now,
                  Attempt(PushFailed(false, 0, "unreachable"), now, 0.0, true, true))
  }

  /** Each voucher is received and recorded, and no destination resolves. */
  function StuckRun(cfg: Config, guids: seq<Guid>): seq<Step> {
    if guids == [] then []
    else
      var n := |guids| - 1;
      StuckRun(cfg, guids[..n]) + [Reception(cfg, guids[n])] + [Process(NewInput(guids[n], Unresolved, n + 1))]
  }

  /** One more voucher comes in, with a destination whose first push fails transiently. */
  function StarvingRun(cfg: Config, guids: seq<Guid>, g: Guid, dest: VoucherDestination): seq<Step> {
    StuckRun(cfg, guids) + [Reception(cfg, g)] + [Process(NewInput(g, To(dest), |guids| + 1))]
  }

  ghost predicate OnlyStuck(cfg: Config, guids: seq<Guid>, w: World) {
    && |w.rows| == |guids|
    && (forall r :: r in w.rows ==> r.status == Pending && r.retryAfter == None && r.destination == "")
    && (forall p :: p in w.files ==> exists k :: 0 <= k < |guids| && p == FilePath(cfg.directory, Hex(guids[k])))
  }

  lemma FileIsNew(cfg: Config, guids: seq<Guid>, w: World, g: Guid)
    requires cfg.directory != "" && OnlyStuck(cfg, guids, w) && g !in guids
    ensures FilePath(cfg.directory, Hex(g)) !in w.files
  {
    forall k | 0 <= k < |guids| ensures FilePath(cfg.directory, Hex(g)) != FilePath(cfg.directory, Hex(guids[k])) {
      HexIsCanonical(g);
      HexIsCanonical(guids[k]);
      PathsDistinct(cfg.directory, Hex(g), Hex(guids[k]));
      if Hex(g) == Hex(guids[k]) { HexInjective(g, guids[k]); }
    }
  }

  /** A voucher whose file is new is accepted. */
  lemma ReceptionAccepted(cfg: Config, s: System, g: Guid)
    requires ValidConfig(cfg) && FilePath(cfg.directory, Hex(g)) !in s.world.files
    ensures
      var s' := Next(cfg, s, Reception(cfg, g));
      && Enabled(s, Reception(cfg, g)) && WasReceived(s'.log, Hex(g))
      && s'.world == s.world.(files := s'.world.files)
      && forall p :: p in s'.world.files ==> p in s.world.files || p == FilePath(cfg.directory, Hex(g))
  {
    var v := Voucher(g, 0, []);
    var s' := Next(cfg, s, Reception(cfg, g));
    assert s'.log == s.log + [Received(Hex(g), AsPem(cfg.lib, cfg.lib.format(v)))];
    assert s'.log[|s.log|] in s'.log;
  }

  lemma StuckAppended(cfg: Config, guids: seq<Guid>, s: System, g: Guid, now: Time)
    requires ValidConfig(cfg) && OnlyStuck(cfg, guids, s.world) && g !in guids
    ensures
      var s1 := Next(cfg, s, Reception(cfg, g));
      Enabled(s, Reception(cfg, g)) && Enabled(s1, Process(NewInput(g, Unresolved, now)))
      && OnlyStuck(cfg, guids + [g], Next(cfg, s1, Process(NewInput(g, Unresolved, now))).world)
  {
    FileIsNew(cfg, guids, s.world, g);
    ReceptionAccepted(cfg, s, g);
    var all := guids + [g];
    assert all[|guids|] == g;
    forall p | p in Next(cfg, s, Reception(cfg, g)).world.files
      ensures exists k :: 0 <= k < |all| && p == FilePath(cfg.directory, Hex(all[k]))
    {
      if p != FilePath(cfg.directory, Hex(g)) {
        var k :| 0 <= k < |guids| && p == FilePath(cfg.directory, Hex(guids[k]));
        assert all[k] == guids[k];
      }
    }
  }

  lemma TwoMore(cfg: Config, before: seq<Step>, a: Step, b: Step)
    ensures
      var s1 := Next(cfg, Run(cfg, before), a);
      && Run(cfg, before + [a] + [b]) == Next(cfg, s1, b)
      && (Legal(cfg, before) && Enabled(Run(cfg, before), a) && Enabled(s1, b) ==> Legal(cfg, before + [a] + [b]))
  {
    RunSnoc(cfg, before, a);
    RunSnoc(cfg, before + [a], b);
  }

  ghost predicate Reaches(cfg: Config, steps: seq<Step>, guids: seq<Guid>) {
    Legal(cfg, steps) && OnlyStuck(cfg, guids, Run(cfg, steps).world)
  }

  lemma StuckRunExtends(cfg: Config, before: seq<Step>, guids: seq<Guid>, g: Guid, now: Time)
    requires ValidConfig(cfg) && Reaches(cfg, before, guids) && g !in guids
    ensures Reaches(cfg, before + [Reception(cfg, g)] + [Process(NewInput(g, Unresolved, now))], guids + [g])
  {
    StuckAppended(cfg, guids, Run(cfg, before), g, now);
    TwoMore(cfg, before, Reception(cfg, g), Process(NewInput(g, Unresolved, now)));
  }

  lemma {:induction false} StuckRunReaches(cfg: Config, guids: seq<Guid>)
    requires ValidConfig(cfg) && Distinct(guids)
    ensures Reaches(cfg, StuckRun(cfg, guids), guids)
  {
    if guids != [] {
      var n := |guids| - 1;
      LastIsNew(guids);
      StuckRunReaches(cfg, guids[..n]);
      StuckRunExtends(cfg, StuckRun(cfg, guids[..n]), guids[..n], guids[n], n + 1);
    } else {
      NothingStuck(cfg);
    }
  }

  lemma LastIsNew(guids: seq<Guid>)
    requires guids != [] && Distinct(guids)
    ensures
      var n := |guids| - 1;
      guids[n] !in guids[..n] && Distinct(guids[..n]) && guids[..n] + [guids[n]] == guids
  {
  }

  lemma NothingStuck(cfg: Config)
    ensures Reaches(cfg, [], [])
  {
  }

  /** The record of the last voucher, after its first push failed. */
  function Delayed(cfg: Config, g: Guid, dest: VoucherDestination, id: nat, now: Time): Row {
    var p := NewInput(g, To(dest), now);
    After(cfg, FreshRecord(cfg, p, id), p.first)(FreshRecord(cfg, p, id))
  }

  lemma DelayedIsPending(cfg: Config, g: Guid, dest: VoucherDestination, id: nat, now: Time)
    requires cfg.directory != "" && dest.url != "" && MaxAttempts(cfg) > 1
    ensures
      var d := Delayed(cfg, g, dest, id, now);
      d.guid == Hex(g) && d.status == Pending && d.retryAfter.Some? && Deliverable(d)
  {
    HexIsCanonical(g);
  }

  /** The new record joins the stuck ones, which stay, and all of them are ahead of it. */
  lemma DelayedJoins(cfg: Config, s: System, g: Guid, dest: VoucherDestination, now: Time)
    requires Coherent(cfg, s) && cfg.directory != "" && dest.url != "" && MaxAttempts(cfg) > 1
    requires forall r :: r in s.world.rows ==> r.status == Pending && r.retryAfter == None && r.destination == ""
    ensures
      var rows := Next(cfg, s, Process(NewInput(g, To(dest), now))).world.rows;
      var d := Delayed(cfg, g, dest, s.world.nextId, now);
      d in rows && Elems(s.world.rows) <= StuckAhead(rows, d)
  {
    var p, w := NewInput(g, To(dest), now), s.world;
    var record, d := FreshRecord(cfg, p, w.nextId), Delayed(cfg, g, dest, w.nextId, now);
    var rows := Next(cfg, s, Process(p)).world.rows;
    DelayedIsPending(cfg, g, dest, w.nextId, now);
    HexIsCanonical(g);
    assert Deliverable(record);
    assert rows[|w.rows|] == d;
    forall u | u in w.rows ensures u in rows {
      assert RowFits(cfg, s, u);
      assert u in w.rows + [record];
      UpdateKeepsOthers(w.rows + [record], record.id, After(cfg, record, p.first), u);
    }
  }

  /**
   * As many receptions without a destination as slots, then one with a destination whose first push fails: a
   * legal run, after which no sequence of batches ever attempts the last voucher's record again.
   */
  lemma StarvingRunStarves(cfg: Config, size: nat, guids: seq<Guid>, g: Guid, dest: VoucherDestination)
    requires ValidConfig(cfg) && Distinct(guids) && g !in guids && |guids| >= size
    requires dest.url != "" && MaxAttempts(cfg) > 1
    ensures
      var rows := Run(cfg, StarvingRun(cfg, guids, g, dest)).world.rows;
      && Legal(cfg, StarvingRun(cfg, guids, g, dest))
      && exists d :: d in rows && d.guid == Hex(g) && d.status == Pending && Deliverable(d)
                     && StarvedForever(cfg, size, rows, d)
  {
    var stuck, now := StuckRun(cfg, guids), |guids| + 1;
    StuckRunReaches(cfg, guids);
    FileIsNew(cfg, guids, Run(cfg, stuck).world, g);
    ReceptionAccepted(cfg, Run(cfg, stuck), g);
    RunSnoc(cfg, stuck, Reception(cfg, g));
    RunSnoc(cfg, stuck + [Reception(cfg, g)], Process(NewInput(g, To(dest), now)));
    var s := Run(cfg, stuck + [Reception(cfg, g)]);
    var rows, d := Run(cfg, StarvingRun(cfg, guids, g, dest)).world.rows, Delayed(cfg, g, dest, s.world.nextId, now);
    Safety.RunsAreCoherent(cfg, stuck + [Reception(cfg, g)]);
    Safety.RunsAreCoherent(cfg, StarvingRun(cfg, guids, g, dest));
    DelayedJoins(cfg, s, g, dest, now);
    DelayedIsPending(cfg, g, dest, s.world.nextId, now);
    UniqueIdsDistinct(s.world.rows);
    DistinctCount(s.world.rows);
    SubsetCount(Elems(s.world.rows), StuckAhead(rows, d));
    StarvedForeverIff(cfg, size, rows, d);
  }
}
