/** ListCustodians and ListByCustodian: the counts agree with the grants table and with each other. */
module CustodianAccounting {
  import opened Common
  import opened Records
  import opened Queries
  import opened TransmissionStore
  import opened Settings
  import opened Assignment
  import opened Delivery
  import opened Intake
  import opened Runs

  predicate IsCustodianOf(g: Grant, fp: string) { g.kind == Custodian && g.fingerprint == fp }

  function NumGrants(grants: seq<Grant>, fp: string): nat {
    if grants == [] then 0
    else NumGrants(grants[..|grants| - 1], fp) + if IsCustodianOf(grants[|grants| - 1], fp) then 1 else 0
  }

  function NumCustodianGrants(grants: seq<Grant>): nat {
    if grants == [] then 0
    else NumCustodianGrants(grants[..|grants| - 1]) + if grants[|grants| - 1].kind == Custodian then 1 else 0
  }

  /** One more grant adds one more voucher to its custodian, because grants are unique. */
  lemma GrantedGuidsSnoc(init: seq<Grant>, last: Grant, fp: string)
    requires UniqueGrants(init + [last])
    ensures GrantedGuids(init + [last], fp) ==
      GrantedGuids(init, fp) + if IsCustodianOf(last, fp) then {last.guid} else {}
    ensures IsCustodianOf(last, fp) ==> last.guid !in GrantedGuids(init, fp)
  {
    var grants := init + [last];
    assert forall g :: g in grants <==> g in init || g == last;
    forall g | g in init && IsCustodianOf(g, fp) && IsCustodianOf(last, fp) ensures g.guid != last.guid {
      var i :| 0 <= i < |init| && init[i] == g;
      assert !SameGrantKey(grants[i], grants[|init|]);
    }
  }

  /** COUNT(DISTINCT guid) undoes the row multiplication: it is the number of custodian grants. */
  lemma {:induction false} CountIsNumberOfGrants(grants: seq<Grant>, fp: string)
    requires UniqueGrants(grants)
    ensures |GrantedGuids(grants, fp)| == NumGrants(grants, fp)
  {
    if grants != [] {
      var init, last := grants[..|grants| - 1], grants[|grants| - 1];
      assert grants == init + [last];
      CountIsNumberOfGrants(init, fp);
      GrantedGuidsSnoc(init, last, fp);
    }
  }

  function Total(list: seq<CustodianSummary>): nat {
    if list == [] then 0 else Total(list[..|list| - 1]) + list[|list| - 1].count
  }

  function SumGrants(grants: seq<Grant>, list: seq<CustodianSummary>): nat {
    if list == [] then 0 else SumGrants(grants, list[..|list| - 1]) + NumGrants(grants, list[|list| - 1].fingerprint)
  }

  ghost predicate DistinctFingerprints(list: seq<CustodianSummary>) {
    forall i, j :: 0 <= i < j < |list| ==> list[i].fingerprint != list[j].fingerprint
  }

  predicate Lists(list: seq<CustodianSummary>, fp: string) { exists s :: s in list && s.fingerprint == fp }

  /** One more grant adds one to the sum exactly when it is a listed custodian's. */
  lemma {:induction false} SumGrantsSnoc(grants: seq<Grant>, g: Grant, list: seq<CustodianSummary>)
    requires DistinctFingerprints(list)
    ensures SumGrants(grants + [g], list) ==
      SumGrants(grants, list) + if g.kind == Custodian && Lists(list, g.fingerprint) then 1 else 0
  {
    if list != [] {
      var n := |list| - 1;
      SumGrantsSnoc(grants, g, list[..n]);
      assert (grants + [g])[..|grants|] == grants;
      assert list == list[..n] + [list[n]];
      if g.fingerprint == list[n].fingerprint {
        assert list[n] in list;
        forall s | s in list[..n] ensures s.fingerprint != g.fingerprint {
        }
      }
    }
  }

  lemma {:induction false} NoGrantsNoSum(list: seq<CustodianSummary>)
    ensures SumGrants([], list) == 0
  {
    if list != [] { NoGrantsNoSum(list[..|list| - 1]); }
  }

  lemma {:induction false} SumOverAllCustodians(grants: seq<Grant>, list: seq<CustodianSummary>)
    requires DistinctFingerprints(list)
    requires forall g :: g in grants && g.kind == Custodian ==> Lists(list, g.fingerprint)
    ensures SumGrants(grants, list) == NumCustodianGrants(grants)
  {
    if grants == [] {
      NoGrantsNoSum(list);
    } else {
      var n := |grants| - 1;
      assert grants == grants[..n] + [grants[n]];
      SumOverAllCustodians(grants[..n], list);
      SumGrantsSnoc(grants[..n], grants[n], list);
    }
  }

  lemma {:induction false} TotalIsSum(grants: seq<Grant>, list: seq<CustodianSummary>)
    requires UniqueGrants(grants)
    requires forall s :: s in list ==> s.count == |GrantedGuids(grants, s.fingerprint)|
    ensures Total(list) == SumGrants(grants, list)
  {
    if list != [] {
      var n := |list| - 1;
      TotalIsSum(grants, list[..n]);
      CountIsNumberOfGrants(grants, list[n].fingerprint);
    }
  }

  /** Every listed count is exact; if the listing was not cut off, the counts add up to all custodian grants. */
  lemma CustodianCountsAddUp(grants: seq<Grant>, rows: seq<Row>, list: seq<CustodianSummary>, limit: nat)
    requires UniqueGrants(grants) && Limited(list, Summaries(grants, rows), MoreVouchers, limit)
    ensures forall s :: s in list ==> s.count == NumGrants(grants, s.fingerprint)
    ensures |Summaries(grants, rows)| <= limit ==> Total(list) == NumCustodianGrants(grants)
  {
    forall s | s in list
      ensures s.count == |GrantedGuids(grants, s.fingerprint)| && s.count == NumGrants(grants, s.fingerprint)
      ensures s == Summary(grants, rows, s.fingerprint)
    {
      assert s in Elems(list);
      CountIsNumberOfGrants(grants, s.fingerprint);
    }
    if |Summaries(grants, rows)| <= limit {
      UnlimitedIsAll(list, Summaries(grants, rows), MoreVouchers, limit);
      forall g | g in grants && g.kind == Custodian ensures Lists(list, g.fingerprint) {
        var s := Summary(grants, rows, g.fingerprint);
        assert g.fingerprint in Custodians(grants);
        assert s in Summaries(grants, rows);
        assert s in Elems(list);
      }
      TotalIsSum(grants, list);
      SumOverAllCustodians(grants, list);
    }
  }

  ghost function Guids(list: seq<Row>): set<string> {
    set r | r in list :: r.guid
  }

  /** The summary count equals the vouchers listed for the custodian iff every granted voucher has a record. */
  lemma CountMatchesListingIff(rows: seq<Row>, grants: seq<Grant>, fp: string, list: seq<Row>, limit: nat)
    requires Limited(list, CustodianRows(rows, grants, fp), NewestFirst, limit)
    requires |CustodianRows(rows, grants, fp)| <= limit
    ensures |Guids(list)| == |GrantedGuids(grants, fp)|
      <==> forall guid :: guid in GrantedGuids(grants, fp) ==> HasRecord(rows, guid)
  {
    UnlimitedIsAll(list, CustodianRows(rows, grants, fp), NewestFirst, limit);
    assert forall r :: r in list <==> r in Elems(list);
    SubsetCount(Guids(list), GrantedGuids(grants, fp));
    if forall guid :: guid in GrantedGuids(grants, fp) ==> HasRecord(rows, guid) {
      forall guid | guid in GrantedGuids(grants, fp) ensures guid in Guids(list) {
        var r :| r in rows && r.guid == guid;
        assert r in CustodianRows(rows, grants, fp);
        assert r in list;
      }
      assert Guids(list) == GrantedGuids(grants, fp);
    } else {
      var guid :| guid in GrantedGuids(grants, fp) && !HasRecord(rows, guid);
      assert guid !in Guids(list);
    }
  }

  // ---------- in every run each granted voucher has a record ----------

  ghost predicate GrantsRecorded(w: World) {
    forall g :: g in w.grants ==> HasRecord(w.rows, g.guid)
  }

  lemma UpdateKeepsRecords(rows: seq<Row>, id: nat, f: Row -> Row, guid: string)
    requires forall r :: f(r).guid == r.guid
    ensures HasRecord(rows, guid) ==> HasRecord(UpdateRow(rows, id, f), guid)
  {
    if HasRecord(rows, guid) {
      var i :| 0 <= i < |rows| && rows[i].guid == guid;
      assert UpdateRow(rows, id, f)[i] in UpdateRow(rows, id, f);
    }
  }

  lemma AttemptKeepsRecords(cfg: Config, rows: seq<Row>, rec: Row, a: Attempt, guid: string)
    ensures HasRecord(rows, guid) ==> HasRecord(AttemptRows(cfg, rows, rec, a), guid)
  {
    UpdateKeepsRecords(rows, rec.id, After(cfg, rec, a), guid);
  }

  /** No step takes a voucher's last record away. */
  lemma StepKeepsRecords(cfg: Config, s: System, step: Step, guid: string)
    requires HasRecord(s.world.rows, guid)
    ensures HasRecord(Next(cfg, s, step).world.rows, guid)
  {
    var w := s.world;
    match step
    case Receive(_, _) =>
    case Process(p) =>
      if p.insert {
        var record := FreshRecord(cfg, p, w.nextId);
        assert forall r :: r in w.rows ==> r in w.rows + [record];
        AttemptKeepsRecords(cfg, w.rows + [record], record, p.first, guid);
      }
    case Assign(call, hit, io) =>
      if hit.Some? {
        UpdateKeepsRecords(w.rows, hit.value.id, (r: Row) =>
          MarkedAssigned(r, cfg.lib.fingerprint(call.key), call.did, call.caller.fingerprint, io.now), guid);
      }
    case Unassign(_, hit, io) =>
      if hit.Some? {
        UpdateKeepsRecords(w.rows, hit.value.id,
          (r: Row) => MarkedUnassigned(r, RestoreStatus(hit.value), io.now), guid);
      }
    case WorkerAttempt(rec, _, a) => AttemptKeepsRecords(cfg, w.rows, rec, a, guid);
    case ManualRetry(_, hit, a) =>
      if hit.Some? { AttemptKeepsRecords(cfg, w.rows, hit.value, a, guid); }
  }

  /** A grant is old, or names the voucher of the record that was assigned. */
  lemma GrantsComeFromAssign(cfg: Config, s: System, step: Step, g: Grant)
    requires Enabled(s, step) && g in Next(cfg, s, step).world.grants
    ensures g in s.world.grants || HasRecord(s.world.rows, g.guid)
  {
    if step.Assign? && g !in s.world.grants {
      assert g.guid == step.hit.value.guid;
    }
  }

  lemma {:induction false} GrantsRecordedInRuns(cfg: Config, steps: seq<Step>)
    requires Legal(cfg, steps)
    ensures GrantsRecorded(Run(cfg, steps).world)
  {
    if steps != [] {
      var n := |steps| - 1;
      var s := Run(cfg, steps[..n]);
      GrantsRecordedInRuns(cfg, steps[..n]);
      forall g | g in Run(cfg, steps).world.grants ensures HasRecord(Run(cfg, steps).world.rows, g.guid) {
        GrantsComeFromAssign(cfg, s, steps[n], g);
        StepKeepsRecords(cfg, s, steps[n], g.guid);
      }
    }
  }

  /** So in every run a custodian's count and listing agree, voucher by voucher. */
  lemma CountsAgreeInRuns(cfg: Config, steps: seq<Step>, fp: string, list: seq<Row>, limit: nat)
    requires Legal(cfg, steps)
    requires
      var w := Run(cfg, steps).world;
      Limited(list, CustodianRows(w.rows, w.grants, fp), NewestFirst, limit)
        && |CustodianRows(w.rows, w.grants, fp)| <= limit
    ensures
      var w := Run(cfg, steps).world;
      Guids(list) == GrantedGuids(w.grants, fp) && Summary(w.grants, w.rows, fp).count == |Guids(list)|
  {
    var w := Run(cfg, steps).world;
    GrantsRecordedInRuns(cfg, steps);
    CountMatchesListingIff(w.rows, w.grants, fp, list, limit);
    assert forall r :: r in list ==> r in Elems(list);
    SubsetCount(Guids(list), GrantedGuids(w.grants, fp));
  }
}
