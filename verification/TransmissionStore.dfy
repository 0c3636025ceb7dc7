/** voucher_transmission_store.go: the transmissions and access-grants tables. */
module TransmissionStore {
  import opened Common
  import opened Records
  import opened Queries

  /** The transmission row itself is owned by, or granted to, the fingerprint. */
  ghost predicate RowVisible(r: Row, grants: seq<Grant>, fp: string) {
    r.owner == fp || exists g :: g in grants && g.guid == r.guid && g.fingerprint == fp
  }

  /** The one meaning of "may see this voucher". */
  ghost predicate Accessible(rows: seq<Row>, grants: seq<Grant>, guid: string, fp: string) {
    || (exists r :: r in rows && r.guid == guid && r.owner == fp)
    || (exists g :: g in grants && g.guid == guid && g.fingerprint == fp)
  }

  ghost function VisibleRows(rows: seq<Row>, grants: seq<Grant>, fp: string): set<Row> {
    set r | r in rows && RowVisible(r, grants, fp)
  }

  /** `hit` is a newest row among those that satisfy `where`; None when there is none. */
  ghost predicate Newest(rows: seq<Row>, where: Row -> bool, hit: Option<Row>) {
    match hit
    case None => forall r :: r in rows ==> !where(r)
    case Some(h) => h in rows && where(h) && forall r :: r in rows && where(r) ==> r.createdAt <= h.createdAt
  }

  predicate HasRecord(rows: seq<Row>, guid: string) {
    exists r :: r in rows && r.guid == guid
  }

  function HasSerial(serial: string): Row -> bool { (r: Row) => r.serial == serial }

  function HasGuid(guid: string): Row -> bool { (r: Row) => r.guid == guid }

  function IsDue(now: Time): Row -> bool {
    (r: Row) => r.status == Pending && (r.retryAfter == None || r.retryAfter.value <= now)
  }

  /** No retry time goes before any, an earlier one before a later one, and between equal ones the older record. */
  predicate GoesFirst(s: Row, r: Row) {
    || (s.retryAfter == None && r.retryAfter.Some?)
    || (s.retryAfter.Some? && r.retryAfter.Some? && s.retryAfter.value < r.retryAfter.value)
    || (s.retryAfter == r.retryAfter && s.createdAt <= r.createdAt)
  }

  lemma DueMeans(rows: seq<Row>, recs: seq<Row>, now: Time, limit: nat)
    requires Limited(recs, Matching(rows, IsDue(now)), DueFirst, limit)
    ensures forall r :: r in recs ==>
      r in rows && r.status == Pending && (r.retryAfter == None || r.retryAfter.value <= now)
    ensures forall r :: r in rows && r !in recs && r.status == Pending
                        && (r.retryAfter == None || r.retryAfter.value <= now) ==>
      |recs| == limit && forall s :: s in recs ==> GoesFirst(s, r)
    ensures forall i, j :: 0 <= i < j < |recs| ==> GoesFirst(recs[i], recs[j])
  {
    var all := Matching(rows, IsDue(now));
    if |all| <= limit { UnlimitedIsAll(recs, all, DueFirst, limit); }
    assert forall r :: r in recs <==> r in Elems(recs);
    assert forall r :: r in rows && IsDue(now)(r) <==> r in all;
    assert forall a, b :: DueFirst(a, b) ==> GoesFirst(a, b);
  }

  /** Go's zero time, the mark of a timestamp that has not been set. */
  const ZERO_TIME: Time := 0

  /** CreatePending sets the new primary key, and those timestamps the caller left at zero. */
  function Inserted(record: Row, id: nat, now: Time): Row {
    var created := if record.createdAt == ZERO_TIME then now else record.createdAt;
    record.(id := id, createdAt := created,
            updatedAt := if record.updatedAt == ZERO_TIME then created else record.updatedAt)
  }

  /** The row is the record, with the new key and with timestamps the caller gave, or the clock's. */
  predicate Stamped(record: Row, row: Row, id: nat, now: Time) {
    && row.id == id && row == record.(id := row.id, createdAt := row.createdAt, updatedAt := row.updatedAt)
    && (record.createdAt != ZERO_TIME ==> row.createdAt == record.createdAt)
    && (record.createdAt == ZERO_TIME ==> row.createdAt == now)
    && (record.updatedAt != ZERO_TIME ==> row.updatedAt == record.updatedAt)
    && (record.updatedAt == ZERO_TIME ==> row.updatedAt == row.createdAt)
  }

  /** `serials` are the entries of the concatenated serial list; SQL leaves their order open. */
  datatype CustodianSummary = CustodianSummary(fingerprint: string, count: nat, serials: set<string>)

  predicate MoreVouchers(a: CustodianSummary, b: CustodianSummary) { a.count >= b.count }

  function GrantedGuids(grants: seq<Grant>, fp: string): set<string> {
    set g | g in grants && g.kind == Custodian && g.fingerprint == fp :: g.guid
  }

  function Custodians(grants: seq<Grant>): set<string> {
    set g | g in grants && g.kind == Custodian :: g.fingerprint
  }

  /** The serials known for the vouchers granted to a custodian. */
  function GrantedSerials(grants: seq<Grant>, rows: seq<Row>, fp: string): set<string> {
    set r | r in rows && r.guid in GrantedGuids(grants, fp) && r.serial != "" :: r.serial
  }

  function Summary(grants: seq<Grant>, rows: seq<Row>, fp: string): CustodianSummary {
    CustodianSummary(fp, |GrantedGuids(grants, fp)|, GrantedSerials(grants, rows, fp))
  }

  function Summaries(grants: seq<Grant>, rows: seq<Row>): set<CustodianSummary> {
    set fp | fp in Custodians(grants) :: Summary(grants, rows, fp)
  }

  /** A summary names the known, non-empty serials of the vouchers granted to the custodian. */
  lemma SummaryMeans(grants: seq<Grant>, rows: seq<Row>, fp: string, serial: string)
    ensures Summary(grants, rows, fp).fingerprint == fp
    ensures serial in Summary(grants, rows, fp).serials <==>
      serial != "" && exists r :: r in rows && r.serial == serial && CustodianOf(grants, fp, r.guid)
  {
  }

  predicate CustodianOf(grants: seq<Grant>, fp: string, guid: string) {
    exists g :: g in grants && g.kind == Custodian && g.fingerprint == fp && g.guid == guid
  }

  /** The optional status and GUID conditions of ListTransmissions. */
  function Selected(status: Option<Status>, guid: string): Row -> bool {
    (r: Row) => (status == None || r.status == status.value) && (guid == "" || r.guid == guid)
  }

  function CustodianRows(rows: seq<Row>, grants: seq<Grant>, fp: string): set<Row> {
    set r | r in rows && r.guid in GrantedGuids(grants, fp)
  }

  function LimitOr(limit: int, default: nat): nat {
    if limit <= 0 then default else limit
  }

  /** A positive limit is obeyed, otherwise 50 is; the list is cut off only when it is full. */
  predicate FitsLimit(count: nat, total: nat, limit: int) {
    && (limit > 0 ==> count <= limit && (count < limit ==> count == total))
    && (limit <= 0 ==> count <= 50 && (count < 50 ==> count == total))
  }

  /** The newest rows, newest first, as many as the limit allows. */
  ghost predicate NewestPage(recs: seq<Row>, all: set<Row>, limit: int) {
    && FitsLimit(|recs|, |all|, limit) && Elems(recs) <= all
    && (forall i, j :: 0 <= i < j < |recs| ==> recs[i] != recs[j] && recs[i].createdAt >= recs[j].createdAt)
    && (forall r, s :: r in all && r !in recs && s in recs ==> s.createdAt >= r.createdAt)
  }

  lemma LimitedIsNewestPage(recs: seq<Row>, all: set<Row>, limit: int)
    requires Limited(recs, all, NewestFirst, LimitOr(limit, 50))
    ensures NewestPage(recs, all, limit)
  {
    assert forall a, b :: NewestFirst(a, b) ==> a.createdAt >= b.createdAt;
  }

  ghost predicate LargestPage(list: seq<CustodianSummary>, all: set<CustodianSummary>, limit: int) {
    && FitsLimit(|list|, |all|, limit) && Elems(list) <= all
    && (forall i, j :: 0 <= i < j < |list| ==> list[i] != list[j] && list[i].count >= list[j].count)
    && (forall r, s :: r in all && r !in list && s in list ==> s.count >= r.count)
  }

  lemma LimitedIsLargestPage(list: seq<CustodianSummary>, all: set<CustodianSummary>, limit: int)
    requires Limited(list, all, MoreVouchers, LimitOr(limit, 50))
    ensures LargestPage(list, all, limit)
  {
    assert forall a, b :: MoreVouchers(a, b) ==> a.count >= b.count;
  }

  lemma NewestIsFirst(rows: seq<Row>, where: Row -> bool, recs: seq<Row>, limit: nat)
    requires Limited(recs, Matching(rows, where), NewestFirst, limit) && limit > 0
    ensures Newest(rows, where, if recs == [] then None else Some(recs[0]))
  {
    if recs == [] {
      assert Matching(rows, where) == {};
      forall r | r in rows ensures !where(r) {
        assert where(r) ==> r in Matching(rows, where);
      }
    } else {
      assert recs[0] in Elems(recs);
      forall r | r in rows && where(r) ensures r.createdAt <= recs[0].createdAt {
        assert r in Matching(rows, where);
        if r in recs {
          var i :| 0 <= i < |recs| && recs[i] == r;
          assert i == 0 || NewestFirst(recs[0], recs[i]);
        } else {
          assert NewestFirst(recs[0], r);
        }
      }
    }
  }

  /** The store. A `dbOk` argument is false when the database call fails. */
  class VoucherTransmissionStore {
    var rows: seq<Row>
    var grants: seq<Grant>
    var nextId: nat

    ghost predicate Valid()
      reads this
    {
      && UniqueIds(rows)
      && (forall r :: r in rows ==> r.id < nextId)
      && UniqueGrants(grants)
    }

    constructor ()
      ensures Valid() && rows == [] && grants == [] && nextId == 1
    {
      rows, grants, nextId := [], [], 1;
    }

    method CreatePending(record: Row, now: Time, dbOk: bool) returns (id: Option<nat>)
      requires Valid()
      modifies this`rows, this`nextId
      ensures Valid()
      ensures id == if dbOk then Some(old(nextId)) else None
      ensures rows == if dbOk then old(rows) + [Inserted(record, old(nextId), now)] else old(rows)
      ensures Stamped(record, Inserted(record, old(nextId), now), old(nextId), now)
      ensures nextId == if dbOk then old(nextId) + 1 else old(nextId)
    {
      if !dbOk {
        return None;
      }
      id := Some(nextId);
      rows := rows + [Inserted(record, nextId, now)];
      nextId := nextId + 1;
    }

    method Update(id: nat, set_: Row -> Row, dbOk: bool) returns (ok: bool)
      requires Valid()
      requires forall r :: set_(r).id == r.id
      modifies this`rows
      ensures Valid()
      ensures ok == dbOk
      ensures rows == if dbOk then UpdateRow(old(rows), id, set_) else old(rows)
    {
      if dbOk {
        rows := UpdateRow(rows, id, set_);
      }
      ok := dbOk;
    }

    method MarkAttempt(id: nat, status: Status, attempts: int, retryAfter: Option<Time>, lastError: string,
                       delivered: bool, now: Time, dbOk: bool) returns (ok: bool)
      requires Valid()
      modifies this`rows
      ensures Valid() && ok == dbOk
      ensures rows == if !dbOk then old(rows) else
        UpdateRow(old(rows), id,
                  (r: Row) => MarkedAttempt(r, status, attempts, retryAfter, lastError, delivered, now))
    {
      ok := Update(id, (r: Row) => MarkedAttempt(r, status, attempts, retryAfter, lastError, delivered, now), dbOk);
    }

    method MarkAssigned(id: nat, to: string, did: string, assigner: string, now: Time, dbOk: bool) returns (ok: bool)
      requires Valid()
      modifies this`rows
      ensures Valid() && ok == dbOk
      ensures rows == if !dbOk then old(rows) else
        UpdateRow(old(rows), id, (r: Row) => MarkedAssigned(r, to, did, assigner, now))
    {
      ok := Update(id, (r: Row) => MarkedAssigned(r, to, did, assigner, now), dbOk);
    }

    method MarkUnassigned(id: nat, status: Status, now: Time, dbOk: bool) returns (ok: bool)
      requires Valid()
      modifies this`rows
      ensures Valid() && ok == dbOk
      ensures rows == if !dbOk then old(rows) else
        UpdateRow(old(rows), id, (r: Row) => MarkedUnassigned(r, status, now))
    {
      ok := Update(id, (r: Row) => MarkedUnassigned(r, status, now), dbOk);
    }

    method InsertAccessGrant(g: Grant, dbOk: bool) returns (ok: bool)
      requires Valid()
      modifies this`grants
      ensures Valid() && ok == dbOk
      ensures grants == if dbOk then InsertOrIgnore(old(grants), g) else old(grants)
    {
      if dbOk {
        InsertKeepsFirstWriter(grants, g);
        var found := false;
        for i := 0 to |grants|
          invariant grants == old(grants)
          invariant found <==> exists j :: 0 <= j < i && SameGrantKey(grants[j], g)
        {
          if SameGrantKey(grants[i], g) {
            found := true;
          }
        }
        if !found {
          grants := grants + [g];
        }
      }
      ok := dbOk;
    }

    method RemoveAccessGrantsForVoucher(guid: string, dbOk: bool) returns (ok: bool)
      requires Valid()
      modifies this`grants
      ensures Valid() && ok == dbOk
      ensures grants == if dbOk then WithoutGuid(old(grants), guid) else old(grants)
    {
      if dbOk {
        WithoutGuidKeepsUnique(grants, guid);
        grants := WithoutGuid(grants, guid);
      }
      ok := dbOk;
    }

    method FetchBySerial(serial: string) returns (recs: seq<Row>)
      requires Valid()
      ensures Limited(recs, Matching(rows, HasSerial(serial)), NewestFirst, |rows|)
      ensures |recs| == |Matching(rows, HasSerial(serial))|
      ensures Newest(rows, HasSerial(serial), if recs == [] then None else Some(recs[0]))
    {
      UniqueIdsDistinct(rows);
      recs := Select(rows, HasSerial(serial), NewestFirst, |rows|);
      MatchingBound(rows, HasSerial(serial));
      if rows != [] {
        NewestIsFirst(rows, HasSerial(serial), recs, |rows|);
      }
    }

    method FetchLatestByGUID(guid: string) returns (hit: Option<Row>)
      requires Valid()
      ensures hit == None || guid != ""
      ensures guid != "" ==> Newest(rows, HasGuid(guid), hit)
    {
      if guid == "" {
        return None;
      }
      UniqueIdsDistinct(rows);
      var recs := Select(rows, HasGuid(guid), NewestFirst, 1);
      NewestIsFirst(rows, HasGuid(guid), recs, 1);
      hit := if recs == [] then None else Some(recs[0]);
    }

    method PendingForRetry(limit: nat, now: Time) returns (recs: seq<Row>)
      requires Valid()
      ensures Limited(recs, Matching(rows, IsDue(now)), DueFirst, limit)
      ensures forall r :: r in recs ==>
        r in rows && r.status == Pending && (r.retryAfter == None || r.retryAfter.value <= now)
      ensures forall r :: r in rows && r !in recs && r.status == Pending
                          && (r.retryAfter == None || r.retryAfter.value <= now) ==>
        |recs| == limit && forall s :: s in recs ==> GoesFirst(s, r)
      ensures forall i, j :: 0 <= i < j < |recs| ==> GoesFirst(recs[i], recs[j])
    {
      UniqueIdsDistinct(rows);
      recs := Select(rows, IsDue(now), DueFirst, limit);
      DueMeans(rows, recs, now, limit);
    }

    method ListTransmissions(status: Option<Status>, guid: string, limit: int) returns (recs: seq<Row>)
      requires Valid()
      ensures Limited(recs, Matching(rows, Selected(status, guid)), NewestFirst, LimitOr(limit, 50))
      ensures forall r :: r in Matching(rows, Selected(status, guid)) <==>
        r in rows && (status == None || status == Some(r.status)) && (guid == "" || guid == r.guid)
      ensures NewestPage(recs, Matching(rows, Selected(status, guid)), limit)
    {
      UniqueIdsDistinct(rows);
      recs := Select(rows, Selected(status, guid), NewestFirst, LimitOr(limit, 50));
      LimitedIsNewestPage(recs, Matching(rows, Selected(status, guid)), limit);
    }

    method HasAccessByGUID(guid: string, fp: string) returns (has: bool)
      ensures has <==> Accessible(rows, grants, guid, fp)
    {
      has := false;
      for i := 0 to |rows|
        invariant has <==> exists r :: r in rows[..i] && r.guid == guid && r.owner == fp
      {
        assert rows[..i + 1] == rows[..i] + [rows[i]];
        if rows[i].guid == guid && rows[i].owner == fp {
          has := true;
        }
      }
      assert rows[..|rows|] == rows;
      ghost var direct := has;
      for i := 0 to |grants|
        invariant has <==> direct || exists g :: g in grants[..i] && g.guid == guid && g.fingerprint == fp
      {
        assert grants[..i + 1] == grants[..i] + [grants[i]];
        if grants[i].guid == guid && grants[i].fingerprint == fp {
          has := true;
        }
      }
      assert grants[..|grants|] == grants;
    }

    /** A left join multiplies rows by their grants; DISTINCT brings each back to one. */
    method ListByAccessGrant(fp: string, limit: int) returns (recs: seq<Row>)
      requires Valid()
      ensures Limited(recs, VisibleRows(rows, grants, fp), NewestFirst, LimitOr(limit, 50))
      ensures NewestPage(recs, VisibleRows(rows, grants, fp), limit)
    {
      var on := (t: Row, g: Grant) => t.guid == g.guid;
      var joined := LeftJoin(rows, grants, on);
      LeftJoinMembers(rows, grants, on);
      var kept: seq<Row> := [];
      for i := 0 to |joined|
        invariant forall r :: r in kept <==> exists p :: p in joined[..i] && Passes(p, fp) && p.0 == r
      {
        assert joined[..i + 1] == joined[..i] + [joined[i]];
        if Passes(joined[i], fp) {
          kept := kept + [joined[i].0];
        }
      }
      assert joined[..|joined|] == joined;
      var once := Deduplicate(kept);
      forall r ensures r in once <==> r in VisibleRows(rows, grants, fp) {
        assert r in once <==> r in Elems(once);
        JoinFilterMeaning(rows, grants, on, joined, fp, r);
      }
      recs := Select(once, (r: Row) => true, NewestFirst, LimitOr(limit, 50));
      assert Matching(once, (r: Row) => true) == VisibleRows(rows, grants, fp);
      LimitedIsNewestPage(recs, VisibleRows(rows, grants, fp), limit);
    }

    method ListByCustodian(fp: string, limit: int) returns (recs: seq<Row>)
      requires Valid()
      ensures Limited(recs, CustodianRows(rows, grants, fp), NewestFirst, LimitOr(limit, 50))
      ensures NewestPage(recs, CustodianRows(rows, grants, fp), limit)
    {
      var kept: seq<Row> := [];
      for i := 0 to |rows|
        invariant forall r :: r in kept <==> r in rows[..i] && r.guid in GrantedGuids(grants, fp)
      {
        assert rows[..i + 1] == rows[..i] + [rows[i]];
        ghost var before := kept;
        for j := 0 to |grants|
          invariant forall r :: r in kept <==>
            r in before || (r == rows[i] && r.guid in GrantedGuids(grants[..j], fp))
        {
          assert grants[..j + 1] == grants[..j] + [grants[j]];
          var g := grants[j];
          if rows[i].guid == g.guid && g.fingerprint == fp && g.kind == Custodian {
            kept := kept + [rows[i]];
          }
        }
        assert grants[..|grants|] == grants;
      }
      assert rows[..|rows|] == rows;
      var once := Deduplicate(kept);
      forall r ensures r in once <==> r in CustodianRows(rows, grants, fp) {
        assert r in once <==> r in Elems(once);
        assert r in kept <==> r in Elems(kept);
      }
      recs := Select(once, (r: Row) => true, NewestFirst, LimitOr(limit, 50));
      assert Matching(once, (r: Row) => true) == CustodianRows(rows, grants, fp);
      LimitedIsNewestPage(recs, CustodianRows(rows, grants, fp), limit);
    }

    /** GROUP BY fingerprint over grants left-joined with transmissions, counting distinct GUIDs. */
    method ListCustodians(limit: int) returns (list: seq<CustodianSummary>)
      ensures Limited(list, Summaries(grants, rows), MoreVouchers, LimitOr(limit, 50))
      ensures LargestPage(list, Summaries(grants, rows), limit)
    {
      var on := (g: Grant, t: Row) => g.guid == t.guid;
      var joined := LeftJoin(grants, rows, on);
      LeftJoinMembers(grants, rows, on);
      var guids, serials := GroupByCustodian(joined);
      GroupsMeaning(grants, rows, on, joined, guids, serials);
      list := Summarise(guids, serials, LimitOr(limit, 50));
      assert Summaries(grants, rows) == set fp | fp in guids :: CustodianSummary(fp, |guids[fp]|, serials[fp]);
      LimitedIsLargestPage(list, Summaries(grants, rows), limit);
    }
  }

  function CustodiansIn(joined: seq<(Grant, Option<Row>)>): set<string> {
    set p | p in joined && p.0.kind == Custodian :: p.0.fingerprint
  }

  type Picker = ((Grant, Option<Row>)) -> set<string>

  /** What a custodian's joined rows contribute, under one aggregate. */
  function CollectIn(joined: seq<(Grant, Option<Row>)>, fp: string, pick: Picker): set<string> {
    set p, s | p in joined && Groups(p, fp) && s in pick(p) :: s
  }

  /** One group per custodian in the joined rows, holding its aggregate. */
  ghost predicate Grouped(joined: seq<(Grant, Option<Row>)>, groups: map<string, set<string>>, pick: Picker) {
    groups.Keys == CustodiansIn(joined) && forall fp :: fp in groups ==> groups[fp] == CollectIn(joined, fp, pick)
  }

  function With(m: map<string, set<string>>, key: string, more: set<string>): map<string, set<string>> {
    m[key := (if key in m then m[key] else {}) + more]
  }

  function GuidOf(p: (Grant, Option<Row>)): set<string> {
    {p.0.guid}
  }

  function SerialOf(p: (Grant, Option<Row>)): set<string> {
    if p.1.Some? && p.1.value.serial != "" then {p.1.value.serial} else {}
  }

  lemma CollectSnoc(joined: seq<(Grant, Option<Row>)>, p: (Grant, Option<Row>), fp: string, pick: Picker)
    ensures CustodiansIn(joined + [p]) == CustodiansIn(joined) + if p.0.kind == Custodian then {p.0.fingerprint} else {}
    ensures CollectIn(joined + [p], fp, pick) == CollectIn(joined, fp, pick) + if Groups(p, fp) then pick(p) else {}
    ensures fp !in CustodiansIn(joined) ==> CollectIn(joined, fp, pick) == {}
  {
    assert forall q :: q in joined + [p] <==> q in joined || q == p;
  }

  lemma GroupedSnoc(joined: seq<(Grant, Option<Row>)>, p: (Grant, Option<Row>), groups: map<string, set<string>>,
                    pick: Picker)
    requires Grouped(joined, groups, pick)
    ensures Grouped(joined + [p],
                    if p.0.kind == Custodian then With(groups, p.0.fingerprint, pick(p)) else groups, pick)
  {
    CollectSnoc(joined, p, p.0.fingerprint, pick);
    forall fp | fp in groups {
      CollectSnoc(joined, p, fp, pick);
    }
  }

  method GroupByCustodian(joined: seq<(Grant, Option<Row>)>)
    returns (guids: map<string, set<string>>, serials: map<string, set<string>>)
    ensures Grouped(joined, guids, GuidOf) && Grouped(joined, serials, SerialOf)
  {
    guids, serials := map[], map[];
    for i := 0 to |joined|
      invariant Grouped(joined[..i], guids, GuidOf) && Grouped(joined[..i], serials, SerialOf)
    {
      assert joined[..i + 1] == joined[..i] + [joined[i]];
      GroupedSnoc(joined[..i], joined[i], guids, GuidOf);
      GroupedSnoc(joined[..i], joined[i], serials, SerialOf);
      var g := joined[i].0;
      if g.kind == Custodian {
        guids := With(guids, g.fingerprint, GuidOf(joined[i]));
        serials := With(serials, g.fingerprint, SerialOf(joined[i]));
      }
    }
    assert joined[..|joined|] == joined;
  }

  predicate Groups(p: (Grant, Option<Row>), fp: string) {
    p.0.kind == Custodian && p.0.fingerprint == fp
  }

  lemma GuidsMeaning(grants: seq<Grant>, rows: seq<Row>, on: (Grant, Row) -> bool,
                     joined: seq<(Grant, Option<Row>)>, fp: string)
    requires forall p :: p in joined <==> LeftJoined(grants, rows, on, p)
    ensures CollectIn(joined, fp, GuidOf) == GrantedGuids(grants, fp)
  {
    forall guid | guid in GrantedGuids(grants, fp) ensures guid in CollectIn(joined, fp, GuidOf) {
      var g :| g in grants && g.kind == Custodian && g.fingerprint == fp && g.guid == guid;
      EveryLeftSurvives(grants, rows, on, joined, g);
      var p :| p in joined && p.0 == g;
      assert guid in GuidOf(p) && Groups(p, fp);
    }
  }

  lemma SerialsMeaning(grants: seq<Grant>, rows: seq<Row>, on: (Grant, Row) -> bool,
                       joined: seq<(Grant, Option<Row>)>, fp: string)
    requires forall g: Grant, t: Row :: on(g, t) <==> g.guid == t.guid
    requires forall p :: p in joined <==> LeftJoined(grants, rows, on, p)
    ensures CollectIn(joined, fp, SerialOf) == GrantedSerials(grants, rows, fp)
  {
    forall s | s in GrantedSerials(grants, rows, fp) ensures s in CollectIn(joined, fp, SerialOf) {
      var r :| r in rows && r.guid in GrantedGuids(grants, fp) && r.serial != "" && r.serial == s;
      var g :| g in grants && g.kind == Custodian && g.fingerprint == fp && g.guid == r.guid;
      assert LeftJoined(grants, rows, on, (g, Some(r)));
      assert (g, Some(r)) in joined && Groups((g, Some(r)), fp) && s in SerialOf((g, Some(r)));
    }
    forall s | s in CollectIn(joined, fp, SerialOf) ensures s in GrantedSerials(grants, rows, fp) {
      var p :| p in joined && Groups(p, fp) && s in SerialOf(p);
      assert LeftJoined(grants, rows, on, p);
    }
  }

  /** Grouping the joined rows collects exactly each custodian's vouchers and serials. */
  lemma GroupsMeaning(grants: seq<Grant>, rows: seq<Row>, on: (Grant, Row) -> bool, joined: seq<(Grant, Option<Row>)>,
                      guids: map<string, set<string>>, serials: map<string, set<string>>)
    requires forall g: Grant, t: Row :: on(g, t) <==> g.guid == t.guid
    requires forall p :: p in joined <==> LeftJoined(grants, rows, on, p)
    requires Grouped(joined, guids, GuidOf) && Grouped(joined, serials, SerialOf)
    ensures guids.Keys == Custodians(grants)
    ensures forall fp :: fp in guids ==> guids[fp] == GrantedGuids(grants, fp)
    ensures forall fp :: fp in guids ==> serials[fp] == GrantedSerials(grants, rows, fp)
  {
    CustodiansMeaning(grants, rows, on, joined);
    forall fp | fp in guids
      ensures CollectIn(joined, fp, GuidOf) == GrantedGuids(grants, fp)
      ensures CollectIn(joined, fp, SerialOf) == GrantedSerials(grants, rows, fp)
    {
      GuidsMeaning(grants, rows, on, joined, fp);
      SerialsMeaning(grants, rows, on, joined, fp);
    }
  }

  lemma CustodiansMeaning(grants: seq<Grant>, rows: seq<Row>, on: (Grant, Row) -> bool,
                          joined: seq<(Grant, Option<Row>)>)
    requires forall p :: p in joined <==> LeftJoined(grants, rows, on, p)
    ensures CustodiansIn(joined) == Custodians(grants)
  {
    forall fp | fp in Custodians(grants) ensures fp in CustodiansIn(joined) {
      var g :| g in grants && g.kind == Custodian && g.fingerprint == fp;
      EveryLeftSurvives(grants, rows, on, joined, g);
      var p :| p in joined && p.0 == g;
    }
  }

  method Summarise(guids: map<string, set<string>>, serials: map<string, set<string>>, limit: nat)
    returns (list: seq<CustodianSummary>)
    requires guids.Keys == serials.Keys
    ensures Limited(list, set fp | fp in guids :: CustodianSummary(fp, |guids[fp]|, serials[fp]), MoreVouchers, limit)
  {
    var todo, out: seq<CustodianSummary> := guids.Keys, [];
    while todo != {}
      invariant todo <= guids.Keys
      invariant Distinct(out)
      invariant forall s :: s in out <==>
        (s.fingerprint in guids.Keys - todo
         && s == CustodianSummary(s.fingerprint, |guids[s.fingerprint]|, serials[s.fingerprint]))
      decreases |todo|
    {
      var fp :| fp in todo;
      out := out + [CustodianSummary(fp, |guids[fp]|, serials[fp])];
      todo := todo - {fp};
    }
    list := Select(out, (s: CustodianSummary) => true, MoreVouchers, limit);
    assert Matching(out, (s: CustodianSummary) => true) ==
      set fp | fp in guids :: CustodianSummary(fp, |guids[fp]|, serials[fp]);
  }

  /** WHERE t.owner_key_fingerprint = ? OR g.identity_fingerprint = ?, where a NULL g equals nothing. */
  predicate Passes(p: (Row, Option<Grant>), fp: string) {
    p.0.owner == fp || (p.1.Some? && p.1.value.fingerprint == fp)
  }

  lemma EveryLeftSurvives<A(!new), B(!new)>(a: seq<A>, b: seq<B>, on: (A, B) -> bool, joined: seq<(A, Option<B>)>, x: A)
    requires forall p :: p in joined <==> LeftJoined(a, b, on, p)
    ensures x in a <==> exists p :: p in joined && p.0 == x
  {
    if x in a {
      if y :| y in b && on(x, y) {
        assert LeftJoined(a, b, on, (x, Some(y)));
        assert (x, Some(y)) in joined;
      } else {
        assert LeftJoined(a, b, on, (x, None));
        assert (x, None) in joined;
      }
    }
  }

  lemma JoinFilterMeaning(rows: seq<Row>, grants: seq<Grant>, on: (Row, Grant) -> bool,
                          joined: seq<(Row, Option<Grant>)>, fp: string, r: Row)
    requires forall t: Row, g: Grant :: on(t, g) <==> t.guid == g.guid
    requires forall p :: p in joined <==> LeftJoined(rows, grants, on, p)
    ensures r in VisibleRows(rows, grants, fp) <==> exists p :: p in joined && Passes(p, fp) && p.0 == r
  {
    if r in rows {
      EveryLeftSurvives(rows, grants, on, joined, r);
      if g :| g in grants && g.guid == r.guid && g.fingerprint == fp {
        assert LeftJoined(rows, grants, on, (r, Some(g)));
        assert (r, Some(g)) in joined && Passes((r, Some(g)), fp);
      }
    }
  }
}
