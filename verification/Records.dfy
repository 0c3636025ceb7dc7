/** Rows of the two tables, and the meaning of the SQL updates on them. */
module Records {
  import opened Common

  datatype Status = Pending | Succeeded | Failed | FailedPermanent | Assigned | NoDestination

  datatype Row = Row(
    id: nat,
    guid: string,
    filePath: string,
    destination: string,
    authToken: string,
    source: string,
    mode: string,
    status: Status,
    attempts: int,
    lastError: string,
    serial: string,
    model: string,
    owner: string,
    originalOwner: string,
    assignedAt: Option<Time>,
    assignedTo: string,
    assignedToDid: string,
    assignedBy: string,
    createdAt: Time,
    updatedAt: Time,
    lastAttemptAt: Option<Time>,
    deliveredAt: Option<Time>,
    retryAfter: Option<Time>)

  datatype IdentityType = OwnerKey | PurchaserToken | Custodian

  datatype AccessLevel = Full | StatusOnly

  datatype Grant = Grant(
    guid: string,
    serial: string,
    fingerprint: string,
    kind: IdentityType,
    level: AccessLevel,
    partner: string,
    grantedAt: Time,
    grantedBy: string)

  /** `id` is the primary key. */
  ghost predicate UniqueIds(rows: seq<Row>) {
    forall i, j :: 0 <= i < j < |rows| ==> rows[i].id != rows[j].id
  }

  /** UNIQUE(voucher_guid, identity_fingerprint, identity_type). */
  ghost predicate UniqueGrants(grants: seq<Grant>) {
    forall i, j :: 0 <= i < j < |grants| ==> !SameGrantKey(grants[i], grants[j])
  }

  predicate SameGrantKey(a: Grant, b: Grant) {
    a.guid == b.guid && a.fingerprint == b.fingerprint && a.kind == b.kind
  }

  lemma UniqueIdsDistinct(rows: seq<Row>)
    requires UniqueIds(rows)
    ensures Distinct(rows)
  {
  }

  /** UPDATE ... SET f WHERE id = ? */
  function UpdateRow(rows: seq<Row>, id: nat, f: Row -> Row): (r: seq<Row>)
    ensures |r| == |rows|
    ensures forall i :: 0 <= i < |rows| ==> r[i] == if rows[i].id == id then f(rows[i]) else rows[i]
  {
    seq(|rows|, i requires 0 <= i < |rows| => if rows[i].id == id then f(rows[i]) else rows[i])
  }

  /** The assignment columns set by MarkAssigned. */
  function MarkedAssigned(r: Row, to: string, did: string, assigner: string, now: Time): Row {
    r.(status := Assigned, assignedAt := Some(now), assignedTo := to, assignedToDid := did,
       assignedBy := assigner, updatedAt := now)
  }

  function MarkedUnassigned(r: Row, status: Status, now: Time): Row {
    r.(status := status, assignedAt := None, assignedTo := "", assignedToDid := "", assignedBy := "",
       updatedAt := now)
  }

  function MarkedAttempt(r: Row, status: Status, attempts: int, retryAfter: Option<Time>, lastError: string,
                         delivered: bool, now: Time): Row
  {
    var r1 := r.(status := status, attempts := attempts, lastError := lastError, updatedAt := now,
                 retryAfter := retryAfter, lastAttemptAt := Some(now));
    if delivered then r1.(deliveredAt := Some(now)) else r1
  }

  /** INSERT OR IGNORE: the first writer of a key is kept. */
  function InsertOrIgnore(grants: seq<Grant>, g: Grant): seq<Grant> {
    if exists i :: 0 <= i < |grants| && SameGrantKey(grants[i], g) then grants else grants + [g]
  }

  /** DELETE FROM voucher_access_grants WHERE voucher_guid = ? */
  function WithoutGuid(grants: seq<Grant>, guid: string): (r: seq<Grant>)
    ensures forall g :: g in r <==> g in grants && g.guid != guid
  {
    if grants == [] then []
    else
      var rest := WithoutGuid(grants[..|grants| - 1], guid);
      var last := grants[|grants| - 1];
      if last.guid == guid then rest else rest + [last]
  }

  /** Grants stay unique on their key, existing grants are kept as first written, and the key is present. */
  lemma InsertKeepsFirstWriter(grants: seq<Grant>, g: Grant)
    requires UniqueGrants(grants)
    ensures UniqueGrants(InsertOrIgnore(grants, g))
    ensures grants <= InsertOrIgnore(grants, g)
    ensures exists h :: h in InsertOrIgnore(grants, g) && SameGrantKey(h, g)
    ensures forall h :: h in InsertOrIgnore(grants, g) && h !in grants ==> h == g
  {
    if i :| 0 <= i < |grants| && SameGrantKey(grants[i], g) {
      assert grants[i] in InsertOrIgnore(grants, g);
    } else {
      assert (grants + [g])[|grants|] == g;
      assert g in InsertOrIgnore(grants, g) && SameGrantKey(g, g);
    }
  }

  /** Removing a voucher's grants changes the table exactly when there are some. */
  lemma {:induction false} WithoutGuidSameIff(grants: seq<Grant>, guid: string)
    ensures WithoutGuid(grants, guid) == grants <==> forall g :: g in grants ==> g.guid != guid
  {
    if grants != [] {
      var init, last := grants[..|grants| - 1], grants[|grants| - 1];
      WithoutGuidSameIff(init, guid);
      assert grants == init + [last];
      if last.guid == guid {
        assert last in grants && last !in WithoutGuid(grants, guid);
      }
    }
  }

  lemma {:induction false} WithoutGuidKeepsUnique(grants: seq<Grant>, guid: string)
    requires UniqueGrants(grants)
    ensures UniqueGrants(WithoutGuid(grants, guid))
  {
    if grants != [] {
      var init := grants[..|grants| - 1];
      WithoutGuidKeepsUnique(init, guid);
      forall g | g in WithoutGuid(init, guid) ensures !SameGrantKey(g, grants[|grants| - 1]) {
        assert g in init;
      }
    }
  }
}
