/** partner_store.go, voucher_destination.go and bootstrapPartners: enrolled partners, trust and routing. */
module Partners {
  import opened Common
  import opened Settings

  datatype Partner = Partner(
    id: string,
    canSupply: bool,
    canReceive: bool,
    didUri: string,
    publicKey: string,
    pushUrl: string,
    pullUrl: string,
    authToken: string,
    didDocument: string,
    fetchedAt: Time,
    etag: string,
    fingerprint: string,
    enabled: bool,
    createdAt: Time,
    updatedAt: Time)

  type Table = map<string, Partner>

  /** fingerprintPEM: the fingerprint of a PEM key, None when it cannot be parsed; never empty. */
  type Fingerprinter = string -> Option<string>

  ghost predicate LawfulKeys(keys: Fingerprinter) {
    keys("") == None && forall pem :: keys(pem) != Some("")
  }

  /** Every row with a key stores that key's fingerprint. */
  ghost predicate Indexed(keys: Fingerprinter, t: Table) {
    forall id :: id in t ==>
      t[id].id == id && (t[id].publicKey != "" ==> keys(t[id].publicKey) == Some(t[id].fingerprint))
  }

  /** Rows without a key have no fingerprint. */
  ghost predicate NoStrayFingerprints(t: Table) {
    forall id :: id in t && t[id].publicKey == "" ==> t[id].fingerprint == ""
  }

  /** The row Add inserts; a fingerprint given without a key is stored as it is. */
  function Enrolled(keys: Fingerprinter, p: Partner, now: Time): Option<Partner> {
    var stamped := p.(createdAt := now, updatedAt := now);
    if p.publicKey == "" then Some(stamped)
    else match keys(p.publicKey)
         case None => None
         case Some(fp) => Some(stamped.(fingerprint := fp))
  }

  function Added(keys: Fingerprinter, t: Table, p: Partner, now: Time): Table {
    if p.id in t || Enrolled(keys, p, now) == None then t else t[p.id := Enrolled(keys, p, now).value]
  }

  /** The row Update writes over an existing one; creation time is not in the SET list. */
  function Rewritten(keys: Fingerprinter, t: Table, p: Partner, now: Time): Table {
    if p.publicKey != "" && keys(p.publicKey) == None then t
    else if p.id !in t then t
    else t[p.id := p.(fingerprint := if p.publicKey == "" then "" else keys(p.publicKey).value,
                      createdAt := t[p.id].createdAt, updatedAt := now)]
  }

  datatype DidDocument = DidDocument(json: string, publicKey: string, pushUrl: string, pullUrl: string, etag: string)

  function Refreshed(keys: Fingerprinter, t: Table, id: string, doc: DidDocument, now: Time): Table {
    if doc.publicKey != "" && keys(doc.publicKey) == None then t
    else if id !in t then t
    else t[id := t[id].(didDocument := doc.json, fetchedAt := now, etag := doc.etag, publicKey := doc.publicKey,
                        fingerprint := if doc.publicKey == "" then "" else keys(doc.publicKey).value,
                        pushUrl := doc.pushUrl, pullUrl := doc.pullUrl, updatedAt := now)]
  }

  /** The table changed at this id only, where there is a row now. */
  ghost predicate OnlyRow(before: Table, after: Table, id: string) {
    id in after && after - {id} == before - {id}
  }

  /** The fingerprint of the row's key; none without a key. */
  predicate KeyFits(keys: Fingerprinter, r: Partner) {
    if r.publicKey == "" then r.fingerprint == "" else keys(r.publicKey) == Some(r.fingerprint)
  }

  predicate AddedRow(keys: Fingerprinter, p: Partner, r: Partner, now: Time) {
    && r.createdAt == r.updatedAt == now
    && r.(createdAt := p.createdAt, updatedAt := p.updatedAt, fingerprint := p.fingerprint) == p
    && (if p.publicKey == "" then r.fingerprint == p.fingerprint else KeyFits(keys, r))
  }

  predicate RewrittenRow(keys: Fingerprinter, before: Partner, p: Partner, r: Partner, now: Time) {
    && r.createdAt == before.createdAt && r.updatedAt == now && KeyFits(keys, r)
    && r.(createdAt := p.createdAt, updatedAt := p.updatedAt, fingerprint := p.fingerprint) == p
  }

  predicate RefreshedRow(keys: Fingerprinter, before: Partner, doc: DidDocument, r: Partner, now: Time) {
    && r.didDocument == doc.json && r.etag == doc.etag && r.fetchedAt == r.updatedAt == now
    && r.publicKey == doc.publicKey && r.pushUrl == doc.pushUrl && r.pullUrl == doc.pullUrl && KeyFits(keys, r)
    && r.id == before.id && r.canSupply == before.canSupply && r.canReceive == before.canReceive
    && r.enabled == before.enabled && r.didUri == before.didUri && r.authToken == before.authToken
    && r.createdAt == before.createdAt
  }

  predicate Matches(p: Partner, fp: string) {
    p.enabled && p.fingerprint == fp && fp != ""
  }

  /** Some enabled partner with the fingerprint; which one is open when several share it. */
  ghost predicate FingerprintHit(t: Table, fp: string, hit: Option<Partner>) {
    match hit
    case None => forall id :: id in t ==> !Matches(t[id], fp)
    case Some(p) => p.id in t && t[p.id] == p && Matches(p, fp)
  }

  ghost predicate LookupAnswer(t: Table, fp: string, dbOk: bool, hit: Option<Partner>) {
    if dbOk then FingerprintHit(t, fp, hit) else hit == None
  }

  class PartnerStore {
    var partners: Table
    const keys: Fingerprinter

    constructor (keys: Fingerprinter)
      ensures partners == map[] && this.keys == keys
    {
      this.partners, this.keys := map[], keys;
    }

    ghost predicate Valid()
      reads this
    {
      Indexed(keys, partners)
    }

    method Add(p: Partner, now: Time, dbOk: bool) returns (ok: bool)
      requires Valid()
      modifies this
      ensures Valid()
      ensures ok <==> dbOk && p.id !in old(partners) && Enrolled(keys, p, now).Some?
      ensures partners == if dbOk then Added(keys, old(partners), p, now) else old(partners)
      ensures ok ==> OnlyRow(old(partners), partners, p.id) && AddedRow(keys, p, partners[p.id], now)
      ensures !ok ==> partners == old(partners)
    {
      var row := p.(createdAt := now, updatedAt := now);
      if row.publicKey != "" {
        var fp := keys(row.publicKey);
        if fp == None {
          return false;
        }
        row := row.(fingerprint := fp.value);
      }
      if !dbOk || row.id in partners {
        return false;
      }
      partners := partners[row.id := row];
      return true;
    }

    method Update(p: Partner, now: Time, dbOk: bool) returns (ok: bool)
      requires Valid()
      modifies this
      ensures Valid()
      ensures ok <==> dbOk && (p.publicKey == "" || keys(p.publicKey).Some?)
      ensures partners == if dbOk then Rewritten(keys, old(partners), p, now) else old(partners)
      ensures ok && p.id in old(partners) ==>
        OnlyRow(old(partners), partners, p.id) && RewrittenRow(keys, old(partners)[p.id], p, partners[p.id], now)
      ensures !ok || p.id !in old(partners) ==> partners == old(partners)
    {
      var row := p.(updatedAt := now);
      if row.publicKey != "" {
        var fp := keys(row.publicKey);
        if fp == None {
          return false;
        }
        row := row.(fingerprint := fp.value);
      } else {
        row := row.(fingerprint := "");
      }
      if !dbOk {
        return false;
      }
      if row.id in partners {
        partners := partners[row.id := row.(createdAt := partners[row.id].createdAt)];
      }
      return true;
    }

    method UpdateDIDDocument(id: string, doc: DidDocument, now: Time, dbOk: bool) returns (ok: bool)
      requires Valid()
      modifies this
      ensures Valid()
      ensures ok <==> dbOk && (doc.publicKey == "" || keys(doc.publicKey).Some?)
      ensures partners == if dbOk then Refreshed(keys, old(partners), id, doc, now) else old(partners)
      ensures ok && id in old(partners) ==>
        OnlyRow(old(partners), partners, id) && RefreshedRow(keys, old(partners)[id], doc, partners[id], now)
      ensures !ok || id !in old(partners) ==> partners == old(partners)
    {
      var fingerprint := "";
      if doc.publicKey != "" {
        var fp := keys(doc.publicKey);
        if fp == None {
          return false;
        }
        fingerprint := fp.value;
      }
      if !dbOk {
        return false;
      }
      if id in partners {
        partners := partners[id := partners[id].(didDocument := doc.json, fetchedAt := now, etag := doc.etag,
          publicKey := doc.publicKey, fingerprint := fingerprint, pushUrl := doc.pushUrl, pullUrl := doc.pullUrl,
          updatedAt := now)];
      }
      return true;
    }

    /** A failing query gives no partner. */
    method GetByFingerprint(fp: string, dbOk: bool) returns (hit: Option<Partner>)
      requires Valid()
      ensures LookupAnswer(partners, fp, dbOk, hit)
      ensures hit.Some? ==>
        dbOk && hit.value.enabled && hit.value.fingerprint == fp != "" && hit.value in partners.Values
      ensures dbOk && fp != "" && hit == None ==> forall p :: p in partners.Values && p.enabled ==> p.fingerprint != fp
    {
      if !dbOk {
        return None;
      }
      var todo := partners.Keys;
      while todo != {}
        invariant todo <= partners.Keys
        invariant forall id :: id in partners.Keys - todo ==> !Matches(partners[id], fp)
        decreases |todo|
      {
        var id :| id in todo;
        if Matches(partners[id], fp) {
          return Some(partners[id]);
        }
        todo := todo - {id};
      }
      return None;
    }

    method HasSuppliers(dbOk: bool) returns (has: bool)
      ensures has <==> dbOk && exists id :: id in partners && partners[id].enabled && partners[id].canSupply
    {
      if !dbOk {
        return false;
      }
      var count, todo := 0, partners.Keys;
      while todo != {}
        invariant todo <= partners.Keys && count >= 0
        invariant count > 0 <==>
          exists id :: id in partners.Keys - todo && partners[id].enabled && partners[id].canSupply
        decreases |todo|
      {
        var id :| id in todo;
        if partners[id].enabled && partners[id].canSupply {
          count := count + 1;
        }
        todo := todo - {id};
      }
      return count > 0;
    }

    /** `fp` is the fingerprint of the presented key, "" when it cannot be computed. */
    method IsTrustedSupplier(fp: string, dbOk: bool) returns (trusted: Option<string>)
      requires Valid()
      ensures exists hit :: LookupAnswer(partners, fp, dbOk, hit) && trusted == TrustedId(hit)
    {
      if fp == "" {
        assert LookupAnswer(partners, fp, dbOk, None);
        return None;
      }
      var p := GetByFingerprint(fp, dbOk);
      if p == None {
        return None;
      }
      if !p.value.canSupply {
        return None;
      }
      return Some(p.value.id);
    }

    /** A lookup that fails, `gets[i]`, is taken for absence; the insert then fails on an existing id. */
    method BootstrapPartners(entries: seq<Entry>, gets: seq<bool>, adds: seq<bool>, now: Time)
      requires Valid() && |gets| == |adds| == |entries|
      modifies this
      ensures Valid()
      ensures partners == Bootstrapped(keys, old(partners), entries, adds, now)
    {
      for i := 0 to |entries|
        invariant Valid()
        invariant partners == Bootstrapped(keys, old(partners), entries[..i], adds[..i], now)
      {
        assert entries[..i + 1][..i] == entries[..i] && adds[..i + 1][..i] == adds[..i];
        var pc := entries[i];
        if pc.id == "" {
          continue;
        }
        if gets[i] && pc.id in partners {
          continue;
        }
        var enabled, canSupply, canReceive := true, false, false;
        if pc.enabled.Some? {
          enabled := pc.enabled.value;
        }
        if pc.canSupply.Some? {
          canSupply := pc.canSupply.value;
        }
        if pc.canReceive.Some? {
          canReceive := pc.canReceive.value;
        }
        var p := Partner(pc.id, canSupply, canReceive, pc.did, "", pc.pushUrl, pc.pullUrl, pc.authToken, "", 0, "", "",
                         enabled, 0, 0);
        if pc.keyFile.Pem? && pc.keyFile.loads {
          p := p.(publicKey := pc.keyFile.text);
        }
        assert p == FromEntry(pc);
        var _ := Add(p, now, adds[i]);
      }
      assert entries[..|entries|] == entries && adds[..|adds|] == adds;
    }
  }

  function TrustedId(hit: Option<Partner>): Option<string> {
    if hit.Some? && hit.value.canSupply then Some(hit.value.id) else None
  }

  /** A trusted answer names an enabled supplier that holds the key. */
  lemma TrustIsSound(keys: Fingerprinter, t: Table, fp: string, dbOk: bool, hit: Option<Partner>)
    requires LawfulKeys(keys) && Indexed(keys, t) && NoStrayFingerprints(t) && LookupAnswer(t, fp, dbOk, hit)
    ensures SoundTrust(keys, t, fp, hit)
  {
  }

  ghost predicate SoundTrust(keys: Fingerprinter, t: Table, fp: string, hit: Option<Partner>) {
    TrustedId(hit).Some? ==>
      var id := TrustedId(hit).value;
      id in t && t[id].enabled && t[id].canSupply && keys(t[id].publicKey) == Some(fp)
  }

  /** Whether a key is trusted depends on the row picked unless all its enabled holders agree. */
  lemma TrustedWhateverRowIff(t: Table, fp: string)
    requires forall id :: id in t ==> t[id].id == id
    ensures (forall hit :: FingerprintHit(t, fp, hit) ==> TrustedId(hit).Some?)
      <==> (exists id :: id in t && Matches(t[id], fp))
           && (forall id :: id in t && Matches(t[id], fp) ==> t[id].canSupply)
  {
    if forall hit :: FingerprintHit(t, fp, hit) ==> TrustedId(hit).Some? {
      assert !FingerprintHit(t, fp, None);
      forall id | id in t && Matches(t[id], fp) ensures t[id].canSupply {
        assert FingerprintHit(t, fp, Some(t[id]));
      }
    }
  }

  // ---------- the fingerprint column over all operations ----------

  datatype Operation =
    | AddOp(p: Partner, now: Time)
    | UpdateOp(p: Partner, now: Time)
    | RefreshOp(id: string, doc: DidDocument, now: Time)
    | DeleteOp(id: string)

  function Apply(keys: Fingerprinter, t: Table, op: Operation): Table {
    match op
    case AddOp(p, now) => Added(keys, t, p, now)
    case UpdateOp(p, now) => Rewritten(keys, t, p, now)
    case RefreshOp(id, doc, now) => Refreshed(keys, t, id, doc, now)
    case DeleteOp(id) => t - {id}
  }

  function ApplyAll(keys: Fingerprinter, ops: seq<Operation>): Table {
    if ops == [] then map[] else Apply(keys, ApplyAll(keys, ops[..|ops| - 1]), ops[|ops| - 1])
  }

  /** No Add carries a fingerprint without a key. */
  predicate PlainAdds(ops: seq<Operation>) {
    forall i :: 0 <= i < |ops| && ops[i].AddOp? ==> ops[i].p.publicKey != "" || ops[i].p.fingerprint == ""
  }

  lemma OperationKeepsIndex(keys: Fingerprinter, t: Table, op: Operation)
    requires Indexed(keys, t)
    ensures Indexed(keys, Apply(keys, t, op))
  {
  }

  lemma OperationAddsNoStray(keys: Fingerprinter, t: Table, op: Operation)
    requires NoStrayFingerprints(t) && PlainAdds([op])
    ensures NoStrayFingerprints(Apply(keys, t, op))
  {
    assert [op][0].AddOp? ==> [op][0].p.publicKey != "" || [op][0].p.fingerprint == "";
  }

  lemma {:induction false} IndexHoldsOverAllOperations(keys: Fingerprinter, ops: seq<Operation>)
    ensures Indexed(keys, ApplyAll(keys, ops))
    ensures PlainAdds(ops) ==> NoStrayFingerprints(ApplyAll(keys, ops))
  {
    if ops != [] {
      var n := |ops| - 1;
      IndexHoldsOverAllOperations(keys, ops[..n]);
      OperationKeepsIndex(keys, ApplyAll(keys, ops[..n]), ops[n]);
      if PlainAdds(ops) {
        OperationAddsNoStray(keys, ApplyAll(keys, ops[..n]), ops[n]);
      }
    }
  }

  /** The exception is real: such an Add, when it succeeds, leaves a fingerprint that belongs to no stored key. */
  lemma AddLeavesStrayIff(keys: Fingerprinter, t: Table, p: Partner, now: Time)
    requires NoStrayFingerprints(t) && p.id !in t && Enrolled(keys, p, now).Some?
    ensures NoStrayFingerprints(Added(keys, t, p, now)) <==> p.publicKey != "" || p.fingerprint == ""
  {
    assert p.id in Added(keys, t, p, now);
  }

  /** Two partners enrolled with one key, only one of which may supply: the key is trusted or not as rows fall. */
  lemma TrustDependsOnRow(keys: Fingerprinter, p: Partner, q: Partner, now: Time)
    requires p.id != q.id && p.publicKey == q.publicKey != "" && keys(p.publicKey).Some?
    requires keys(p.publicKey).value != "" && p.enabled && q.enabled && p.canSupply && !q.canSupply
    ensures
      var t, fp := ApplyAll(keys, [AddOp(p, now), AddOp(q, now)]), keys(p.publicKey).value;
      && PlainAdds([AddOp(p, now), AddOp(q, now)])
      && (exists hit :: FingerprintHit(t, fp, hit) && TrustedId(hit) == Some(p.id))
      && (exists hit :: FingerprintHit(t, fp, hit) && TrustedId(hit) == None)
  {
    var ops := [AddOp(p, now), AddOp(q, now)];
    assert ops[..1] == [AddOp(p, now)] && ops[..1][..0] == [];
    assert ApplyAll(keys, ops[..1]) == Added(keys, map[], p, now);
    var t, fp := ApplyAll(keys, ops), keys(p.publicKey).value;
    var first, second := t[p.id], t[q.id];
    assert FingerprintHit(t, fp, Some(first)) && FingerprintHit(t, fp, Some(second));
  }

  // ---------- routing ----------

  datatype RouteConfig = RouteConfig(callback: bool, partnerStore: bool, didPush: bool, push: bool, pushUrl: string,
                                     pushToken: string, mode: string)

  function ResolveViaPartner(rc: RouteConfig, hit: Option<Partner>): Option<VoucherDestination> {
    match hit
    case None => None
    case Some(p) =>
      if !p.canReceive then None
      else if p.pushUrl == "" then None
      else Some(VoucherDestination(p.pushUrl, p.authToken, "partner:" + p.id, rc.mode))
  }

  /** `output` is the callback's trimmed output, None when running it failed. */
  function ResolveViaCallback(rc: RouteConfig, output: Option<string>): Option<VoucherDestination> {
    if output == None || output.value == "" then None
    else Some(VoucherDestination(output.value, "", "callback", rc.mode))
  }

  function ResolveDestination(rc: RouteConfig, output: Option<string>, hit: Option<Partner>, didUrl: string,
                              fp: string):
    Option<VoucherDestination>
  {
    var viaCallback := if rc.callback then ResolveViaCallback(rc, output) else None;
    if viaCallback.Some? then viaCallback
    else
      var viaPartner := if rc.partnerStore && fp != "" then ResolveViaPartner(rc, hit) else None;
      if viaPartner.Some? then viaPartner
      else if rc.didPush && didUrl != "" then Some(VoucherDestination(didUrl, "", "did", rc.mode))
      else if rc.push && rc.pushUrl != "" then Some(VoucherDestination(rc.pushUrl, rc.pushToken, "static", rc.mode))
      else None
  }

  /** The fingerprint routes to this partner: enabled, receiving, reachable, and holding the next owner's key. */
  ghost predicate PartnerFits(keys: Fingerprinter, t: Table, p: Partner, fp: string) {
    p.id in t && t[p.id] == p && p.enabled && p.canReceive && p.pushUrl != "" && keys(p.publicKey) == Some(fp)
  }

  /** A resolved destination always has a URL; a partner's is used only when no callback answered and it fits. */
  ghost predicate SoundRoute(keys: Fingerprinter, t: Table, rc: RouteConfig, output: Option<string>,
                             hit: Option<Partner>, didUrl: string, fp: string)
  {
    var dest := ResolveDestination(rc, output, hit, didUrl, fp);
    var called := rc.callback && output.Some? && output.value != "";
    var partnered := rc.partnerStore && hit.Some? && PartnerFits(keys, t, hit.value, fp);
    && (dest.Some? ==> dest.value.url != "" && dest.value.mode == rc.mode)
    && (dest == None <==> !called && !partnered && !(rc.didPush && didUrl != "") && !(rc.push && rc.pushUrl != ""))
    && (called ==> dest == Some(VoucherDestination(output.value, "", "callback", rc.mode)))
    && (!called && partnered ==>
          dest == Some(VoucherDestination(hit.value.pushUrl, hit.value.authToken, "partner:" + hit.value.id, rc.mode)))
    && (!called && !partnered && rc.didPush && didUrl != "" ==>
          dest == Some(VoucherDestination(didUrl, "", "did", rc.mode)))
    && (dest.Some? && !called && !partnered && !(rc.didPush && didUrl != "") ==>
          dest == Some(VoucherDestination(rc.pushUrl, rc.pushToken, "static", rc.mode)))
  }

  /** A lookup that fails skips the partner: the route is then as without one. */
  lemma RoutingIsSound(keys: Fingerprinter, t: Table, rc: RouteConfig, output: Option<string>, dbOk: bool,
                       hit: Option<Partner>, didUrl: string, fp: string)
    requires LawfulKeys(keys) && Indexed(keys, t) && NoStrayFingerprints(t) && LookupAnswer(t, fp, dbOk, hit)
    ensures SoundRoute(keys, t, rc, output, hit, didUrl, fp)
    ensures !dbOk ==>
      var without := rc.(partnerStore := false);
      ResolveDestination(rc, output, hit, didUrl, fp) == ResolveDestination(without, output, None, didUrl, fp)
  {
  }

  /**
   * Whatever operations led to the table, as long as no Add brought a fingerprint without a key, trust and
   * routing are about the key that was presented, whichever matching row the lookup returns.
   */
  lemma PartnersAreSoundOverAllOperations(keys: Fingerprinter, ops: seq<Operation>, rc: RouteConfig,
                                          output: Option<string>, dbOk: bool, hit: Option<Partner>, didUrl: string,
                                          fp: string)
    requires LawfulKeys(keys) && PlainAdds(ops) && LookupAnswer(ApplyAll(keys, ops), fp, dbOk, hit)
    ensures SoundTrust(keys, ApplyAll(keys, ops), fp, hit)
    ensures SoundRoute(keys, ApplyAll(keys, ops), rc, output, hit, didUrl, fp)
  {
    IndexHoldsOverAllOperations(keys, ops);
    TrustIsSound(keys, ApplyAll(keys, ops), fp, dbOk, hit);
    RoutingIsSound(keys, ApplyAll(keys, ops), rc, output, dbOk, hit, didUrl, fp);
  }

  // ---------- bootstrap ----------

  datatype KeyFile = NoFile | Unreadable | Pem(text: string, loads: bool)

  datatype Entry = Entry(id: string, canSupply: Option<bool>, canReceive: Option<bool>, did: string, keyFile: KeyFile,
                         pushUrl: string, pullUrl: string, authToken: string, enabled: Option<bool>)

  function Or(o: Option<bool>, default: bool): bool {
    if o.Some? then o.value else default
  }

  function FromEntry(e: Entry): Partner {
    Partner(e.id, Or(e.canSupply, false), Or(e.canReceive, false), e.did,
            if e.keyFile.Pem? && e.keyFile.loads then e.keyFile.text else "",
            e.pushUrl, e.pullUrl, e.authToken, "", 0, "", "", Or(e.enabled, true), 0, 0)
  }

  /** `adds[i]` is false when the database refuses the insert for entry `i`. */
  function Bootstrapped(keys: Fingerprinter, t: Table, entries: seq<Entry>, adds: seq<bool>, now: Time): Table
    requires |adds| == |entries|
  {
    if entries == [] then t
    else
      var n := |entries| - 1;
      var mid := Bootstrapped(keys, t, entries[..n], adds[..n], now);
      if entries[n].id == "" || !adds[n] then mid else Added(keys, mid, FromEntry(entries[n]), now)
  }

  /** The entry has an id, and its key, if it names one that loads, has a fingerprint. */
  predicate Usable(keys: Fingerprinter, e: Entry) {
    e.id != "" && Enrolled(keys, FromEntry(e), 0).Some?
  }

  /** `i` is the first usable entry for its id that the database accepts. */
  ghost predicate FirstUsable(keys: Fingerprinter, entries: seq<Entry>, adds: seq<bool>, i: nat)
    requires |adds| == |entries|
  {
    && i < |entries| && adds[i] && Usable(keys, entries[i])
    && forall j :: 0 <= j < i && adds[j] && entries[j].id == entries[i].id ==> !Usable(keys, entries[j])
  }

  ghost predicate HasUsable(keys: Fingerprinter, entries: seq<Entry>, adds: seq<bool>, id: string)
    requires |adds| == |entries|
  {
    exists i :: 0 <= i < |entries| && adds[i] && entries[i].id == id && Usable(keys, entries[i])
  }

  lemma HasUsableSnoc(keys: Fingerprinter, entries: seq<Entry>, adds: seq<bool>, id: string)
    requires 0 < |adds| == |entries|
    ensures
      var n := |entries| - 1;
      HasUsable(keys, entries, adds, id) <==>
        HasUsable(keys, entries[..n], adds[..n], id) || (adds[n] && id == entries[n].id && Usable(keys, entries[n]))
  {
    var n := |entries| - 1;
    if HasUsable(keys, entries[..n], adds[..n], id) {
      var i :| 0 <= i < n && adds[..n][i] && entries[..n][i].id == id && Usable(keys, entries[..n][i]);
      assert adds[i] && entries[i].id == id && Usable(keys, entries[i]);
    }
    if HasUsable(keys, entries, adds, id) {
      var i :| 0 <= i < |entries| && adds[i] && entries[i].id == id && Usable(keys, entries[i]);
      assert i < n ==> adds[..n][i] && entries[..n][i] == entries[i];
    }
  }

  /** Old rows stay as they are, and the new ids are exactly those with a usable entry that was stored. */
  lemma {:induction false} BootstrapOnlyAdds(keys: Fingerprinter, t: Table, entries: seq<Entry>, adds: seq<bool>,
                                            now: Time, id: string)
    requires |adds| == |entries|
    ensures
      var after := Bootstrapped(keys, t, entries, adds, now);
      && (id in t ==> id in after && after[id] == t[id])
      && (id in after <==> id in t || HasUsable(keys, entries, adds, id))
  {
    if entries != [] {
      var n := |entries| - 1;
      BootstrapOnlyAdds(keys, t, entries[..n], adds[..n], now, id);
      HasUsableSnoc(keys, entries, adds, id);
    }
  }

  /** The row a configuration entry enrols: enabled unless it says no, and with no right it does not give. */
  predicate EnrolsAs(keys: Fingerprinter, e: Entry, r: Partner, now: Time) {
    && r.id == e.id && (r.enabled <==> e.enabled != Some(false))
    && (r.canSupply <==> e.canSupply == Some(true)) && (r.canReceive <==> e.canReceive == Some(true))
    && r.didUri == e.did && r.pushUrl == e.pushUrl && r.pullUrl == e.pullUrl && r.authToken == e.authToken
    && r.publicKey == (if e.keyFile.Pem? && e.keyFile.loads then e.keyFile.text else "") && KeyFits(keys, r)
    && r.didDocument == r.etag == "" && r.fetchedAt == 0 && r.createdAt == r.updatedAt == now
  }

  /** Each new id gets the row of its first usable entry. */
  lemma {:induction false} FirstUsableEntryWins(keys: Fingerprinter, t: Table, entries: seq<Entry>, adds: seq<bool>,
                                               now: Time, i: nat)
    requires |adds| == |entries| && FirstUsable(keys, entries, adds, i) && entries[i].id !in t
    ensures
      var after := Bootstrapped(keys, t, entries, adds, now);
      && entries[i].id in after && after[entries[i].id] == Enrolled(keys, FromEntry(entries[i]), now).value
      && EnrolsAs(keys, entries[i], after[entries[i].id], now)
  {
    var n := |entries| - 1;
    if i < n {
      assert FirstUsable(keys, entries[..n], adds[..n], i);
      FirstUsableEntryWins(keys, t, entries[..n], adds[..n], now, i);
    } else {
      assert !HasUsable(keys, entries[..n], adds[..n], entries[n].id);
      BootstrapOnlyAdds(keys, t, entries[..n], adds[..n], now, entries[n].id);
    }
  }

  ghost predicate AllEnrolled(keys: Fingerprinter, t: Table, entries: seq<Entry>) {
    forall i :: 0 <= i < |entries| && Usable(keys, entries[i]) ==> entries[i].id in t
  }

  function AllStored(n: nat): (adds: seq<bool>)
    ensures |adds| == n && forall i :: 0 <= i < n ==> adds[i]
  {
    seq(n, _ => true)
  }

  lemma {:induction false} EnrolledStays(keys: Fingerprinter, t: Table, entries: seq<Entry>, adds: seq<bool>, now: Time)
    requires |adds| == |entries| && AllEnrolled(keys, t, entries)
    ensures Bootstrapped(keys, t, entries, adds, now) == t
  {
    if entries != [] {
      var n := |entries| - 1;
      assert forall i :: 0 <= i < n ==> entries[..n][i] == entries[i];
      EnrolledStays(keys, t, entries[..n], adds[..n], now);
    }
  }

  /** A pass over the configuration changes nothing, whatever the database does, exactly when all are enrolled. */
  lemma BootstrapSettledIff(keys: Fingerprinter, t: Table, entries: seq<Entry>, now: Time)
    ensures (forall adds: seq<bool> :: |adds| == |entries| ==> Bootstrapped(keys, t, entries, adds, now) == t)
      <==> AllEnrolled(keys, t, entries)
  {
    if AllEnrolled(keys, t, entries) {
      forall adds: seq<bool> | |adds| == |entries| ensures Bootstrapped(keys, t, entries, adds, now) == t {
        EnrolledStays(keys, t, entries, adds, now);
      }
    } else {
      var i :| 0 <= i < |entries| && Usable(keys, entries[i]) && entries[i].id !in t;
      var adds := AllStored(|entries|);
      BootstrapOnlyAdds(keys, t, entries, adds, now, entries[i].id);
      assert HasUsable(keys, entries, adds, entries[i].id);
    }
  }

  /**
   * A later pass over any configuration, say with other key files, changes nothing whatever the database does,
   * exactly when each of its usable entries has an id that was there before or usable in the first pass.
   */
  lemma BootstrapAgainIff(keys: Fingerprinter, t: Table, entries: seq<Entry>, adds: seq<bool>, again: seq<Entry>,
                          now: Time, later: Time)
    requires |adds| == |entries|
    ensures
      var once := Bootstrapped(keys, t, entries, adds, now);
      (forall adds': seq<bool> :: |adds'| == |again| ==> Bootstrapped(keys, once, again, adds', later) == once)
        <==> (forall i :: 0 <= i < |again| && Usable(keys, again[i]) ==>
                again[i].id in t || HasUsable(keys, entries, adds, again[i].id))
  {
    var once := Bootstrapped(keys, t, entries, adds, now);
    BootstrapSettledIff(keys, once, again, later);
    forall i | 0 <= i < |again|
      ensures again[i].id in once <==> again[i].id in t || HasUsable(keys, entries, adds, again[i].id)
    {
      BootstrapOnlyAdds(keys, t, entries, adds, now, again[i].id);
    }
  }

  /** So after one pass whose inserts were accepted, a second one over the same entries changes nothing. */
  lemma BootstrapIsIdempotent(keys: Fingerprinter, t: Table, entries: seq<Entry>, again: seq<bool>,
                              now: Time, later: Time)
    requires |again| == |entries|
    ensures
      var once := Bootstrapped(keys, t, entries, AllStored(|entries|), now);
      Bootstrapped(keys, once, entries, again, later) == once
  {
    var adds := AllStored(|entries|);
    var once := Bootstrapped(keys, t, entries, adds, now);
    forall i | 0 <= i < |entries| && Usable(keys, entries[i]) ensures entries[i].id in once {
      BootstrapOnlyAdds(keys, t, entries, adds, now, entries[i].id);
      assert HasUsable(keys, entries, adds, entries[i].id);
    }
    EnrolledStays(keys, once, entries, again, later);
  }
}
