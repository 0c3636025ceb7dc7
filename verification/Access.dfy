/** Who may see a voucher: the query view and the gates of the pull, status and assign endpoints. */
module Access {
  import opened Common
  import opened Records
  import opened Queries
  import opened TransmissionStore
  import opened Assignment

  /** GetVoucher: the newest record's owner is let in directly, anyone else through HasAccessByGUID. */
  ghost predicate PullAllows(rows: seq<Row>, grants: seq<Grant>, latest: Row, guid: string, fp: string) {
    latest.owner == fp || Accessible(rows, grants, guid, fp)
  }

  /** The voucher has a record, and the fingerprint may see it. */
  ghost predicate MayPull(rows: seq<Row>, grants: seq<Grant>, guid: string, fp: string) {
    guid != "" && HasRecord(rows, guid) && Accessible(rows, grants, guid, fp)
  }

  /** Whichever newest record of the voucher is found, the fingerprint owns it. */
  ghost predicate OwnsNewest(rows: seq<Row>, guid: string, fp: string) {
    guid != "" && forall hit :: Newest(rows, HasGuid(guid), hit) ==> hit.Some? && hit.value.owner == fp
  }

  ghost predicate StatusAllows(rows: seq<Row>, grants: seq<Grant>, rec: Row, caller: Caller) {
    Scoped(Http, caller) ==> Accessible(rows, grants, rec.guid, caller.fingerprint) || rec.owner == caller.fingerprint
  }

  datatype StatusAnswer = Shown | Hidden | Failure

  class AccessGates {
    const store: VoucherTransmissionStore

    constructor (store: VoucherTransmissionStore)
      ensures this.store == store
    {
      this.store := store;
    }

    /** The gate of PullVoucherStore.GetVoucher; a nil fingerprint is not scoped, a failing query denies. */
    method PullGate(fp: Option<string>, guid: string, lookupOk: bool, accessOk: bool) returns (allowed: bool)
      requires store.Valid()
      ensures fp == None ==> allowed
      ensures fp.Some? && allowed ==> lookupOk && MayPull(store.rows, store.grants, guid, fp.value)
      ensures fp.Some? && lookupOk && accessOk && MayPull(store.rows, store.grants, guid, fp.value) ==> allowed
      ensures fp.Some? && lookupOk && OwnsNewest(store.rows, guid, fp.value) ==> allowed
    {
      if fp == None {
        return true;
      }
      if !lookupOk {
        return false;
      }
      var rec := store.FetchLatestByGUID(guid);
      if rec == None {
        return false;
      }
      if rec.value.owner == fp.value {
        return true;
      }
      if !accessOk {
        return false;
      }
      allowed := store.HasAccessByGUID(guid, fp.value);
    }

    /** The gate of the status endpoint, for the record it looked up. */
    method StatusGate(rec: Row, caller: Caller, accessOk: bool) returns (answer: StatusAnswer)
      ensures answer == Failure <==> Scoped(Http, caller) && !accessOk
      ensures answer != Failure ==> (answer == Shown <==> StatusAllows(store.rows, store.grants, rec, caller))
    {
      if caller.auth != GlobalToken && caller.fingerprint != "" {
        if !accessOk {
          return Failure;
        }
        var hasAccess := store.HasAccessByGUID(rec.guid, caller.fingerprint);
        if !hasAccess {
          if rec.owner != caller.fingerprint {
            return Hidden;
          }
        }
      }
      return Shown;
    }
  }

  /**
   * For a voucher with a record and a scoped caller, the unlimited listing, the stored-access query and the
   * three gates give one answer. `latest` and `found` are the records the endpoints looked up.
   */
  lemma FiveDecisionsAgree(w: World, guid: string, latest: Row, found: Row, call: AssignCall,
                           list: seq<Row>, limit: nat)
    requires Scoped(call.channel, call.caller)
    requires Newest(w.rows, HasGuid(guid), Some(latest))
    requires found in w.rows && found.guid == guid
    requires Limited(list, VisibleRows(w.rows, w.grants, call.caller.fingerprint), NewestFirst, limit)
    requires |VisibleRows(w.rows, w.grants, call.caller.fingerprint)| <= limit
    ensures
      var may := Accessible(w.rows, w.grants, guid, call.caller.fingerprint);
      && (may <==> exists r :: r in list && r.guid == guid)
      && (may <==> PullAllows(w.rows, w.grants, latest, guid, call.caller.fingerprint))
      && (may <==> StatusAllows(w.rows, w.grants, found, call.caller))
      && (may <==> !Denied(w, call, found, true))
  {
    var fp := call.caller.fingerprint;
    var all := VisibleRows(w.rows, w.grants, fp);
    UnlimitedIsAll(list, all, NewestFirst, limit);
    if Accessible(w.rows, w.grants, guid, fp) {
      if r :| r in w.rows && r.guid == guid && r.owner == fp {
        assert r in all && r in Elems(list);
      } else {
        assert RowVisible(latest, w.grants, fp);
        assert latest in all && latest in Elems(list);
      }
    }
    if r :| r in list && r.guid == guid {
      assert r in Elems(list);
      assert r in all;
    }
  }
}
