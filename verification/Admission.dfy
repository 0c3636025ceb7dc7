/** Whose vouchers come in: every reception passed the manufacturer gate, and what the gate's answer rests on. */
module Admission {
  import opened Common
  import opened Vouchers
  import opened Settings
  import opened Intake
  import opened Runs
  import Partners

  /** The step brought in these bytes, past the gate. */
  predicate Brought(cfg: Config, step: Step, e: Event) {
    && step.Receive? && e.Received?
    && cfg.lib.parse(step.raw).Some? && e.guid == Hex(cfg.lib.parse(step.raw).value.guid)
    && e.bytes == (if cfg.lib.isPem(step.raw) then step.raw else cfg.lib.wrapPem(step.raw))
    && step.rio.supplier != UnreadableKey
    && (cfg.requireTrustedManufacturer ==> step.rio.supplier == NoPartnerStore || step.rio.supplier == Checked(true))
  }

  lemma StepBrings(cfg: Config, s: System, step: Step, e: Event)
    requires e.Received? && e in Next(cfg, s, step).log && e !in s.log
    ensures Brought(cfg, step, e)
  {
    if step.Receive? { ReceiveAnswers(cfg, s.world.files, step.raw, step.rio); }
  }

  /** Every reception in a run's history came through a step that passed the gate. */
  lemma {:induction false} ReceptionsPassedTheGate(cfg: Config, steps: seq<Step>, e: Event) returns (i: nat)
    requires e.Received? && e in Run(cfg, steps).log
    ensures i < |steps| && Brought(cfg, steps[i], e)
  {
    var n := |steps| - 1;
    if e in Run(cfg, steps[..n]).log {
      i := ReceptionsPassedTheGate(cfg, steps[..n], e);
    } else {
      StepBrings(cfg, Run(cfg, steps[..n]), steps[n], e);
      i := n;
    }
  }

  /** The partner table when a voucher came in, by its history, whether the lookup worked, and the key looked up. */
  datatype Lookup = Lookup(ops: seq<Partners.Operation>, dbOk: bool, key: PublicKey)

  /** The step's supplier is what the partner store answers about the voucher's manufacturer key. */
  ghost predicate AskedStore(cfg: Config, keys: Partners.Fingerprinter, step: Step, l: Lookup)
    requires step.Receive?
  {
    step.rio.supplier.Checked? && cfg.lib.parse(step.raw).Some? ==>
      && l.key.id == cfg.lib.parse(step.raw).value.manufacturer
      && StoreSays(keys, l, cfg.lib.fingerprint(l.key), step.rio.supplier.trusted)
  }

  ghost predicate StoreSays(keys: Partners.Fingerprinter, l: Lookup, fp: string, trusted: bool) {
    exists hit :: Partners.LookupAnswer(Partners.ApplyAll(keys, l.ops), fp, l.dbOk, hit)
                  && trusted == Partners.TrustedId(hit).Some?
  }

  /** An enabled supplier in the table holds the key with this fingerprint. */
  ghost predicate SupplierHolds(keys: Partners.Fingerprinter, t: Partners.Table, fp: string) {
    exists id :: id in t && t[id].enabled && t[id].canSupply && keys(t[id].publicKey) == Some(fp)
  }

  lemma TrustedMeansSupplier(keys: Partners.Fingerprinter, l: Lookup, fp: string)
    requires Partners.LawfulKeys(keys) && Partners.PlainAdds(l.ops) && StoreSays(keys, l, fp, true)
    ensures SupplierHolds(keys, Partners.ApplyAll(keys, l.ops), fp)
  {
    var t := Partners.ApplyAll(keys, l.ops);
    var hit :| Partners.LookupAnswer(t, fp, l.dbOk, hit) && Partners.TrustedId(hit).Some?;
    Partners.IndexHoldsOverAllOperations(keys, l.ops);
    Partners.TrustIsSound(keys, t, fp, l.dbOk, hit);
    assert Partners.TrustedId(hit).value in t;
  }

  /**
   * With the setting on and a partner store in place, every voucher a run ever received came from a manufacturer
   * whose key an enabled supplier held at the time, whatever happened to the partners before.
   */
  lemma ReceivedFromSuppliers(cfg: Config, steps: seq<Step>, keys: Partners.Fingerprinter, lookups: seq<Lookup>,
                              e: Event) returns (i: nat)
    requires cfg.requireTrustedManufacturer && Partners.LawfulKeys(keys) && |lookups| == |steps|
    requires forall k :: 0 <= k < |steps| && steps[k].Receive? ==>
      steps[k].rio.supplier != NoPartnerStore && AskedStore(cfg, keys, steps[k], lookups[k])
    requires forall k :: 0 <= k < |lookups| ==> Partners.PlainAdds(lookups[k].ops)
    requires e.Received? && e in Run(cfg, steps).log
    ensures i < |steps| && Brought(cfg, steps[i], e)
    ensures lookups[i].key.id == cfg.lib.parse(steps[i].raw).value.manufacturer
    ensures SupplierHolds(keys, Partners.ApplyAll(keys, lookups[i].ops), cfg.lib.fingerprint(lookups[i].key))
  {
    i := ReceptionsPassedTheGate(cfg, steps, e);
    TrustedMeansSupplier(keys, lookups[i], cfg.lib.fingerprint(lookups[i].key));
  }
}
