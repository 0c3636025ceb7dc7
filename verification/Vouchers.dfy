/** Ownership vouchers as the application sees them, and the library calls it relies on. */
module Vouchers {
  import opened Common

  /** A key pair is named by a number; equal numbers mean the same key pair. */
  type KeyId = nat

  datatype KeyKind = Ecdsa | Rsa | X5Chain | OtherKind

  datatype PublicKey = PublicKey(kind: KeyKind, id: KeyId)

  datatype Entry = Entry(nextOwner: KeyId, signature: nat)

  datatype Voucher = Voucher(guid: Guid, manufacturer: KeyId, entries: seq<Entry>)

  /** The key at the tip of the ownership chain. */
  function Tip(v: Voucher): KeyId {
    if v.entries == [] then v.manufacturer else v.entries[|v.entries| - 1].nextOwner
  }

  /** Defined only when the signer holds the key at the tip; the signature is random. */
  function ExtendVoucher(v: Voucher, signer: KeyId, next: KeyId, signature: nat): Option<Voucher> {
    if signer == Tip(v) then Some(v.(entries := v.entries + [Entry(next, signature)])) else None
  }

  /** `ext` is `v` plus exactly one entry. */
  ghost predicate ExtendsByOne(v: Voucher, ext: Voucher) {
    && ext.guid == v.guid
    && ext.manufacturer == v.manufacturer
    && |ext.entries| == |v.entries| + 1
    && ext.entries[..|v.entries|] == v.entries
  }

  /** The parts of the FDO library that this model does not look into. */
  datatype Library = Library(
    parse: Bytes -> Option<Voucher>,
    format: Voucher -> Bytes,
    isPem: Bytes -> bool,
    wrapPem: Bytes -> Bytes,
    fingerprint: PublicKey -> string)

  /** Parsing undoes formatting, and wrapping bytes that are not PEM yet does not change what they parse to. */
  ghost predicate Lawful(lib: Library) {
    && (forall v :: lib.parse(lib.format(v)) == Some(v))
    && (forall b :: !lib.isPem(b) && lib.parse(b).Some? ==> lib.parse(lib.wrapPem(b)) == lib.parse(b))
  }

  lemma ExtendMeansOneMore(v: Voucher, signer: KeyId, next: KeyId, signature: nat)
    ensures ExtendVoucher(v, signer, next, signature).Some? <==> signer == Tip(v)
    ensures signer == Tip(v) ==>
      var ext := ExtendVoucher(v, signer, next, signature).value;
      ExtendsByOne(v, ext) && Tip(ext) == next
  {
  }
}
