/** Receipts, receipt aggregate vouchers (RAVs) and their signatures. */
module Messages {
  import opened Common

  type u128 = x: nat | x <= U128_MAX

  type Key = nat

  type Signature = nat

  /** Whom a receipt or RAV is about. */
  datatype Identity = Identity(collectionId: nat, payer: Address, dataService: Address, serviceProvider: Address)

  datatype Receipt = Receipt(identity: Identity, timestampNs: nat, nonce: nat, value: u128)

  datatype Rav = Rav(identity: Identity, timestampNs: nat, valueAggregate: u128, metadata: seq<nat>)

  datatype SignedReceipt = SignedReceipt(message: Receipt, signature: Signature)

  datatype SignedRav = SignedRav(message: Rav, signature: Signature)

  /** EIP-712 signing, as far as the protocol relies on it. Recovery may fail. `uniqueId` is the
      canonical low-S form of a signature. */
  datatype Scheme = Scheme(
    address: Key -> Address,
    sign: (Rav, Key) -> Signature,
    ravSigner: SignedRav -> Option<Address>,
    receiptSigner: SignedReceipt -> Option<Address>,
    canonical: Signature -> nat)
  {
    ghost predicate Sound() {
      forall rav, key :: ravSigner(SignedRav(rav, sign(rav, key))) == Some(address(key))
    }

    function UniqueId(receipt: SignedReceipt): nat {
      canonical(receipt.signature)
    }

    /** No two of the receipts share a unique id and differ in what they say. */
    ghost predicate IdsDetermine(receipts: seq<SignedReceipt>) {
      forall a, b :: a in receipts && b in receipts && UniqueId(a) == UniqueId(b) ==> a.message == b.message
    }

    predicate UniqueIds(receipts: seq<SignedReceipt>) {
      forall i, j :: 0 <= i < j < |receipts| ==> UniqueId(receipts[i]) != UniqueId(receipts[j])
    }
  }
}
