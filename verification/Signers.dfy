/** Per-payer signing keys: one key signs for a payer, several signers are accepted for it. */
module Signers {
  import opened Common
  import opened Messages

  datatype PayerKeys = PayerKeys(signingKey: Key, acceptedSigners: set<Address>)

  type Registry = map<Address, PayerKeys>

  datatype BuildError = SharedSigner | DuplicatePayer | NoPayers | UnknownPayer

  type KeyList = seq<(Address, Key)>

  type SignerList = seq<(Address, Address)>

  /** Each payer and each signing address is listed once. */
  ghost predicate KeysConsistent(scheme: Scheme, keys: KeyList) {
    && Distinct(keys)
    && forall a, b :: a in keys && b in keys && (a.0 == b.0 || scheme.address(a.1) == scheme.address(b.1)) ==> a == b
  }

  /** `signer` is listed for `payer`, as its signing address or as an accepted signer. */
  ghost predicate Listed(scheme: Scheme, keys: KeyList, accepted: SignerList, payer: Address, signer: Address) {
    || (payer, signer) in accepted
    || exists k :: k in keys && k.0 == payer && scheme.address(k.1) == signer
  }

  ghost predicate Known(keys: KeyList, payer: Address) {
    exists k :: k in keys && k.0 == payer
  }

  /** The configuration the chain can honour: no address serves two payers. */
  ghost predicate Consistent(scheme: Scheme, keys: KeyList, accepted: SignerList) {
    && keys != []
    && KeysConsistent(scheme, keys)
    && (forall p :: p in accepted ==> Known(keys, p.0))
    && (forall signer, p, q ::
        Listed(scheme, keys, accepted, p, signer) && Listed(scheme, keys, accepted, q, signer) ==> p == q)
  }

  /** The registry holds exactly what is listed. */
  ghost predicate Registers(scheme: Scheme, keys: KeyList, accepted: SignerList, registry: Registry) {
    && (forall payer :: payer in registry <==> Known(keys, payer))
    && (forall k :: k in keys ==> k.0 in registry && registry[k.0].signingKey == k.1)
    && (forall payer, signer :: payer in registry ==>
          (signer in registry[payer].acceptedSigners <==> Listed(scheme, keys, accepted, payer, signer)))
  }

  /** Every signer seen so far, with the payer it belongs to. */
  ghost predicate Owners(scheme: Scheme, keys: KeyList, accepted: SignerList, signerPayer: map<Address, Address>) {
    && (forall payer, signer :: Listed(scheme, keys, accepted, payer, signer) ==>
        signer in signerPayer && signerPayer[signer] == payer)
    && (forall signer :: signer in signerPayer ==> Listed(scheme, keys, accepted, signerPayer[signer], signer))
  }

  /** What is wrong with a refused configuration. */
  ghost predicate Explains(error: BuildError, scheme: Scheme, keys: KeyList, accepted: SignerList) {
    match error
    case NoPayers => keys == []
    case UnknownPayer => exists p :: p in accepted && !Known(keys, p.0)
    case DuplicatePayer => !Distinct(keys) || exists a, b :: a in keys && b in keys && a.0 == b.0 && a != b
    case SharedSigner =>
      || !Distinct(keys)
      || (exists a, b :: a in keys && b in keys && scheme.address(a.1) == scheme.address(b.1) && a != b)
      || exists signer, p, q ::
          Listed(scheme, keys, accepted, p, signer) && Listed(scheme, keys, accepted, q, signer) && p != q
  }

  lemma KeyIn(keys: KeyList, k: (Address, Key))
    ensures forall x :: x in keys + [k] <==> x in keys || x == k
  {
  }

  lemma KeyAddedListing(scheme: Scheme, keys: KeyList, k: (Address, Key), payer: Address, signer: Address)
    ensures Known(keys + [k], payer) <==> Known(keys, payer) || payer == k.0
    ensures Listed(scheme, keys + [k], [], payer, signer) <==>
            Listed(scheme, keys, [], payer, signer) || (payer == k.0 && signer == scheme.address(k.1))
  {
  }

  lemma KeyFresh(scheme: Scheme, keys: KeyList, k: (Address, Key), payers: Registry, signerPayer: map<Address, Address>)
    requires KeysConsistent(scheme, keys)
    requires Registers(scheme, keys, [], payers) && Owners(scheme, keys, [], signerPayer)
    requires scheme.address(k.1) !in signerPayer && k.0 !in payers
    ensures KeysConsistent(scheme, keys + [k])
  {
    KeyIn(keys, k);
    forall a | a in keys ensures a.0 != k.0 && scheme.address(a.1) != scheme.address(k.1) {
      assert Known(keys, a.0);
      assert Listed(scheme, keys, [], a.0, scheme.address(a.1));
    }
  }

  lemma KeyRegistered(scheme: Scheme, keys: KeyList, k: (Address, Key), payers: Registry)
    requires Registers(scheme, keys, [], payers) && k.0 !in payers
    ensures Registers(scheme, keys + [k], [], payers[k.0 := PayerKeys(k.1, {scheme.address(k.1)})])
  {
  }

  lemma KeyOwned(scheme: Scheme, keys: KeyList, k: (Address, Key), signerPayer: map<Address, Address>)
    requires Owners(scheme, keys, [], signerPayer) && scheme.address(k.1) !in signerPayer
    ensures Owners(scheme, keys + [k], [], signerPayer[scheme.address(k.1) := k.0])
  {
    forall payer, signer
      ensures Listed(scheme, keys + [k], [], payer, signer) <==>
              Listed(scheme, keys, [], payer, signer) || (payer == k.0 && signer == scheme.address(k.1))
    {
      KeyAddedListing(scheme, keys, k, payer, signer);
    }
  }

  lemma KeyAdded(scheme: Scheme, keys: KeyList, k: (Address, Key), payers: Registry, signerPayer: map<Address, Address>)
    requires KeysConsistent(scheme, keys)
    requires Registers(scheme, keys, [], payers) && Owners(scheme, keys, [], signerPayer)
    requires scheme.address(k.1) !in signerPayer && k.0 !in payers
    ensures KeysConsistent(scheme, keys + [k])
    ensures Registers(scheme, keys + [k], [], payers[k.0 := PayerKeys(k.1, {scheme.address(k.1)})])
    ensures Owners(scheme, keys + [k], [], signerPayer[scheme.address(k.1) := k.0])
  {
    KeyFresh(scheme, keys, k, payers, signerPayer);
    KeyRegistered(scheme, keys, k, payers);
    KeyOwned(scheme, keys, k, signerPayer);
  }

  lemma KeyClash(scheme: Scheme, keys: KeyList, n: nat, payers: Registry, signerPayer: map<Address, Address>)
    requires n < |keys|
    requires Registers(scheme, keys[..n], [], payers) && Owners(scheme, keys[..n], [], signerPayer)
    ensures scheme.address(keys[n].1) in signerPayer ==>
              !KeysConsistent(scheme, keys) && Explains(SharedSigner, scheme, keys, [])
    ensures keys[n].0 in payers ==>
              !KeysConsistent(scheme, keys) && Explains(DuplicatePayer, scheme, keys, [])
  {
    var k := keys[n];
    if scheme.address(k.1) in signerPayer {
      var i :| 0 <= i < n && scheme.address(keys[i].1) == scheme.address(k.1);
      assert keys[i] == k ==> !Distinct(keys);
      assert keys[i] in keys && k in keys;
    }
    if k.0 in payers {
      var i :| 0 <= i < n && keys[i].0 == k.0;
      assert keys[i] == k ==> !Distinct(keys);
      assert keys[i] in keys && k in keys;
    }
  }

  method RegisterKeys(scheme: Scheme, keys: KeyList)
    returns (result: Result<Registry, BuildError>, signerPayer: map<Address, Address>)
    ensures result.Ok? <==> keys != [] && KeysConsistent(scheme, keys)
    ensures result.Ok? ==> Registers(scheme, keys, [], result.value) && Owners(scheme, keys, [], signerPayer)
    ensures result.Err? ==> Explains(result.error, scheme, keys, [])
  {
    var payers: Registry := map[];
    signerPayer := map[];
    for n := 0 to |keys|
      invariant KeysConsistent(scheme, keys[..n])
      invariant Registers(scheme, keys[..n], [], payers) && Owners(scheme, keys[..n], [], signerPayer)
    {
      var (payer, signingKey) := keys[n];
      KeyClash(scheme, keys, n, payers, signerPayer);
      if scheme.address(signingKey) in signerPayer {
        return Err(SharedSigner), signerPayer;
      }
      if payer in payers {
        return Err(DuplicatePayer), signerPayer;
      }
      KeyAdded(scheme, keys[..n], keys[n], payers, signerPayer);
      assert keys[..n + 1] == keys[..n] + [keys[n]];
      signerPayer := signerPayer[scheme.address(signingKey) := payer];
      payers := payers[payer := PayerKeys(signingKey, {scheme.address(signingKey)})];
    }
    assert keys[..|keys|] == keys;
    assert keys != [] ==> Known(keys, keys[0].0);
    if payers == map[] {
      return Err(NoPayers), signerPayer;
    }
    return Ok(payers), signerPayer;
  }

  lemma SignerAdded(scheme: Scheme, keys: KeyList, accepted: SignerList, pair: (Address, Address), payers: Registry,
                    signerPayer: map<Address, Address>)
    requires Registers(scheme, keys, accepted, payers) && Owners(scheme, keys, accepted, signerPayer)
    requires pair.0 in payers && (pair.1 in signerPayer ==> signerPayer[pair.1] == pair.0)
    ensures Registers(scheme, keys, accepted + [pair],
                      payers[pair.0 := payers[pair.0].(acceptedSigners := payers[pair.0].acceptedSigners + {pair.1})])
    ensures Owners(scheme, keys, accepted + [pair], signerPayer[pair.1 := pair.0])
  {
    forall payer: Address, signer: Address
      ensures Listed(scheme, keys, accepted + [pair], payer, signer) <==>
              Listed(scheme, keys, accepted, payer, signer) || (payer, signer) == pair
    {
    }
  }

  lemma ListedInPrefix(scheme: Scheme, keys: KeyList, accepted: SignerList, n: nat, payer: Address, signer: Address)
    requires n <= |accepted| && Listed(scheme, keys, accepted[..n], payer, signer)
    ensures Listed(scheme, keys, accepted, payer, signer)
  {
  }

  lemma SignerClash(scheme: Scheme, keys: KeyList, accepted: SignerList, n: nat, payers: Registry,
                    signerPayer: map<Address, Address>)
    requires n < |accepted|
    requires Registers(scheme, keys, accepted[..n], payers) && Owners(scheme, keys, accepted[..n], signerPayer)
    ensures accepted[n].0 !in payers ==>
              !Consistent(scheme, keys, accepted) && Explains(UnknownPayer, scheme, keys, accepted)
    ensures accepted[n].1 in signerPayer && signerPayer[accepted[n].1] != accepted[n].0 ==>
              !Consistent(scheme, keys, accepted) && Explains(SharedSigner, scheme, keys, accepted)
  {
    var (payer, signer) := accepted[n];
    assert accepted[n] in accepted;
    assert Listed(scheme, keys, accepted, payer, signer);
    if signer in signerPayer {
      ListedInPrefix(scheme, keys, accepted, n, signerPayer[signer], signer);
    }
  }

  lemma OwnedConsistent(scheme: Scheme, keys: KeyList, accepted: SignerList, signerPayer: map<Address, Address>)
    requires keys != [] && KeysConsistent(scheme, keys)
    requires Owners(scheme, keys, accepted, signerPayer) && forall p :: p in accepted ==> Known(keys, p.0)
    ensures Consistent(scheme, keys, accepted)
  {
  }

  lemma KeysAlone(scheme: Scheme, keys: KeyList, accepted: SignerList, error: BuildError)
    requires Explains(error, scheme, keys, []) && !(keys != [] && KeysConsistent(scheme, keys))
    ensures Explains(error, scheme, keys, accepted) && !Consistent(scheme, keys, accepted)
  {
  }

  /** Building succeeds exactly for a consistent configuration, and registers exactly it. */
  method Build(scheme: Scheme, keys: KeyList, accepted: SignerList) returns (result: Result<Registry, BuildError>)
    ensures result.Ok? <==> Consistent(scheme, keys, accepted)
    ensures result.Ok? ==> Registers(scheme, keys, accepted, result.value)
    ensures result.Err? ==> Explains(result.error, scheme, keys, accepted)
  {
    var signerPayer;
    result, signerPayer := RegisterKeys(scheme, keys);
    if result.Err? {
      KeysAlone(scheme, keys, accepted, result.error);
      return;
    }
    var payers := result.value;
    for n := 0 to |accepted|
      invariant Registers(scheme, keys, accepted[..n], payers) && Owners(scheme, keys, accepted[..n], signerPayer)
      invariant forall p :: p in accepted[..n] ==> Known(keys, p.0)
    {
      var (payer, signer) := accepted[n];
      SignerClash(scheme, keys, accepted, n, payers, signerPayer);
      if payer !in payers {
        return Err(UnknownPayer);
      }
      if signer in signerPayer && signerPayer[signer] != payer {
        return Err(SharedSigner);
      }
      SignerAdded(scheme, keys, accepted[..n], accepted[n], payers, signerPayer);
      assert accepted[..n + 1] == accepted[..n] + [accepted[n]];
      signerPayer := signerPayer[signer := payer];
      payers := payers[payer := payers[payer].(acceptedSigners := payers[payer].acceptedSigners + {signer})];
    }
    assert accepted[..|accepted|] == accepted;
    OwnedConsistent(scheme, keys, accepted, signerPayer);
    result := Ok(payers);
  }

  /** In a built registry the accepted signers of different payers are disjoint, and every
      payer's own key is among its accepted signers. */
  lemma AcceptedDisjoint(scheme: Scheme, keys: KeyList, accepted: SignerList, registry: Registry, p: Address,
                         q: Address)
    requires Consistent(scheme, keys, accepted) && Registers(scheme, keys, accepted, registry)
    requires p in registry && q in registry
    ensures scheme.address(registry[p].signingKey) in registry[p].acceptedSigners
    ensures p != q ==> registry[p].acceptedSigners !! registry[q].acceptedSigners
  {
  }

  /** Rearranging the lists changes neither whether they are accepted nor what is registered. */
  lemma BuildOrderIrrelevant(scheme: Scheme, keys1: KeyList, accepted1: SignerList, keys2: KeyList,
                             accepted2: SignerList)
    requires multiset(keys1) == multiset(keys2)
    requires forall p :: p in accepted1 <==> p in accepted2
    ensures Consistent(scheme, keys1, accepted1) <==> Consistent(scheme, keys2, accepted2)
    ensures forall r1, r2 :: Registers(scheme, keys1, accepted1, r1) && Registers(scheme, keys2, accepted2, r2) ==>
              r1 == r2
  {
    SameKeys(keys1, keys2);
    DistinctCounts(keys1);
    DistinctCounts(keys2);
    SameListing(scheme, keys1, accepted1, keys2, accepted2);
    forall r1, r2 | Registers(scheme, keys1, accepted1, r1) && Registers(scheme, keys2, accepted2, r2)
      ensures r1 == r2
    {
      RegistersUnique(scheme, keys1, accepted1, keys2, accepted2, r1, r2);
    }
  }

  lemma SameKeys(keys1: KeyList, keys2: KeyList)
    requires multiset(keys1) == multiset(keys2)
    ensures (forall k :: k in keys1 <==> k in keys2) && |keys1| == |keys2|
  {
    forall k ensures k in keys1 <==> k in keys2 {
      assert k in keys1 <==> k in multiset(keys1);
      assert k in keys2 <==> k in multiset(keys2);
    }
    assert |multiset(keys1)| == |keys1| && |multiset(keys2)| == |keys2|;
  }

  lemma SameListing(scheme: Scheme, keys1: KeyList, accepted1: SignerList, keys2: KeyList, accepted2: SignerList)
    requires forall k :: k in keys1 <==> k in keys2
    requires forall p :: p in accepted1 <==> p in accepted2
    ensures forall payer :: Known(keys1, payer) <==> Known(keys2, payer)
    ensures forall payer, signer :: Listed(scheme, keys1, accepted1, payer, signer) <==>
            Listed(scheme, keys2, accepted2, payer, signer)
  {
  }

  lemma RegistersUnique(scheme: Scheme, keys1: KeyList, accepted1: SignerList, keys2: KeyList,
                        accepted2: SignerList, r1: Registry, r2: Registry)
    requires forall k :: k in keys1 <==> k in keys2
    requires forall p :: p in accepted1 <==> p in accepted2
    requires Registers(scheme, keys1, accepted1, r1) && Registers(scheme, keys2, accepted2, r2)
    ensures r1 == r2
  {
    SameListing(scheme, keys1, accepted1, keys2, accepted2);
    assert r1.Keys == r2.Keys;
    forall payer | payer in r1 ensures r1[payer] == r2[payer] {
      var k :| k in keys1 && k.0 == payer;
      assert k in keys2;
      assert r1[payer].acceptedSigners == r2[payer].acceptedSigners;
    }
  }
}
