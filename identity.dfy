/** The transmitter identity: four bytes kept in the persistent store at
    EE_TXID0 .. EE_TXID0 + 3, regenerated from the random source when renewal
    is asked for or when the stored bytes carry the "uninitialised" sentinel. */
module Identity {
  import opened Config
  import opened Eeprom

  /** The four identity bytes as the store holds them. */
  function StoredId(s: Store): seq<uint8>
  {
    [Read(s, EE_TXID0), Read(s, EE_TXID0 + 1), Read(s, EE_TXID0 + 2), Read(s, EE_TXID0 + 3)]
  }

  /** The sentinel: the first two bytes are 0xFF, as in an erased store. */
  predicate IsBlank(id: seq<uint8>)
    requires |id| >= 2
  {
    id[0] == 0xFF && id[1] == 0xFF
  }

  /** `random() & 0xFF`; `random()` never returns a negative value. */
  function RandomByte(r: nat): uint8 { r % 0x100 }

  /** The identity drawn from the first four outputs of the random source. */
  function RandomId(rand: seq<nat>): seq<uint8>
    requires |rand| >= 4
  {
    [RandomByte(rand[0]), RandomByte(rand[1]), RandomByte(rand[2]), RandomByte(rand[3])]
  }

  lemma RandomIdAt(rand: seq<nat>, i: nat)
    requires |rand| >= 4 && i < 4
    ensures RandomId(rand)[i] == RandomByte(rand[i])
  {
  }

  /** Whether `set_txid(renew)` regenerates the identity. */
  predicate Regenerates(s: Store, renew: bool)
  {
    renew || IsBlank(StoredId(s))
  }

  /** The identity `set_txid(renew)` leaves in `transmitterID`. */
  function NewId(s: Store, renew: bool, rand: seq<nat>): seq<uint8>
    requires |rand| >= 4
  {
    if Regenerates(s, renew) then RandomId(rand) else StoredId(s)
  }

  /** The store after `set_txid(renew)`. */
  function StoreAfterTxid(s: Store, renew: bool, rand: seq<nat>): Store
    requires |rand| >= 4
  {
    if Regenerates(s, renew) then Persist(s, EE_TXID0, RandomId(rand)) else s
  }

  /** What `set_txid` promises: afterwards the store holds the identity in use;
      no cell outside the four identity bytes changes; a kept identity costs no
      write, and a regenerated one writes only the bytes that differ. */
  lemma {:induction false} TxidPersisted(s: Store, renew: bool, rand: seq<nat>)
    requires |rand| >= 4
    ensures StoredId(StoreAfterTxid(s, renew, rand)) == NewId(s, renew, rand)
    ensures forall a: nat :: a < EE_TXID0 || EE_TXID0 + 4 <= a ==>
              Read(StoreAfterTxid(s, renew, rand), a) == Read(s, a)
    ensures !Regenerates(s, renew) ==> StoreAfterTxid(s, renew, rand) == s
    ensures Regenerates(s, renew) ==>
              StoreAfterTxid(s, renew, rand).writes == s.writes + ChangedWrites(s, EE_TXID0, RandomId(rand))
  {
    if Regenerates(s, renew) {
      var id := RandomId(rand);
      var r := Persist(s, EE_TXID0, id);
      PersistStores(s, EE_TXID0, id);
      PersistWrites(s, EE_TXID0, id);
      forall a: nat | a < EE_TXID0 || EE_TXID0 + 4 <= a
        ensures Read(r, a) == Read(s, a)
      {
        PersistFrame(s, EE_TXID0, id, a);
      }
      assert Read(r, EE_TXID0 + 0) == id[0];
      assert Read(r, EE_TXID0 + 1) == id[1];
      assert Read(r, EE_TXID0 + 2) == id[2];
      assert Read(r, EE_TXID0 + 3) == id[3];
    }
  }

  /** An identity persisted by `set_txid(true)` is found again by the
      `set_txid(false)` of the next start-up, with no write, unless it happens
      to begin with the sentinel bytes; then the next start-up draws a fresh one. */
  lemma IdentityRoundTrip(s: Store, rand: seq<nat>, rand2: seq<nat>)
    requires |rand| >= 4 && |rand2| >= 4
    ensures var id := NewId(s, true, rand);
            var s1 := StoreAfterTxid(s, true, rand);
            (!IsBlank(id) ==> NewId(s1, false, rand2) == id && StoreAfterTxid(s1, false, rand2) == s1)
            && (IsBlank(id) ==> NewId(s1, false, rand2) == RandomId(rand2))
  {
    TxidPersisted(s, true, rand);
  }

  /** The sentinel is reachable: a store whose first two identity bytes read
      0xFF makes `set_txid(false)` draw a new identity and persist it. */
  lemma BlankStoreRegenerates(s: Store, rand: seq<nat>)
    requires |rand| >= 4
    requires Read(s, EE_TXID0) == 0xFF && Read(s, EE_TXID0 + 1) == 0xFF
    ensures NewId(s, false, rand) == RandomId(rand)
    ensures StoredId(StoreAfterTxid(s, false, rand)) == RandomId(rand)
  {
    TxidPersisted(s, false, rand);
  }
}
