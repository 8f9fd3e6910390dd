/** The EEPROM-like persistent byte store, as the controller sees it:
    byte reads, and `update`, which writes a cell only when its value changes.
    Every physical write is logged so that "no write" can be stated. */
module Eeprom {
  import opened Config

  /** One physical write to the store. */
  datatype Write = Write(addr: nat, value: uint8)

  /** Cells never written hold the erased value; `writes` lists every physical write in order. */
  datatype Store = Store(cells: map<nat, uint8>, writes: seq<Write>)

  const ERASED: uint8 := 0xFF

  /** `EEPROM.read(addr)`. */
  function Read(s: Store, addr: nat): uint8
  {
    if addr in s.cells then s.cells[addr] else ERASED
  }

  /** `EEPROM.update(addr, value)`: afterwards the cell holds `value`, and a
      write is logged exactly when the stored byte differed. */
  function Update(s: Store, addr: nat, value: uint8): (r: Store)
    ensures Read(r, addr) == value
    ensures Read(s, addr) == value ==> r == s
    ensures Read(s, addr) != value ==> r.writes == s.writes + [Write(addr, value)]
  {
    if Read(s, addr) == value then s
    else Store(s.cells[addr := value], s.writes + [Write(addr, value)])
  }

  /** `update` leaves every other cell as it was. */
  lemma UpdateOthers(s: Store, addr: nat, value: uint8, a: nat)
    requires a != addr
    ensures Read(Update(s, addr, value), a) == Read(s, a)
  {
  }

  /** The writes that storing `bytes` at `base` must perform: one for each byte
      that differs from what `s` holds at its address, in address order. */
  function ChangedWrites(s: Store, base: nat, bytes: seq<uint8>): seq<Write>
    decreases |bytes|
  {
    if bytes == [] then []
    else
      var n := |bytes| - 1;
      ChangedWrites(s, base, bytes[..n])
        + (if Read(s, base + n) == bytes[n] then [] else [Write(base + n, bytes[n])])
  }

  /** Successive `update`s of `bytes` to `base`, `base + 1`, ... */
  function Persist(s: Store, base: nat, bytes: seq<uint8>): Store
    decreases |bytes|
  {
    if bytes == [] then s
    else
      var n := |bytes| - 1;
      Update(Persist(s, base, bytes[..n]), base + n, bytes[n])
  }

  /** After persisting, the run holds `bytes`. */
  lemma {:induction false} PersistStores(s: Store, base: nat, bytes: seq<uint8>)
    ensures forall i :: 0 <= i < |bytes| ==> Read(Persist(s, base, bytes), base + i) == bytes[i]
    decreases |bytes|
  {
    if bytes != [] {
      var n := |bytes| - 1;
      var p := Persist(s, base, bytes[..n]);
      PersistStores(s, base, bytes[..n]);
      forall i | 0 <= i < n
        ensures Read(Update(p, base + n, bytes[n]), base + i) == bytes[i]
      {
        UpdateOthers(p, base + n, bytes[n], base + i);
      }
    }
  }

  /** Persisting a run changes no cell outside it. */
  lemma {:induction false} PersistFrame(s: Store, base: nat, bytes: seq<uint8>, a: nat)
    requires a < base || base + |bytes| <= a
    ensures Read(Persist(s, base, bytes), a) == Read(s, a)
    decreases |bytes|
  {
    if bytes != [] {
      var n := |bytes| - 1;
      PersistFrame(s, base, bytes[..n], a);
      UpdateOthers(Persist(s, base, bytes[..n]), base + n, bytes[n], a);
    }
  }

  /** Persisting a run writes exactly the bytes that differ from what was stored, in order. */
  lemma {:induction false} PersistWrites(s: Store, base: nat, bytes: seq<uint8>)
    ensures Persist(s, base, bytes).writes == s.writes + ChangedWrites(s, base, bytes)
    decreases |bytes|
  {
    if bytes != [] {
      var n := |bytes| - 1;
      PersistWrites(s, base, bytes[..n]);
      PersistFrame(s, base, bytes[..n], base + n);
    }
  }

  /** Persisting one more byte of a run is one more `Update`. */
  lemma PersistPrefix(s: Store, base: nat, bytes: seq<uint8>, i: nat)
    requires i < |bytes|
    ensures Persist(s, base, bytes[..i + 1]) == Update(Persist(s, base, bytes[..i]), base + i, bytes[i])
  {
    assert bytes[..i + 1][..i] == bytes[..i];
  }

  /** Storing bytes that are already there performs no write. */
  lemma {:induction false} PersistSameNoWrite(s: Store, base: nat, bytes: seq<uint8>)
    requires forall i :: 0 <= i < |bytes| ==> Read(s, base + i) == bytes[i]
    ensures ChangedWrites(s, base, bytes) == []
    ensures Persist(s, base, bytes) == s
    decreases |bytes|
  {
    if bytes != [] {
      var n := |bytes| - 1;
      PersistSameNoWrite(s, base, bytes[..n]);
    }
  }
}
