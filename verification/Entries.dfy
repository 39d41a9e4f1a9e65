/** Directory entries as the 24 bytes of a slot: a name field of 16 bytes, the inode number and the file type. */
module Entries {
  import opened Words

  const SLOT: int := 24                  // sizeof(struct dir_entry)
  const FIELD: int := 16                 // MAX_FILE_NAME_LEN
  const PER_SECTOR: int := 21            // 512 / 24

  const UNKNOWN: int := 0                // FT_UNKNOWN
  const REGULAR: int := 1                // FT_REGULAR
  const DIRECTORY: int := 2              // FT_DIRECTORY

  type Name = seq<Byte>

  datatype Entry = Entry(name: Name, ino: int, kind: int)

  const NONE: Entry := Entry([], 0, 0)

  /** A name of 1 to 15 characters, none of them the terminator or the slash that separates names. */
  ghost predicate NameOk(n: Name) {
    1 <= |n| < FIELD && forall i :: 0 <= i < |n| ==> n[i] != 0 && n[i] != 47
  }

  ghost predicate Storable(x: Entry) {
    |x.name| < FIELD && (forall i :: 0 <= i < |x.name| ==> x.name[i] != 0)
    && 0 <= x.ino < WORD_LIMIT && 0 <= x.kind < WORD_LIMIT
  }

  /** The C string at the start of a buffer. */
  function CString(s: seq<Byte>): (n: Name) {
    if s == [] || s[0] == 0 then [] else [s[0]] + CString(s[1..])
  }

  function Zeros(n: int): (z: seq<Byte>)
    requires n >= 0
    ensures |z| == n
  {
    seq(n, i => 0)
  }

  function ToBytes(x: Entry): (s: seq<Byte>)
    requires |x.name| <= FIELD
    ensures |s| == SLOT
  {
    x.name + Zeros(FIELD - |x.name|) + Encode([x.ino, x.kind])
  }

  function FromBytes(s: seq<Byte>): (x: Entry)
    requires |s| == SLOT
  {
    Entry(CString(s[..FIELD]), Word(s, FIELD), Word(s, FIELD + 4))
  }

  lemma {:induction false} CStringOf(n: Name, rest: seq<Byte>)
    requires forall i :: 0 <= i < |n| ==> n[i] != 0
    requires rest != [] ==> rest[0] == 0
    ensures CString(n + rest) == n
  {
    if n == [] {
      assert n + rest == rest;
    } else {
      assert (n + rest)[1..] == n[1..] + rest;
      CStringOf(n[1..], rest);
    }
  }

  lemma WordSlice(s: seq<Byte>, at: int, w: seq<Byte>, i: int)
    requires 0 <= at && at + |w| <= |s| && s[at..at + |w|] == w && 0 <= i && i + 4 <= |w|
    ensures Word(s, at + i) == Word(w, i)
  {
    forall j | 0 <= j < |w| ensures s[at + j] == w[j] { assert s[at..at + |w|][j] == w[j]; }
    assert s[at + i] == w[i] && s[at + (i + 1)] == w[i + 1] && s[at + (i + 2)] == w[i + 2] && s[at + (i + 3)] == w[i + 3];
  }

  /** What is stored in a slot is read back from it. */
  lemma FromTo(x: Entry)
    requires Storable(x)
    ensures FromBytes(ToBytes(x)) == x
  {
    var s := ToBytes(x);
    var w := Encode([x.ino, x.kind]);
    assert s[..FIELD] == x.name + Zeros(FIELD - |x.name|);
    CStringOf(x.name, Zeros(FIELD - |x.name|));
    assert s[FIELD..FIELD + |w|] == w;
    WordSlice(s, FIELD, w, 0);
    WordSlice(s, FIELD, w, 4);
    WordOfEncode([x.ino, x.kind], 0);
    WordOfEncode([x.ino, x.kind], 1);
  }

  lemma FromZeros()
    ensures FromBytes(Zeros(SLOT)) == NONE
  {
    var s := Zeros(SLOT);
    CStringOf([], s[..FIELD]);
    assert [] + s[..FIELD] == s[..FIELD];
  }

  // ---------------------------------------------------------------- the slots of a sector

  function EntryAt(s: Sector, e: int): (x: Entry)
    requires |s| == BLOCK && 0 <= e < PER_SECTOR
  {
    FromBytes(s[SLOT * e..SLOT * e + SLOT])
  }

  function Slots(s: Sector): (xs: seq<Entry>)
    requires |s| == BLOCK
    ensures |xs| == PER_SECTOR
  {
    seq(PER_SECTOR, e requires 0 <= e < PER_SECTOR => EntryAt(s, e))
  }

  lemma SlotIs(s: Sector, e: int)
    requires |s| == BLOCK && 0 <= e < PER_SECTOR
    ensures EntryAt(s, e) == Slots(s)[e]
  {
  }

  /** Writing one slot changes that slot and no other. */
  lemma SlotsSplice(s: Sector, e: int, bytes: seq<Byte>)
    requires |s| == BLOCK && 0 <= e < PER_SECTOR && |bytes| == SLOT
    ensures Slots(Splice(s, SLOT * e, bytes)) == Slots(s)[e := FromBytes(bytes)]
  {
    var t := Splice(s, SLOT * e, bytes);
    forall f | 0 <= f < PER_SECTOR ensures Slots(t)[f] == Slots(s)[e := FromBytes(bytes)][f] {
      if f == e {
        assert t[SLOT * f..SLOT * f + SLOT] == bytes;
      } else {
        assert t[SLOT * f..SLOT * f + SLOT] == s[SLOT * f..SLOT * f + SLOT];
      }
    }
  }

  lemma SlotsOfZeros()
    ensures Slots(Zeros(BLOCK)) == seq(PER_SECTOR, e => NONE)
  {
    FromZeros();
    forall e | 0 <= e < PER_SECTOR ensures Slots(Zeros(BLOCK))[e] == NONE {
      assert Zeros(BLOCK)[SLOT * e..SLOT * e + SLOT] == Zeros(SLOT);
    }
  }
}
