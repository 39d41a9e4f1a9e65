/** Sectors of 512 bytes and the little-endian 32-bit words stored in them. */
module Words {
  const BLOCK: int := 512        // BLOCK_SIZE, SECTOR_SIZE
  const WORDS: int := 128        // words in a sector
  const WORD_LIMIT: int := 0x1_0000_0000

  type Byte = x: int | 0 <= x < 256

  /** `n` bytes, none of them negative or above 255. */
  type Sector = seq<Byte>

  /** The word whose four bytes start at offset `at`. */
  function Word(s: Sector, at: int): (w: int)
    requires 0 <= at && at + 4 <= |s|
    ensures 0 <= w < WORD_LIMIT
  {
    var a: int, b: int, c: int, d: int := s[at], s[at + 1], s[at + 2], s[at + 3];
    a + 0x100 * b + 0x10000 * c + 0x1000000 * d
  }

  /** Byte `j` of the word `w`. */
  function ByteOf(w: int, j: int): (b: Byte) {
    if j == 0 then w % 0x100 else if j == 1 then w / 0x100 % 0x100
    else if j == 2 then w / 0x10000 % 0x100 else w / 0x1000000 % 0x100
  }

  lemma BytesOfWord(w: int)
    requires 0 <= w < WORD_LIMIT
    ensures var a: int, b: int, c: int, d: int := ByteOf(w, 0), ByteOf(w, 1), ByteOf(w, 2), ByteOf(w, 3);
            a + 0x100 * b + 0x10000 * c + 0x1000000 * d == w
  {
    var a := w / 0x100;
    var b := a / 0x100;
    assert b == w / 0x10000;
    assert b / 0x100 == w / 0x1000000;
  }

  /** The bytes of a sequence of words, as memory holds them. */
  function Encode(ws: seq<int>): (s: Sector)
    ensures |s| == 4 * |ws|
  {
    seq(4 * |ws|, n requires 0 <= n < 4 * |ws| => ByteOf(ws[n / 4], n % 4))
  }

  /** The words of `n` times four bytes. */
  function Decode(s: Sector): (ws: seq<int>)
    ensures |ws| == |s| / 4
  {
    seq(|s| / 4, i requires 0 <= i < |s| / 4 => Word(s, 4 * i))
  }

  lemma EncodedByte(ws: seq<int>, i: int, j: int)
    requires 0 <= i < |ws| && 0 <= j < 4
    ensures Encode(ws)[4 * i + j] == ByteOf(ws[i], j)
  {
    assert (4 * i + j) / 4 == i && (4 * i + j) % 4 == j;
  }

  lemma WordOfEncode(ws: seq<int>, i: int)
    requires 0 <= i < |ws| && 0 <= ws[i] < WORD_LIMIT
    ensures Word(Encode(ws), 4 * i) == ws[i]
  {
    hide Encode, ByteOf;
    EncodedByte(ws, i, 0);
    EncodedByte(ws, i, 1);
    EncodedByte(ws, i, 2);
    EncodedByte(ws, i, 3);
    BytesOfWord(ws[i]);
  }

  /** Writing words and reading them back gives the same words. */
  lemma DecodeEncode(ws: seq<int>)
    requires forall i :: 0 <= i < |ws| ==> 0 <= ws[i] < WORD_LIMIT
    ensures Decode(Encode(ws)) == ws
  {
    forall i | 0 <= i < |ws| ensures Decode(Encode(ws))[i] == ws[i] { WordOfEncode(ws, i); }
  }

  /** `memcpy` of `src` into a buffer at offset `at`. */
  function Splice(s: Sector, at: int, src: seq<Byte>): (r: Sector)
    requires 0 <= at && at + |src| <= |s|
    ensures |r| == |s|
    ensures forall i :: 0 <= i < |s| ==> r[i] == if at <= i < at + |src| then src[i - at] else s[i]
  {
    s[..at] + src + s[at + |src|..]
  }
}
