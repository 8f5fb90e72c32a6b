/**
 The layout of an image: header, directory, file data, checksum trailer, and what
 the writer's arithmetic guarantees about it.

 The size field of a directory entry is computed from a fixed part that the
 writer and the reader take to be 28 bytes; it is really 32. `fixed` stands for
 the number used, so that both the code as written and the corrected code can be
 stated.
 */
module IfsImage {
  import opened IfsBytes

  /** One file of the image, or its start-up script; gid and uid are always zero. */
  datatype Entry = Entry(ino: nat, perms: nat, mtime: nat, path: seq<Byte>, data: seq<Byte>)

  /** The fixed part as the code counts it, and as it is. */
  const CODED_FIXED: nat := 28
  const TRUE_FIXED: nat := 32

  const REGULAR: nat := 0x8000

  const MOUNTPOINT: seq<Byte> := [47, 112, 114, 111, 99, 47, 98, 111, 111, 116]

  const SIGNATURE: seq<Byte> := [105, 109, 97, 103, 101, 102, 115]

  const READONLY: Byte := 2

  /** The permissions with the bit of a regular file set, as a bitwise or sets it. */
  function Mode(e: Entry): nat { if e.perms / REGULAR % 2 == 1 then e.perms else e.perms + REGULAR }

  function Sizes(imageSize: nat, hdrDirSize: nat, dirOffset: nat): (s: seq<Byte>)
    ensures |s| == 36
  {
    SIGNATURE + [READONLY] + U32(imageSize) + U32(hdrDirSize) + U32(dirOffset) + Fill(16)
  }

  function Numbers(scriptIno: nat): (s: seq<Byte>)
    ensures |s| == 52
  {
    U32(scriptIno) + Fill(4) + Fill(40) + Fill(4)
  }

  /** Header fields in order, then the mount point, terminated and padded to four. */
  function Header(imageSize: nat, hdrDirSize: nat, dirOffset: nat, scriptIno: nat): seq<Byte> {
    Sizes(imageSize, hdrDirSize, dirOffset) + Numbers(scriptIno) + (MOUNTPOINT + [0]) + Fill(PadLen(|MOUNTPOINT| + 1))
  }

  const HEADER_SIZE: nat := 100

  /** The size that an entry declares. */
  function DeclaredSize(fixed: nat, e: Entry): nat {
    fixed + |e.path| + 1 + PadLen(fixed + |e.path| + 1)
  }

  /** The numeric fields of a directory entry: 32 bytes. */
  function Fields(fixed: nat, e: Entry, offset: nat, size: nat): (s: seq<Byte>)
    ensures |s| == TRUE_FIXED
  {
    U16(DeclaredSize(fixed, e)) + U16(0) + U32(e.ino) + U32(Mode(e)) + U32(0) + U32(0) + U32(e.mtime) + U32(offset) + U32(size)
  }

  /** The name of a directory entry, terminated and padded. */
  function Name(fixed: nat, e: Entry): seq<Byte> {
    e.path + [0] + Fill(PadLen(fixed + |e.path| + 1))
  }

  function Dirent(fixed: nat, e: Entry, offset: nat, size: nat): seq<Byte> {
    Fields(fixed, e, offset, size) + Name(fixed, e)
  }

  /** Bytes that an entry really occupies. */
  function DirentLen(fixed: nat, e: Entry): nat {
    TRUE_FIXED + |e.path| + 1 + PadLen(fixed + |e.path| + 1)
  }

  lemma DirentLength(fixed: nat, e: Entry, offset: nat, size: nat)
    ensures |Dirent(fixed, e, offset, size)| == DirentLen(fixed, e)
    ensures DirentLen(fixed, e) == DeclaredSize(fixed, e) + TRUE_FIXED - fixed
    ensures fixed % 4 == 0 ==> DirentLen(fixed, e) % 4 == 0
  {
    hide PadLen, Fill, U16, U32, Fields;
    var size := fixed + |e.path| + 1;
    var padded := size + PadLen(size);
    assert padded % 4 == 0;
    assert DirentLen(fixed, e) == padded + TRUE_FIXED - fixed;
    if fixed % 4 == 0 { AlignedDifference(padded, fixed); }
  }

  lemma AlignedDifference(n: nat, fixed: nat)
    requires n % 4 == 0 && fixed % 4 == 0
    ensures (n + 32 - fixed) % 4 == 0
  {
  }

  function DirLen(fixed: nat, es: seq<Entry>): nat {
    if es == [] then 0 else DirLen(fixed, es[..|es| - 1]) + DirentLen(fixed, es[|es| - 1])
  }

  function Align4(n: nat): nat { n + PadLen(n) }

  /** Where the data of entry k starts; for k = |es|, where the trailer does. */
  function Offset(es: seq<Entry>, start: nat, k: nat): nat
    requires k <= |es|
  {
    if k == 0 then start else Align4(Offset(es, start, k - 1) + |es[k - 1].data|)
  }

  /** The entries of the directory from the first k files, with their final offsets. */
  function Directory(fixed: nat, es: seq<Entry>, start: nat, k: nat): (s: seq<Byte>)
    requires k <= |es|
  {
    if k == 0 then []
    else Directory(fixed, es, start, k - 1) + Dirent(fixed, es[k - 1], Offset(es, start, k - 1), |es[k - 1].data|)
  }

  /** The data of the first k files, each followed by zeros up to the next offset. */
  function Data(es: seq<Entry>, start: nat, k: nat): (s: seq<Byte>)
    requires k <= |es|
    ensures |s| == Offset(es, start, k) - start && Offset(es, start, k) >= start
  {
    if k == 0 then []
    else
      var end := Offset(es, start, k - 1) + |es[k - 1].data|;
      Data(es, start, k - 1) + es[k - 1].data + Fill(PadLen(end))
  }

  /** Header plus directory. */
  function HdrDirSize(fixed: nat, es: seq<Entry>): nat {
    HEADER_SIZE + DirLen(fixed, es) + 2
  }

  function TrailerAt(fixed: nat, es: seq<Entry>): nat {
    Offset(es, HdrDirSize(fixed, es), |es|)
  }

  /** Everything that the checksum covers. */
  function Body(fixed: nat, es: seq<Entry>, scriptIno: nat): seq<Byte> {
    var start := HdrDirSize(fixed, es);
    Header(TrailerAt(fixed, es) + 4, start, HEADER_SIZE, scriptIno) + Directory(fixed, es, start, |es|) + U16(0)
    + Data(es, start, |es|)
  }

  /** The sum of the little-endian words of the first 4k bytes. */
  function WordSum(data: seq<Byte>, k: nat): nat
    requires 4 * k <= |data|
  {
    if k == 0 then 0 else (WordSum(data, k - 1) + Get32(data, 4 * (k - 1))) % U32_MOD
  }

  /** The bytes past the last whole word, completed with zeros. */
  function Trailing(data: seq<Byte>): (s: seq<Byte>)
    ensures |s| == 4
  {
    var rest := data[|data| / 4 * 4..];
    rest + Fill(4 - |rest|)
  }

  function Negate(sum: nat): nat { (U32_MOD - sum % U32_MOD) % U32_MOD }

  /** The negated word sum, trailing bytes included. */
  function Checksum(data: seq<Byte>): nat {
    var sum := WordSum(data, |data| / 4);
    Negate(if |data| % 4 == 0 then sum else (sum + Get32(Trailing(data), 0)) % U32_MOD)
  }

  function Image(fixed: nat, es: seq<Entry>, scriptIno: nat): seq<Byte> {
    Body(fixed, es, scriptIno) + U32(Checksum(Body(fixed, es, scriptIno)))
  }

  // ---- Lengths.

  lemma HeaderLength(imageSize: nat, hdrDirSize: nat, dirOffset: nat, scriptIno: nat)
    ensures |Header(imageSize, hdrDirSize, dirOffset, scriptIno)| == HEADER_SIZE
  {
  }

  lemma {:induction false} DirectoryLength(fixed: nat, es: seq<Entry>, start: nat, k: nat)
    requires k <= |es|
    ensures |Directory(fixed, es, start, k)| == DirLen(fixed, es[..k])
    decreases k
  {
    if k > 0 {
      DirectoryLength(fixed, es, start, k - 1);
      DirentLength(fixed, es[k - 1], Offset(es, start, k - 1), |es[k - 1].data|);
      assert es[..k][..k - 1] == es[..k - 1];
    }
  }

  /** The image has exactly the size its header records, whatever offsets the placeholder pass wrote. */
  lemma {:induction false} ImageLength(fixed: nat, es: seq<Entry>, scriptIno: nat)
    ensures |Body(fixed, es, scriptIno)| == TrailerAt(fixed, es)
    ensures |Image(fixed, es, scriptIno)| == TrailerAt(fixed, es) + 4
  {
    hide Header, Directory, Data, Offset, Checksum;
    var start := HdrDirSize(fixed, es);
    HeaderLength(TrailerAt(fixed, es) + 4, start, HEADER_SIZE, scriptIno);
    DirectoryLength(fixed, es, start, |es|);
    assert es[..|es|] == es;
  }

  // ---- Slices.

  lemma {:induction false} OffsetsOrdered(es: seq<Entry>, start: nat, i: nat, j: nat)
    requires i < j <= |es|
    ensures start <= Offset(es, start, i) && Offset(es, start, i) + |es[i].data| <= Offset(es, start, j)
    decreases j
  {
    if i + 1 < j {
      OffsetsOrdered(es, start, i, j - 1);
    } else {
      var _ := Data(es, start, i);
    }
  }

  lemma {:induction false} DataSlice(es: seq<Entry>, start: nat, k: nat, i: nat)
    requires i < k <= |es|
    ensures var at := Offset(es, start, i) - start;
      0 <= at && at + |es[i].data| <= |Data(es, start, k)| && Data(es, start, k)[at..at + |es[i].data|] == es[i].data
    decreases k
  {
    OffsetsOrdered(es, start, i, k);
    var at, d := Offset(es, start, i) - start, Data(es, start, k);
    var before := Data(es, start, k - 1);
    if i + 1 < k {
      DataSlice(es, start, k - 1, i);
      assert d[at..at + |es[i].data|] == before[at..at + |es[i].data|];
    }
  }

  /** Where the three parts of the body stand in the image. */
  lemma Parts(fixed: nat, es: seq<Entry>, scriptIno: nat)
    ensures var start, img := HdrDirSize(fixed, es), Image(fixed, es, scriptIno);
      && Stands(img, 0, Header(TrailerAt(fixed, es) + 4, start, HEADER_SIZE, scriptIno))
      && Stands(img, HEADER_SIZE, Directory(fixed, es, start, |es|) + U16(0))
      && Stands(img, start, Data(es, start, |es|))
      && |Directory(fixed, es, start, |es|)| == DirLen(fixed, es)
  {
    hide Header, Directory, Data, Offset, Checksum, U32, U16, Fill;
    var start, img := HdrDirSize(fixed, es), Image(fixed, es, scriptIno);
    HeaderLength(TrailerAt(fixed, es) + 4, start, HEADER_SIZE, scriptIno);
    DirectoryLength(fixed, es, start, |es|);
    assert es[..|es|] == es;
    var h, d, x := Header(TrailerAt(fixed, es) + 4, start, HEADER_SIZE, scriptIno), Directory(fixed, es, start, |es|), Data(es, start, |es|);
    var c := U32(Checksum(Body(fixed, es, scriptIno)));
    assert img == h + (d + U16(0)) + (x + c);
    assert img[0..|h|] == h;
    assert img[HEADER_SIZE..HEADER_SIZE + |d| + 2] == d + U16(0);
    assert img[start..start + |x|] == x;
  }

  /** The recorded slice of entry i holds its data, after the directory and before the trailer. */
  lemma {:induction false} SliceHoldsData(fixed: nat, es: seq<Entry>, scriptIno: nat, i: nat)
    requires i < |es|
    ensures var at := Offset(es, HdrDirSize(fixed, es), i);
      && HdrDirSize(fixed, es) <= at && at + |es[i].data| <= TrailerAt(fixed, es)
      && Stands(Image(fixed, es, scriptIno), at, es[i].data)
  {
    hide Header, Directory, Data, Offset, Checksum, Image, U32, U16, Fill;
    var start := HdrDirSize(fixed, es);
    Parts(fixed, es, scriptIno);
    DataSlice(es, start, |es|, i);
    OffsetsOrdered(es, start, i, |es|);
    StandsInside(Image(fixed, es, scriptIno), start, Data(es, start, |es|), Offset(es, start, i) - start, es[i].data);
  }

  /** Slices of different entries do not overlap. */
  lemma {:induction false} SlicesDisjoint(fixed: nat, es: seq<Entry>, i: nat, j: nat)
    requires i < j < |es|
    ensures var start := HdrDirSize(fixed, es);
      Offset(es, start, i) + |es[i].data| <= Offset(es, start, j)
  {
    OffsetsOrdered(es, HdrDirSize(fixed, es), i, j);
  }

  /** Data is 4-byte aligned except the first file's, which follows the two-byte directory end. */
  lemma {:induction false} DataAlignment(fixed: nat, es: seq<Entry>, i: nat)
    requires i <= |es| && fixed % 4 == 0
    ensures Offset(es, HdrDirSize(fixed, es), i) % 4 == if i == 0 then 2 else 0
  {
    DirAligned(fixed, es);
  }

  lemma {:induction false} DirAligned(fixed: nat, es: seq<Entry>)
    requires fixed % 4 == 0
    ensures DirLen(fixed, es) % 4 == 0
    decreases |es|
  {
    hide DirentLen, Dirent, DeclaredSize, PadLen;
    if es != [] {
      var before, last := DirLen(fixed, es[..|es| - 1]), DirentLen(fixed, es[|es| - 1]);
      DirAligned(fixed, es[..|es| - 1]);
      DirentLength(fixed, es[|es| - 1], 0, 0);
      AlignedSum(before, last);
    }
  }

  lemma AlignedSum(a: nat, b: nat)
    requires a % 4 == 0 && b % 4 == 0
    ensures (a + b) % 4 == 0
  {
  }

  // ---- The checksum.

  lemma {:induction false} WordSumPrefix(data: seq<Byte>, more: seq<Byte>, k: nat)
    requires 4 * k <= |data|
    ensures WordSum(data + more, k) == WordSum(data, k)
    decreases k
  {
    if k > 0 {
      WordSumPrefix(data, more, k - 1);
    }
  }

  lemma SumBelow(data: seq<Byte>, k: nat)
    requires 4 * k <= |data|
    ensures WordSum(data, k) < U32_MOD
  {
  }

  /** The word sum adds the words one after another, modulo 2^32. */
  lemma WordSumAdds(data: seq<Byte>, k: nat)
    requires 4 * k + 4 <= |data|
    ensures WordSum(data, 0) == 0
    ensures WordSum(data, k + 1) == (WordSum(data, k) + Get32(data, 4 * k)) % 0x1_0000_0000
  {
    hide Get32;
  }

  /** A checksum brings the word sum of its data, completed with zeros to whole words, to zero. */
  lemma {:induction false} ChecksumCancels(data: seq<Byte>)
    ensures Checksum(data) < 0x1_0000_0000
    ensures var whole := data + Fill(PadLen(|data|));
      |whole| % 4 == 0 && (WordSum(whole, |whole| / 4) + Checksum(data)) % 0x1_0000_0000 == 0
  {
    hide WordSum, Get32, Fill, PadLen, Trailing;
    var n := |data| / 4;
    var whole := data + Fill(PadLen(|data|));
    WordSumPrefix(data, Fill(PadLen(|data|)), n);
    SumBelow(data, n);
    if |data| % 4 != 0 {
      TrailingIs(data);
      WordSumAdds(whole, n);
      SameWord(whole, 4 * n, Trailing(data));
    }
  }

  lemma TrailingIs(data: seq<Byte>)
    requires |data| % 4 != 0
    ensures var whole, n := data + Fill(PadLen(|data|)), |data| / 4;
      |whole| == 4 * n + 4 && whole[4 * n..4 * n + 4] == Trailing(data)
  {
    var n := |data| / 4;
    assert data[4 * n..] == data[|data| / 4 * 4..];
  }

  lemma SameWord(data: seq<Byte>, at: nat, w: seq<Byte>)
    requires at + 4 <= |data| && |w| == 4 && data[at..at + 4] == w
    ensures Get32(data, at) == Get32(w, 0)
  {
    assert data[at + 0] == w[0] && data[at + 1] == w[1] && data[at + 2] == w[2] && data[at + 3] == w[3];
  }
}
