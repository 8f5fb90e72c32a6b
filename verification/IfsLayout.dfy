/**
 The bytes of an image, place by place, and what its checksum is for.
 */
module IfsLayout {
  import opened Arithmetic
  import opened Wrappers
  import opened IfsBytes
  import opened IfsImage
  import opened IfsReader
  import opened IfsWriter
  import opened IfsRoundTrip
  import opened IfsDump

  // ---- Fields.

  /** Numbers are written low byte first, modulo their width. */
  lemma WrittenLittleEndian(n: nat)
    ensures var a: nat, b: nat := U16(n)[0], U16(n)[1]; a + 256 * b == n % 0x1_0000
    ensures var a: nat, b: nat, c: nat, d: nat := U32(n)[0], U32(n)[1], U32(n)[2], U32(n)[3];
      a + 256 * b + 0x1_0000 * c + 0x100_0000 * d == n % 0x1_0000_0000
  {
    var a, b, c := n / 256, n / 65536, n / 16777216;
    LowByte(n, 0x100);
    LowByte(n, 0x1_0000);
    LowByte(n, 0x100_0000);
  }

  lemma LowByte(n: nat, p: nat)
    requires p > 0
    ensures n % p + p * (n / p % 256) == n % (256 * p)
  {
    var q: nat, lo: nat := n / p, n % p;
    var h: nat, b: nat := q / 256, q % 256;
    DivMod(n, p);
    DivMod(q, 256);
    LowSum(n, p, q, lo, h, b);
    QuotientUnique(n, 256 * p, h, lo + p * b);
  }

  lemma LowSum(n: nat, p: nat, q: nat, lo: nat, h: nat, b: nat)
    requires n == q * p + lo && q == h * 256 + b && lo < p && b < 256
    ensures n == h * (256 * p) + (lo + p * b) && 0 <= lo + p * b < 256 * p
  {
    Distribute(p, h * 256, b);
    Below(b, 255, p);
    assert p * (h * 256) == h * (256 * p);
  }

  lemma Distribute(p: nat, a: nat, b: nat)
    ensures p * (a + b) == p * a + p * b
  {
  }

  /** And read so. */
  lemma ReadLittleEndian(data: seq<Byte>, at: nat)
    requires at + 4 <= |data|
    ensures var a: nat, b: nat, c: nat, d: nat := data[at], data[at + 1], data[at + 2], data[at + 3];
      Get16(data, at) == a + 256 * b && Get32(data, at) == a + 256 * b + 0x1_0000 * c + 0x100_0000 * d
  {
  }

  /** The mode of a file is its permissions with bit 15 set; a directory's has just bit 14 of the upper four of 16. */
  lemma ModeBits(e: Entry, mode: nat)
    ensures Mode(e) / 0x8000 % 2 == 1
    ensures Mode(e) % 0x8000 == e.perms % 0x8000 && Mode(e) / 0x1_0000 == e.perms / 0x1_0000
    ensures IsDir(mode) <==> 0x4000 <= mode % 0x1_0000 < 0x5000
  {
    var q, r := e.perms / 0x8000, e.perms % 0x8000;
    assert e.perms == q * 0x8000 + r;
    if q % 2 == 0 { assert Mode(e) == (q + 1) * 0x8000 + r; }
    var m, l := mode / 0x1_0000, mode % 0x1_0000;
    assert mode == m * 0x1_0000 + l && mode / 4096 == m * 16 + l / 4096;
  }

  // ---- The header.

  /** The 100 bytes before the directory; the size recorded is the image's own. */
  lemma {:induction false} HeaderBytes(es: seq<Entry>, scriptIno: nat)
    requires scriptIno < 0x1_0000_0000 && |Image(CODED_FIXED, es, scriptIno)| < 0x1_0000_0000
    ensures var img := Image(CODED_FIXED, es, scriptIno);
      && |img| >= 106
      && img[..7] == [105, 109, 97, 103, 101, 102, 115] && img[7] == 2
      && Get32(img, 8) == |img|
      && Get32(img, 16) == 100
      && (forall i :: 20 <= i < 36 ==> img[i] == 0)
      && Get32(img, 36) == scriptIno
      && (forall i :: 40 <= i < 88 ==> img[i] == 0)
      && img[88..98] == [47, 112, 114, 111, 99, 47, 98, 111, 111, 116]
      && img[98] == 0 && img[99] == 0
  {
    hide Header, Directory, Data, Offset, Checksum, U32, Get32, Image, Stands;
    var img, start, size := Image(CODED_FIXED, es, scriptIno), HdrDirSize(CODED_FIXED, es), TrailerAt(CODED_FIXED, es) + 4;
    Parts(CODED_FIXED, es, scriptIno);
    ImageLength(CODED_FIXED, es, scriptIno);
    var h := Header(size, start, HEADER_SIZE, scriptIno);
    HeaderLength(size, start, HEADER_SIZE, scriptIno);
    StandsIn(img, HEADER_SIZE, Directory(CODED_FIXED, es, start, |es|) + U16(0));
    StandsAt(img, 0, h);
    forall i | 0 <= i < 100 ensures img[i] == h[i] {
      assert img[0 + i] == h[i];
    }
    assert img[..100] == h;
    HeaderFields(size, start, scriptIno, img);
  }

  /** What a header spells, wherever it stands at the front of. */
  lemma HeaderFields(size: nat, start: nat, scriptIno: nat, img: seq<Byte>)
    requires scriptIno < 0x1_0000_0000 && size < 0x1_0000_0000
    requires |img| >= 100 && img[..100] == Header(size, start, HEADER_SIZE, scriptIno)
    ensures img[..7] == [105, 109, 97, 103, 101, 102, 115] && img[7] == 2
    ensures Get32(img, 8) == size && Get32(img, 16) == 100 && Get32(img, 36) == scriptIno
    ensures start < 0x1_0000_0000 ==> Get32(img, 12) == start
    ensures forall i :: 20 <= i < 36 || 40 <= i < 88 ==> img[i] == 0
    ensures img[88..98] == [47, 112, 114, 111, 99, 47, 98, 111, 111, 116] && img[98] == 0 && img[99] == 0
  {
    var h := Header(size, start, HEADER_SIZE, scriptIno);
    assert forall i :: 0 <= i < 100 ==> img[i] == img[..100][i] == h[i];
    assert img[..7] == h[..7] && img[88..98] == h[88..98];
    assert h[8..12] == U32(size) && h[12..16] == U32(start) && h[16..20] == U32(HEADER_SIZE) && h[36..40] == U32(scriptIno);
    assert img[8..12] == h[8..12] && img[12..16] == h[12..16] && img[16..20] == h[16..20] && img[36..40] == h[36..40];
    hide Header, U32, Get32;
    Back32(img, 8, size);
    Back32(img, 16, HEADER_SIZE);
    Back32(img, 36, scriptIno);
    if start < 0x1_0000_0000 { Back32(img, 12, start); }
  }

  // ---- The directory.

  /** Entry k: the next one follows four bytes after where its recorded size points, and its name ends in zeros. */
  lemma {:induction false} EntryLayout(es: seq<Entry>, scriptIno: nat, k: nat)
    requires k < |es| && AllEncodable(es) && |Image(CODED_FIXED, es, scriptIno)| < 0x1_0000_0000
    ensures var img, at, name := Image(CODED_FIXED, es, scriptIno), 100 + DirLen(CODED_FIXED, es[..k]), es[k].path;
      var end := 100 + DirLen(CODED_FIXED, es[..k + 1]);
      && at + 33 + |name| <= end < at + 37 + |name| && (end - at) % 4 == 0 && end <= |img|
      && Get16(img, at) == end - at - 4
      && img[at + 32..at + 32 + |name|] == name && (forall i :: at + 32 + |name| <= i < end ==> img[i] == 0)
  {
    hide Image, Dirent, Fields, Stands, Get16, Name, Offset, DirLen, HdrDirSize, DeclaredSize, DirentLen, TrailerAt;
    var img, at, e, start := Image(CODED_FIXED, es, scriptIno), 100 + DirLen(CODED_FIXED, es[..k]), es[k], HdrDirSize(CODED_FIXED, es);
    EntryStands(es, scriptIno, k);
    NameStands(CODED_FIXED, e, Offset(es, start, k), |e.data|, img, at);
    EntryNumbers(es, scriptIno, k);
    NameBytes(e, img, at + 32);
    DirLenStep(CODED_FIXED, es, k);
    DeclaredIs(e);
  }

  /** Its numbers, and the slice they point to. */
  lemma {:induction false} EntryNumbers(es: seq<Entry>, scriptIno: nat, k: nat)
    requires k < |es| && AllEncodable(es) && |Image(CODED_FIXED, es, scriptIno)| < 0x1_0000_0000
    ensures var img, at, e := Image(CODED_FIXED, es, scriptIno), 100 + DirLen(CODED_FIXED, es[..k]), es[k];
      && at + 32 <= |img|
      && Get16(img, at) == DeclaredSize(CODED_FIXED, e) && Get16(img, at + 2) == 0
      && Get32(img, at + 4) == e.ino && Get32(img, at + 8) == Mode(e)
      && Get32(img, at + 12) == 0 && Get32(img, at + 16) == 0 && Get32(img, at + 20) == e.mtime
      && Get32(img, at + 28) == |e.data|
  {
    hide Image, Dirent, Fields, Stands, Get16, Get32, Mode, Name, Offset, TrailerAt, DirLen, HdrDirSize, DeclaredSize;
    var img, at, e, start := Image(CODED_FIXED, es, scriptIno), 100 + DirLen(CODED_FIXED, es[..k]), es[k], HdrDirSize(CODED_FIXED, es);
    var off := Offset(es, start, k);
    EntryStands(es, scriptIno, k);
    SliceHoldsData(CODED_FIXED, es, scriptIno, k);
    ImageLength(CODED_FIXED, es, scriptIno);
    NameStands(CODED_FIXED, e, off, |e.data|, img, at);
    FieldsBack(CODED_FIXED, e, off, |e.data|, img, at);
    SecondField(e, off, img, at);
  }

  /** The slice that entry k points to is its file. */
  lemma {:induction false} EntrySlice(es: seq<Entry>, scriptIno: nat, k: nat)
    requires k < |es| && AllEncodable(es) && |Image(CODED_FIXED, es, scriptIno)| < 0x1_0000_0000
    ensures var img, at, data := Image(CODED_FIXED, es, scriptIno), 100 + DirLen(CODED_FIXED, es[..k]), es[k].data;
      at + 28 <= |img| &&
      var from := Get32(img, at + 24);
      from + |data| <= |img| && img[from..from + |data|] == data
  {
    hide Image, Dirent, Fields, Stands, Get16, Get32, Mode, Name, Offset, TrailerAt, DirLen, HdrDirSize, DeclaredSize;
    var img, at, e, start := Image(CODED_FIXED, es, scriptIno), 100 + DirLen(CODED_FIXED, es[..k]), es[k], HdrDirSize(CODED_FIXED, es);
    var off := Offset(es, start, k);
    EntryStands(es, scriptIno, k);
    SliceHoldsData(CODED_FIXED, es, scriptIno, k);
    ImageLength(CODED_FIXED, es, scriptIno);
    NameStands(CODED_FIXED, e, off, |e.data|, img, at);
    FieldsBack(CODED_FIXED, e, off, |e.data|, img, at);
    SliceIs(img, off, e.data);
  }

  lemma SliceIs(data: seq<Byte>, at: nat, s: seq<Byte>)
    requires Stands(data, at, s)
    ensures at + |s| <= |data| && data[at..at + |s|] == s
  {
  }

  lemma SecondField(e: Entry, off: nat, img: seq<Byte>, at: nat)
    requires Stands(img, at, Fields(CODED_FIXED, e, off, |e.data|))
    ensures at + 4 <= |img| && Get16(img, at + 2) == 0
  {
    hide Stands, U32, U16, Get16, DeclaredSize, Mode;
    var a, b := U16(DeclaredSize(CODED_FIXED, e)), U16(0);
    var rest := U32(e.ino) + U32(Mode(e)) + U32(0) + U32(0) + U32(e.mtime) + U32(off) + U32(|e.data|);
    assert Fields(CODED_FIXED, e, off, |e.data|) == a + b + rest;
    hide Fields;
    StandsSplit(img, at, a + b, rest);
    StandsSplit(img, at, a, b);
    StandsIn(img, at + 2, b);
    Back16(img, at + 2, 0);
  }

  lemma DeclaredIs(e: Entry)
    ensures 29 + |e.path| <= DeclaredSize(CODED_FIXED, e) < 33 + |e.path| && DeclaredSize(CODED_FIXED, e) % 4 == 0
    ensures DirentLen(CODED_FIXED, e) == DeclaredSize(CODED_FIXED, e) + 4
  {
  }

  lemma NameBytes(e: Entry, img: seq<Byte>, at: nat)
    requires Stands(img, at, Name(CODED_FIXED, e))
    ensures var end := at - 28 + DeclaredSize(CODED_FIXED, e);
      at + |e.path| <= end <= |img| && img[at..at + |e.path|] == e.path && forall i :: at + |e.path| <= i < end ==> img[i] == 0
  {
    hide Stands, Fill;
    var zeros := [0] + Fill(PadLen(CODED_FIXED + |e.path| + 1));
    assert Name(CODED_FIXED, e) == e.path + zeros;
    StandsSplit(img, at, e.path, zeros);
    SliceIs(img, at, e.path);
    StandsIn(img, at + |e.path|, zeros);
    StandsAt(img, at + |e.path|, zeros);
    forall i | at + |e.path| <= i < at + |e.path| + |zeros| ensures img[i] == 0 {
      assert img[at + |e.path| + (i - at - |e.path|)] == zeros[i - at - |e.path|];
    }
  }

  /** Entry k stands after the entries before it. */
  lemma EntryStands(es: seq<Entry>, scriptIno: nat, k: nat)
    requires k < |es|
    ensures var start := HdrDirSize(CODED_FIXED, es);
      Stands(Image(CODED_FIXED, es, scriptIno), 100 + DirLen(CODED_FIXED, es[..k]),
             Dirent(CODED_FIXED, es[k], Offset(es, start, k), |es[k].data|))
  {
    hide Image, Dirent, Stands, Offset, DirLen, HdrDirSize, Directory, Tail, U16;
    var img, start := Image(CODED_FIXED, es, scriptIno), HdrDirSize(CODED_FIXED, es);
    Parts(CODED_FIXED, es, scriptIno);
    DirectoryIsTail(CODED_FIXED, es, start, k);
    DirectoryLength(CODED_FIXED, es, start, k);
    StandsSplit(img, HEADER_SIZE, Directory(CODED_FIXED, es, start, k), Tail(CODED_FIXED, es, start, k));
    TailUnfolds(CODED_FIXED, es, start, k);
    StandsSplit(img, HEADER_SIZE + DirLen(CODED_FIXED, es[..k]), EntryBytes(CODED_FIXED, es, start, k), Tail(CODED_FIXED, es, start, k + 1));
  }

  /** The directory starts after the header, and ends where the header says, in two zero bytes. */
  lemma {:induction false} DirectoryEnds(es: seq<Entry>, scriptIno: nat)
    requires |Image(CODED_FIXED, es, scriptIno)| < 0x1_0000_0000
    ensures DirLen(CODED_FIXED, []) == 0
    ensures var img, end := Image(CODED_FIXED, es, scriptIno), 102 + DirLen(CODED_FIXED, es);
      end <= |img| && Get32(img, 12) == end && img[end - 2] == 0 && img[end - 1] == 0
  {
    hide Image, Stands, Get32, Offset, Header, Directory, Data, Tail;
    var img, start := Image(CODED_FIXED, es, scriptIno), HdrDirSize(CODED_FIXED, es);
    Parts(CODED_FIXED, es, scriptIno);
    StandsSplit(img, HEADER_SIZE, Directory(CODED_FIXED, es, start, |es|), U16(0));
    StandsAt(img, start - 2, U16(0));
    StandsIn(img, start - 2, U16(0));
    assert img[start - 2 + 0] == 0 && img[start - 2 + 1] == 0;
    HeaderRecords(es, scriptIno);
  }

  lemma HeaderRecords(es: seq<Entry>, scriptIno: nat)
    requires |Image(CODED_FIXED, es, scriptIno)| < 0x1_0000_0000
    ensures |Image(CODED_FIXED, es, scriptIno)| >= 100
    ensures Get32(Image(CODED_FIXED, es, scriptIno), 12) == HdrDirSize(CODED_FIXED, es)
  {
    hide Image, Stands, Get32, Offset, Header, Directory, Data, U32;
    var img, start := Image(CODED_FIXED, es, scriptIno), HdrDirSize(CODED_FIXED, es);
    Parts(CODED_FIXED, es, scriptIno);
    HeaderFieldsStand(TrailerAt(CODED_FIXED, es) + 4, start, HEADER_SIZE, scriptIno, img);
    ImageLength(CODED_FIXED, es, scriptIno);
    TrailerAfterStart(CODED_FIXED, es);
    StandsIn(img, HEADER_SIZE, Directory(CODED_FIXED, es, start, |es|) + U16(0));
    Back32(img, 12, start);
  }

  // ---- The checksum.

  /** All words of a built image with files, its trailer included, sum to zero. */
  lemma {:induction false} ImageSumsToZero(fixed: nat, es: seq<Entry>, scriptIno: nat)
    requires fixed % 4 == 0 && es != []
    ensures var img := Image(fixed, es, scriptIno); |img| % 4 == 0 && WordSum(img, |img| / 4) == 0
  {
    hide Body, WordSum, Checksum, Get32, U32, Fill, TrailerAt;
    var body, img := Body(fixed, es, scriptIno), Image(fixed, es, scriptIno);
    var c, n := Checksum(body), |body| / 4;
    ImageLength(fixed, es, scriptIno);
    TrailerAligned(fixed, es);
    ChecksumCancels(body);
    assert body + Fill(0) == body;
    WordSumPrefix(body, U32(c), n);
    WordSumAdds(img, n);
    assert img[4 * n..4 * n + 4] == U32(c);
    SameWord(img, 4 * n, U32(c));
    WholeWord(c);
  }

  lemma WholeWord(c: nat)
    requires c < 0x1_0000_0000
    ensures Get32(U32(c), 0) == c
  {
    hide Get32, U32;
    assert U32(c)[0..4] == U32(c);
    assert Stands(U32(c), 0, U32(c));
    Back32(U32(c), 0, c);
  }

  lemma TrailerAligned(fixed: nat, es: seq<Entry>)
    requires fixed % 4 == 0 && es != []
    ensures TrailerAt(fixed, es) % 4 == 0
  {
    DataAlignment(fixed, es, |es|);
  }

  // ---- Around the files.

  /** The start-up script is a file of fixed name and mode, before all others. */
  lemma ScriptComesFirst(ino: nat, text: seq<Byte>, files: seq<Entry>)
    ensures Entries(Script(ino, text), files) == [Entry(ino, 493, 0, [46, 115, 99, 114, 105, 112, 116], text)] + files
    ensures ScriptIno(Script(ino, text)) == ino
    ensures Entries(NoScript, files) == files && ScriptIno(NoScript) == 0
  {
  }

  /** Reading an entry fails exactly when its words run past the end of the data, or its size leaves no room for them. */
  lemma RecordFails(fixed: nat, dirFixed: nat, data: seq<Byte>, pos: nat, size: nat)
    ensures pos + 24 > |data| ==> ParseRecord(fixed, dirFixed, data, pos, size) == None
    ensures pos + 24 <= |data| && 0x4000 <= Get32(data, pos + 8) % 0x1_0000 < 0x5000 ==>
      (ParseRecord(fixed, dirFixed, data, pos, size).None? <==> size < dirFixed)
    ensures pos + 24 <= |data| && !(0x4000 <= Get32(data, pos + 8) % 0x1_0000 < 0x5000) ==>
      (ParseRecord(fixed, dirFixed, data, pos, size).None? <==> pos + 32 > |data| || size < fixed)
  {
    hide Get32;
    if pos + 24 <= |data| { DirMode(Get32(data, pos + 8)); }
  }

  /** An entry can be listed when its numbers fit their fields, its padded size does too, and its name holds no zero. */
  lemma EncodableIs(e: Entry)
    ensures Encodable(e) <==>
      && e.ino < 0x1_0000_0000 && e.perms < 0x1_0000_0000 && e.mtime < 0x1_0000_0000
      && DeclaredSize(TRUE_FIXED, e) < 0x1_0000 && forall i :: 0 <= i < |e.path| ==> e.path[i] != 0
  {
  }

  lemma DirMode(mode: nat)
    ensures IsDir(mode) <==> 0x4000 <= mode % 0x1_0000 < 0x5000
  {
    ModeBits(Entry(0, 0, 0, [], []), mode);
  }

  /** An entry with a directory's mode is read as six words and a name, with the zeros after it dropped. */
  lemma DirectoryRecord(data: seq<Byte>, pos: nat, path: seq<Byte>, n: nat)
    requires pos + 24 <= |data| && Stands(data, pos + 24, path + Fill(n)) && (path != [] ==> path[|path| - 1] != 0)
    requires 0x4000 <= Get32(data, pos + 8) % 0x1_0000 < 0x5000
    ensures ParseRecord(CODED_FIXED, 20, data, pos, |path| + n + 20) ==
      Some(DirRecord(Get32(data, pos + 4), Get32(data, pos + 8), Get32(data, pos + 12), Get32(data, pos + 16), Get32(data, pos + 20), path))
  {
    hide Get32, Trim, IsDir, Stands;
    ModeBits(Entry(0, 0, 0, [], []), Get32(data, pos + 8));
    SliceIs(data, pos + 24, path + Fill(n));
    TrimBack(path, n);
  }
}
