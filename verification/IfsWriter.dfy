/**
 The image writer: streams that only grow, a first pass that measures the
 directory with placeholder offsets, and a second pass that writes the image.
 */
module IfsWriter {
  import opened IfsBytes
  import opened IfsImage

  datatype Script = NoScript | Script(ino: nat, text: seq<Byte>)

  const SCRIPT_NAME: seq<Byte> := [46, 115, 99, 114, 105, 112, 116]
  const EXECUTABLE: nat := 0x1ED

  /** The start-up script as an entry: fixed name and permissions, no time stamp. */
  function ScriptEntry(ino: nat, text: seq<Byte>): Entry {
    Entry(ino, EXECUTABLE, 0, SCRIPT_NAME, text)
  }

  /** The script, if any, goes before the files. */
  function Entries(script: Script, files: seq<Entry>): seq<Entry> {
    if script.Script? then [ScriptEntry(script.ino, script.text)] + files else files
  }

  function ScriptIno(script: Script): nat { if script.Script? then script.ino else 0 }

  function Offsets(es: seq<Entry>, start: nat, k: nat): (s: seq<(nat, seq<Byte>)>)
    requires k <= |es|
    ensures |s| == k && forall i :: 0 <= i < k ==> s[i] == (Offset(es, start, i), es[i].data)
  {
    seq(k, i requires 0 <= i < k => (Offset(es, start, i), es[i].data))
  }

  class Stream {
    var bytes: seq<Byte>

    constructor ()
      ensures bytes == []
    {
      bytes := [];
    }

    method Write(s: seq<Byte>)
      modifies this
      ensures bytes == old(bytes) + s
    {
      bytes := bytes + s;
    }

    method WriteZeros(n: nat)
      modifies this
      ensures bytes == old(bytes) + Fill(n)
    {
      Write(Fill(n));
    }

    method WriteHeader(imageSize: nat, hdrDirSize: nat, dirOffset: nat, scriptIno: nat)
      modifies this
      ensures bytes == old(bytes) + Header(imageSize, hdrDirSize, dirOffset, scriptIno)
    {
      hide Sizes, Numbers, Fill;
      WriteSizes(imageSize, hdrDirSize, dirOffset);
      WriteNumbers(scriptIno);
      Write(MOUNTPOINT + [0]);
      WriteZeros(PadLen(|MOUNTPOINT| + 1));
    }

    method WriteSizes(imageSize: nat, hdrDirSize: nat, dirOffset: nat)
      modifies this
      ensures bytes == old(bytes) + Sizes(imageSize, hdrDirSize, dirOffset)
    {
      hide Fill, U32;
      Write(SIGNATURE);
      Write([READONLY]);
      Write(U32(imageSize));
      Write(U32(hdrDirSize));
      Write(U32(dirOffset));
      WriteZeros(16);
    }

    method WriteNumbers(scriptIno: nat)
      modifies this
      ensures bytes == old(bytes) + Numbers(scriptIno)
    {
      hide Fill, U32;
      Write(U32(scriptIno));
      WriteZeros(4);
      WriteZeros(40);
      WriteZeros(4);
    }

    /** Returns the size the entry declares, not the size it has. */
    method WriteFileDirent(fixed: nat, e: Entry, offset: nat, size: nat) returns (padded: nat)
      modifies this
      ensures bytes == old(bytes) + Dirent(fixed, e, offset, size)
      ensures padded == DeclaredSize(fixed, e)
    {
      hide Fill, U32, U16;
      var entrySize := fixed + (|e.path| + 1);
      padded := entrySize + PadLen(entrySize);
      Write(U16(padded));
      Write(U16(0));
      Write(U32(e.ino));
      Write(U32(Mode(e)));
      Write(U32(0));
      Write(U32(0));
      Write(U32(e.mtime));
      Write(U32(offset));
      Write(U32(size));
      ghost var fields := bytes;
      assert fields == old(bytes) + Fields(fixed, e, offset, size);
      WriteName(fixed, e);
      hide Fields, Name;
    }

    method WriteName(fixed: nat, e: Entry)
      modifies this
      ensures bytes == old(bytes) + Name(fixed, e)
    {
      Write(e.path + [0]);
      WriteZeros(PadLen(fixed + |e.path| + 1));
    }

    method WriteDirEnd()
      modifies this
      ensures bytes == old(bytes) + U16(0)
    {
      Write(U16(0));
    }
  }

  method ComputeChecksum(data: seq<Byte>) returns (sum: nat)
    ensures sum == Checksum(data)
    ensures sum < U32_MOD
    ensures var whole := data + Fill(PadLen(|data|)); |whole| % 4 == 0 && (WordSum(whole, |whole| / 4) + sum) % U32_MOD == 0
  {
    hide Get32, Negate, Fill, PadLen;
    sum := 0;
    var len := |data| / 4 * 4;
    var i := 0;
    while i < len
      invariant 0 <= i <= len && i % 4 == 0
      invariant sum == WordSum(data, i / 4)
    {
      sum := (sum + Get32(data, i)) % U32_MOD;
      i := i + 4;
    }
    if |data| % 4 != 0 {
      var trailing := data[len..] + Fill(4 - (|data| - len));
      assert trailing == Trailing(data);
      sum := (sum + Get32(trailing, 0)) % U32_MOD;
    }
    sum := Negate(sum);
    ChecksumCancels(data);
  }

  // ---- First pass.

  /** The directory's size, measured on one written with every offset zero. */
  method MeasureDirectory(fixed: nat, script: Script, files: seq<Entry>) returns (size: nat)
    ensures size == DirLen(fixed, Entries(script, files)) + 2
  {
    hide Dirent, Fields, DirentLen, DirLen, Entries;
    var dir := new Stream();
    var _ := EntriesAre(script, files);
    DirLenEmpty(fixed);
    ghost var es := Entries(script, files);
    ghost var k := 0;
    assert es[..0] == [];
    if script.Script? {
      var e := ScriptEntry(script.ino, script.text);
      var _ := dir.WriteFileDirent(fixed, e, 0, 0);
      DirentLength(fixed, e, 0, 0);
      DirLenStep(fixed, es, 0);
      k := 1;
    }
    ghost var base := k;
    for i := 0 to |files|
      invariant k == base + i && |es| == base + |files|
      invariant |dir.bytes| == DirLen(fixed, es[..k])
    {
      var _ := dir.WriteFileDirent(fixed, files[i], 0, |files[i].data|);
      DirentLength(fixed, files[i], 0, |files[i].data|);
      assert es[k] == files[i];
      DirLenStep(fixed, es, k);
      k := k + 1;
    }
    assert es[..k] == es;
    dir.WriteDirEnd();
    size := |dir.bytes|;
  }

  lemma DirLenEmpty(fixed: nat)
    ensures DirLen(fixed, []) == 0
  {
  }

  lemma DirLenStep(fixed: nat, es: seq<Entry>, k: nat)
    requires k < |es|
    ensures DirLen(fixed, es[..k + 1]) == DirLen(fixed, es[..k]) + DirentLen(fixed, es[k])
  {
    hide DirentLen;
    assert es[..k + 1][..k] == es[..k];
  }

  /** Where each entry comes from. */
  ghost function EntriesAre(script: Script, files: seq<Entry>): (base: nat)
    ensures var es := Entries(script, files);
      && base == (if script.Script? then 1 else 0)
      && |es| == base + |files|
      && (script.Script? ==> es[0] == ScriptEntry(script.ino, script.text))
      && (forall i :: 0 <= i < |files| ==> es[base + i] == files[i])
  {
    if script.Script? then 1 else 0
  }

  /** Offsets of the data, and of the trailer. */
  method LayOut(script: Script, files: seq<Entry>, start: nat) returns (offsets: seq<(nat, seq<Byte>)>, trailer: nat)
    ensures var es := Entries(script, files);
      offsets == Offsets(es, start, |es|) && trailer == Offset(es, start, |es|)
  {
    hide Entries, PadLen, Offsets, Offset;
    ghost var base := EntriesAre(script, files);
    ghost var es := Entries(script, files);
    OffsetZero(es, start);
    offsets, trailer := [], start;
    OffsetsStart(es, start);
    if script.Script? {
      assert es[0].data == script.text;
      OffsetsStep(es, start, 0);
      offsets := offsets + [(trailer, script.text)];
      trailer := trailer + |script.text|;
      trailer := trailer + PadLen(trailer);
    }
    for i := 0 to |files|
      invariant offsets == Offsets(es, start, base + i) && trailer == Offset(es, start, base + i)
    {
      assert es[base + i] == files[i];
      OffsetsStep(es, start, base + i);
      offsets := offsets + [(trailer, files[i].data)];
      trailer := trailer + |files[i].data|;
      trailer := trailer + PadLen(trailer);
    }
  }

  lemma OffsetsStart(es: seq<Entry>, start: nat)
    ensures Offsets(es, start, 0) == []
  {
  }

  lemma OffsetsStep(es: seq<Entry>, start: nat, k: nat)
    requires k < |es|
    ensures Offsets(es, start, k + 1) == Offsets(es, start, k) + [(Offset(es, start, k), es[k].data)]
    ensures var end := Offset(es, start, k) + |es[k].data|; Offset(es, start, k + 1) == end + PadLen(end)
  {
    hide Offset;
    OffsetStep(es, start, k);
    var s, t := Offsets(es, start, k + 1), Offsets(es, start, k) + [(Offset(es, start, k), es[k].data)];
    assert |s| == |t| && forall i :: 0 <= i < |s| ==> s[i] == t[i];
  }

  // ---- Second pass.

  method WriteDirectory(w: Stream, fixed: nat, script: Script, files: seq<Entry>, offsets: seq<(nat, seq<Byte>)>, ghost start: nat)
    requires var es := Entries(script, files); offsets == Offsets(es, start, |es|)
    modifies w
    ensures var es := Entries(script, files);
      w.bytes == old(w.bytes) + (Directory(fixed, es, start, |es|) + U16(0))
  {
    hide Dirent, Offset, Entries, U16;
    ghost var base := EntriesAre(script, files);
    ghost var es := Entries(script, files);
    var offsetIdx := 0;
    if script.Script? {
      var (off, _) := offsets[offsetIdx];
      offsetIdx := offsetIdx + 1;
      var _ := w.WriteFileDirent(fixed, ScriptEntry(script.ino, script.text), off, |script.text|);
      assert Directory(fixed, es, start, 1) == Directory(fixed, es, start, 0) + Dirent(fixed, es[0], Offset(es, start, 0), |es[0].data|);
    }
    for i := 0 to |files|
      invariant offsetIdx == base + i
      invariant w.bytes == old(w.bytes) + Directory(fixed, es, start, base + i)
    {
      assert es[base + i] == files[i];
      var (off, _) := offsets[offsetIdx];
      offsetIdx := offsetIdx + 1;
      var _ := w.WriteFileDirent(fixed, files[i], off, |files[i].data|);
    }
    w.WriteDirEnd();
  }

  /** Each file's data, after zeros up to its offset. */
  method WriteData(w: Stream, offsets: seq<(nat, seq<Byte>)>, trailer: nat, ghost es: seq<Entry>, ghost start: nat)
    requires offsets == Offsets(es, start, |es|) && trailer == Offset(es, start, |es|)
    requires |w.bytes| == start
    modifies w
    ensures w.bytes == old(w.bytes) + Data(es, start, |es|)
  {
    hide Fill, PadLen, Offset, Data, Offsets;
    OffsetZero(es, start);
    FillNone(w.bytes);
    for i := 0 to |offsets|
      invariant |w.bytes| <= Offset(es, start, i)
      invariant w.bytes + Fill(Offset(es, start, i) - |w.bytes|) == old(w.bytes) + Data(es, start, i)
    {
      var (off, data) := offsets[i];
      PadTo(w, off);
      w.Write(data);
      OffsetStep(es, start, i);
      DataStep(es, start, i);
      Regroup(old(w.bytes), Data(es, start, i), data, Fill(PadLen(off + |data|)));
    }
    PadTo(w, trailer);
  }

  method PadTo(w: Stream, off: nat)
    requires |w.bytes| <= off
    modifies w
    ensures w.bytes == old(w.bytes) + Fill(off - |old(w.bytes)|)
  {
    var current := |w.bytes|;
    if current < off {
      w.WriteZeros(off - current);
    } else {
      FillNone(w.bytes);
    }
  }

  lemma FillNone(s: seq<Byte>)
    ensures s + Fill(0) == s
  {
  }

  lemma Regroup(a: seq<Byte>, b: seq<Byte>, c: seq<Byte>, d: seq<Byte>)
    ensures a + b + c + d == a + (b + c + d)
  {
  }

  lemma OffsetZero(es: seq<Entry>, start: nat)
    ensures Offset(es, start, 0) == start && Data(es, start, 0) == []
  {
  }

  lemma OffsetStep(es: seq<Entry>, start: nat, i: nat)
    requires i < |es|
    ensures var end := Offset(es, start, i) + |es[i].data|;
      Offset(es, start, i + 1) == end + PadLen(end)
  {
  }

  lemma DataStep(es: seq<Entry>, start: nat, i: nat)
    requires i < |es|
    ensures Data(es, start, i + 1) == Data(es, start, i) + es[i].data + Fill(PadLen(Offset(es, start, i) + |es[i].data|))
  {
    hide Offset, Fill, PadLen;
  }

  /** The whole build: the stream ends up holding exactly the specified image. */
  method BuildIfs(fixed: nat, script: Script, files: seq<Entry>) returns (image: seq<Byte>)
    ensures image == Image(fixed, Entries(script, files), ScriptIno(script))
  {
    hide Header, Directory, Data, Offset, Checksum, Entries, U32, U16, DirLen, Offsets;
    ghost var es := Entries(script, files);
    var header := new Stream();
    header.WriteHeader(0, 0, 0, 0);
    HeaderLength(0, 0, 0, 0);
    var headerSize := |header.bytes|;
    var dirSize := MeasureDirectory(fixed, script, files);
    var hdrDirSize := headerSize + dirSize;
    var offsets, trailer := LayOut(script, files, hdrDirSize);
    var imageSize := trailer + 4;

    var w := new Stream();
    w.WriteHeader(imageSize, hdrDirSize, headerSize, ScriptIno(script));
    HeaderLength(imageSize, hdrDirSize, headerSize, ScriptIno(script));
    ghost var h := Header(imageSize, hdrDirSize, headerSize, ScriptIno(script));
    WriteDirectory(w, fixed, script, files, offsets, hdrDirSize);
    DirectoryLength(fixed, es, hdrDirSize, |es|);
    assert es[..|es|] == es;
    WriteData(w, offsets, trailer, es, hdrDirSize);
    assert w.bytes == Body(fixed, es, ScriptIno(script));
    var cksum := ComputeChecksum(w.bytes);
    w.Write(U32(cksum));
    image := w.bytes;
  }
}
