/**
 What the dump tool recovers from a written image: everything when both sides
 count the fixed part of an entry right, and almost nothing as the code stands.
 */
module IfsRoundTrip {
  import opened Wrappers
  import opened IfsBytes
  import opened IfsImage
  import opened IfsReader

  /** An entry whose fields fit and whose name is a proper C string. */
  ghost predicate Encodable(e: Entry) {
    && e.ino < U32_MOD && e.perms < U32_MOD && e.mtime < U32_MOD
    && |e.path| + 36 < U16_MOD && (forall i :: 0 <= i < |e.path| ==> e.path[i] != 0)
  }

  ghost predicate AllEncodable(es: seq<Entry>) {
    forall i :: 0 <= i < |es| ==> Encodable(es[i])
  }

  function RecordOf(e: Entry, offset: nat): Record {
    FileRecord(e.ino, Mode(e), 0, 0, e.mtime, offset, |e.data|, e.path)
  }

  /** The listing that the image was written from, from entry i on. */
  function Expected(es: seq<Entry>, start: nat, i: nat): seq<Record>
    requires i <= |es|
    decreases |es| - i
  {
    if i == |es| then [] else [RecordOf(es[i], Offset(es, start, i))] + Expected(es, start, i + 1)
  }

  /** The directory from entry i on, front to back. */
  function Tail(fixed: nat, es: seq<Entry>, start: nat, i: nat): (s: seq<Byte>)
    requires i <= |es|
    ensures |s| >= 2
    decreases |es| - i
  {
    if i == |es| then U16(0)
    else Dirent(fixed, es[i], Offset(es, start, i), |es[i].data|) + Tail(fixed, es, start, i + 1)
  }

  function EntryBytes(fixed: nat, es: seq<Entry>, start: nat, i: nat): seq<Byte>
    requires i < |es|
  {
    Dirent(fixed, es[i], Offset(es, start, i), |es[i].data|)
  }

  lemma TailUnfolds(fixed: nat, es: seq<Entry>, start: nat, i: nat)
    requires i < |es|
    ensures Tail(fixed, es, start, i) == EntryBytes(fixed, es, start, i) + Tail(fixed, es, start, i + 1)
    ensures Directory(fixed, es, start, i + 1) == Directory(fixed, es, start, i) + EntryBytes(fixed, es, start, i)
  {
    hide Dirent, Offset, U16;
  }

  lemma {:induction false} DirectoryIsTail(fixed: nat, es: seq<Entry>, start: nat, i: nat)
    requires i <= |es|
    ensures Directory(fixed, es, start, |es|) + U16(0) == Directory(fixed, es, start, i) + Tail(fixed, es, start, i)
    decreases |es| - i
  {
    hide Dirent, Offset, U16, Directory, EntryBytes;
    if i < |es| {
      DirectoryIsTail(fixed, es, start, i + 1);
      TailUnfolds(fixed, es, start, i);
      Regroup(Directory(fixed, es, start, i), EntryBytes(fixed, es, start, i), Tail(fixed, es, start, i + 1));
    }
  }

  lemma Regroup(a: seq<Byte>, b: seq<Byte>, c: seq<Byte>)
    ensures a + b + c == a + (b + c)
  {
  }

  // ---- One entry.

  lemma {:induction false} TrimBack(path: seq<Byte>, n: nat)
    requires path != [] ==> path[|path| - 1] != 0
    ensures Trim(path + Fill(n)) == path
    decreases n
  {
    if n == 0 {
      assert path + Fill(0) == path;
    } else {
      var s := path + Fill(n);
      assert s[|s| - 1] == 0 && s[..|s| - 1] == path + Fill(n - 1);
      TrimBack(path, n - 1);
    }
  }

  /** The ten numeric fields, each where the reader looks for it. */
  lemma FieldsBack(fixed: nat, e: Entry, offset: nat, size: nat, data: seq<Byte>, pos: nat)
    requires Encodable(e) && fixed <= TRUE_FIXED && offset < U32_MOD && size < U32_MOD
    requires Stands(data, pos, Fields(fixed, e, offset, size))
    ensures pos + 32 <= |data|
    ensures Get16(data, pos) == DeclaredSize(fixed, e)
    ensures Get32(data, pos + 4) == e.ino && Get32(data, pos + 8) == Mode(e)
    ensures Get32(data, pos + 12) == 0 && Get32(data, pos + 16) == 0 && Get32(data, pos + 20) == e.mtime
    ensures Get32(data, pos + 24) == offset && Get32(data, pos + 28) == size
  {
    hide Stands, Get16, Get32, U16, U32, PadLen;
    var a, b, c := U16(DeclaredSize(fixed, e)), U16(0), U32(e.ino);
    StandsIn(data, pos, Fields(fixed, e, offset, size));
    StandsSplit(data, pos, a + b + c + U32(Mode(e)) + U32(0) + U32(0) + U32(e.mtime) + U32(offset), U32(size));
    StandsSplit(data, pos, a + b + c + U32(Mode(e)) + U32(0) + U32(0) + U32(e.mtime), U32(offset));
    StandsSplit(data, pos, a + b + c + U32(Mode(e)) + U32(0) + U32(0), U32(e.mtime));
    StandsSplit(data, pos, a + b + c + U32(Mode(e)) + U32(0), U32(0));
    StandsSplit(data, pos, a + b + c + U32(Mode(e)), U32(0));
    StandsSplit(data, pos, a + b + c, U32(Mode(e)));
    StandsSplit(data, pos, a + b, c);
    StandsSplit(data, pos, a, b);
    Back16(data, pos, DeclaredSize(fixed, e));
    Back32(data, pos + 4, e.ino);
    Back32(data, pos + 8, Mode(e));
    Back32(data, pos + 12, 0);
    Back32(data, pos + 16, 0);
    Back32(data, pos + 20, e.mtime);
    Back32(data, pos + 24, offset);
    Back32(data, pos + 28, size);
  }

  lemma StandsIn(data: seq<Byte>, at: nat, s: seq<Byte>)
    requires Stands(data, at, s)
    ensures at + |s| <= |data|
  {
  }

  /** The reader's record of an entry is the entry, for either count of the fixed part. */
  lemma RecordBack(fixed: nat, dirFixed: nat, e: Entry, offset: nat, size: nat, data: seq<Byte>, pos: nat)
    requires Encodable(e) && fixed <= TRUE_FIXED && fixed % 4 == 0 && offset < U32_MOD && size < U32_MOD
    requires Stands(data, pos, Dirent(fixed, e, offset, size))
    ensures pos + 32 <= |data| && Get16(data, pos) == DeclaredSize(fixed, e)
    ensures ParseRecord(fixed, dirFixed, data, pos, DeclaredSize(fixed, e)) ==
            Some(FileRecord(e.ino, Mode(e), 0, 0, e.mtime, offset, size, e.path))
  {
    hide Fields, U16, U32, Get16, Get32, Trim, Name, Stands, Dirent, DeclaredSize, Bytes;
    NameStands(fixed, e, offset, size, data, pos);
    FieldsBack(fixed, e, offset, size, data, pos);
    NameBack(fixed, e, data, pos + 32);
    NotDirectory(e);
  }

  lemma NotDirectory(e: Entry)
    requires Encodable(e)
    ensures !IsDir(Mode(e))
  {
    var m := Mode(e);
    assert m / REGULAR % 2 == 1 by {
      if e.perms / REGULAR % 2 == 0 { assert (e.perms + REGULAR) / REGULAR == e.perms / REGULAR + 1; }
    }
    assert m / 4096 / 8 == m / REGULAR;
    OddEighth(m / 4096);
  }

  lemma OddEighth(k: nat)
    requires k / 8 % 2 == 1
    ensures k % 16 >= 8
  {
  }

  lemma NameStands(fixed: nat, e: Entry, offset: nat, size: nat, data: seq<Byte>, pos: nat)
    requires Stands(data, pos, Dirent(fixed, e, offset, size))
    ensures Stands(data, pos, Fields(fixed, e, offset, size)) && Stands(data, pos + 32, Name(fixed, e))
    ensures DeclaredSize(fixed, e) >= fixed
  {
    hide Fields, Name, Stands;
    StandsSplit(data, pos, Fields(fixed, e, offset, size), Name(fixed, e));
  }

  /** The path, and the zeros after it trimmed off. */
  lemma NameBack(fixed: nat, e: Entry, data: seq<Byte>, at: nat)
    requires Encodable(e) && Stands(data, at, Name(fixed, e))
    ensures DeclaredSize(fixed, e) >= fixed && at <= |data|
    ensures Trim(Bytes(data, at, DeclaredSize(fixed, e) - fixed)) == e.path
  {
    hide Trim, Fill, Get16, Get32;
    var p := PadLen(fixed + |e.path| + 1);
    assert [0] + Fill(p) == Fill(p + 1);
    assert Name(fixed, e) == e.path + Fill(p + 1);
    assert Bytes(data, at, DeclaredSize(fixed, e) - fixed) == e.path + Fill(p + 1);
    TrimBack(e.path, p + 1);
  }

  // ---- The corrected count: the walk inverts the directory.

  lemma {:induction false} WalkBack(dirFixed: nat, es: seq<Entry>, start: nat, i: nat, data: seq<Byte>, pos: nat, limit: nat)
    requires AllEncodable(es) && i <= |es| && Offset(es, start, |es|) < U32_MOD
    requires Stands(data, pos, Tail(TRUE_FIXED, es, start, i)) && limit == pos + |Tail(TRUE_FIXED, es, start, i)|
    ensures Walk(TRUE_FIXED, dirFixed, data, pos, limit) == Listed(Expected(es, start, i))
    decreases |es| - i
  {
    hide Dirent, Offset, ParseRecord, Get16;
    if i == |es| {
      Back16(data, pos, 0);
    } else {
      var e, off := es[i], Offset(es, start, i);
      var d, rest := Dirent(TRUE_FIXED, e, off, |e.data|), Tail(TRUE_FIXED, es, start, i + 1);
      OffsetsOrdered(es, start, i, |es|);
      DirentLength(TRUE_FIXED, e, off, |e.data|);
      StandsSplit(data, pos, d, rest);
      RecordBack(TRUE_FIXED, dirFixed, e, off, |e.data|, data, pos);
      WalkBack(dirFixed, es, start, i + 1, data, pos + |d|, limit);
    }
  }

  /** With 32 on both sides, dumping a written image lists every entry, in order, and stops at the end mark. */
  lemma {:induction false} CorrectedRoundTrip(dirFixed: nat, es: seq<Entry>, scriptIno: nat)
    requires AllEncodable(es) && TrailerAt(TRUE_FIXED, es) < U32_MOD
    ensures var start := HdrDirSize(TRUE_FIXED, es);
      Walk(TRUE_FIXED, dirFixed, Image(TRUE_FIXED, es, scriptIno), HEADER_SIZE, start) == Listed(Expected(es, start, 0))
  {
    hide Image, Walk, Directory, Offset, Header, Data, U16;
    var start, img := HdrDirSize(TRUE_FIXED, es), Image(TRUE_FIXED, es, scriptIno);
    Parts(TRUE_FIXED, es, scriptIno);
    DirectoryIsTail(TRUE_FIXED, es, start, 0);
    NoDirectory(TRUE_FIXED, es, start);
    WalkBack(dirFixed, es, start, 0, img, HEADER_SIZE, start);
  }

  lemma NoDirectory(fixed: nat, es: seq<Entry>, start: nat)
    ensures Directory(fixed, es, start, 0) + Tail(fixed, es, start, 0) == Tail(fixed, es, start, 0)
  {
  }

  // ---- As written, the reader steps four bytes short.

  /** The size that the first entry declares ends four bytes before the entry does. */
  lemma FirstEntry(e: Entry, off: nat, data: seq<Byte>, pos: nat)
    requires Stands(data, pos, Dirent(CODED_FIXED, e, off, |e.data|))
    ensures var n, next := Name(CODED_FIXED, e), pos + DeclaredSize(CODED_FIXED, e);
      |n| >= 4 && next + 4 == pos + DirentLen(CODED_FIXED, e) && Stands(data, next, n[|n| - 4..])
  {
    hide Stands, Fields, Name, DeclaredSize;
    var f, n := Fields(CODED_FIXED, e, off, |e.data|), Name(CODED_FIXED, e);
    NameLength(e);
    DirentLength(CODED_FIXED, e, off, |e.data|);
    assert f + n == (f + n[..|n| - 4]) + n[|n| - 4..];
    StandsSplit(data, pos, f + n[..|n| - 4], n[|n| - 4..]);
  }

  lemma WalkSteps(fixed: nat, dirFixed: nat, data: seq<Byte>, pos: nat, limit: nat, r: Record)
    requires pos < limit && pos + 2 <= |data|
    requires ParseRecord(fixed, dirFixed, data, pos, Get16(data, pos)) == Some(r) && Get16(data, pos) != 0
    ensures Walk(fixed, dirFixed, data, pos, limit) ==
      Prepend([r], Walk(fixed, dirFixed, data, pos + Get16(data, pos), limit))
  {
    hide ParseRecord, Get16;
  }

  /** After the first entry the reader stands on that entry's last four bytes. */
  lemma {:induction false} LandsEarly(es: seq<Entry>, start: nat, data: seq<Byte>, pos: nat, limit: nat)
    requires es != [] && AllEncodable(es) && Offset(es, start, |es|) < U32_MOD
    requires Stands(data, pos, Tail(CODED_FIXED, es, start, 0)) && limit == pos + |Tail(CODED_FIXED, es, start, 0)|
    ensures var next, n := pos + DeclaredSize(CODED_FIXED, es[0]), Name(CODED_FIXED, es[0]);
      && next + 6 <= limit && next + 4 == pos + DirentLen(CODED_FIXED, es[0])
      && Walk(CODED_FIXED, 20, data, pos, limit) ==
         Prepend([RecordOf(es[0], Offset(es, start, 0))], Walk(CODED_FIXED, 20, data, next, limit))
      && |n| >= 4 && Stands(data, next, n[|n| - 4..])
      && Stands(data, next + 4, Tail(CODED_FIXED, es, start, 1))
  {
    hide Stands, Offset, ParseRecord, Get16, Fields, Name, Tail, Walk, Prepend, Dirent;
    var e, off := es[0], Offset(es, start, 0);
    TailUnfolds(CODED_FIXED, es, start, 0);
    OffsetsOrdered(es, start, 0, |es|);
    DirentLength(CODED_FIXED, e, off, |e.data|);
    StandsSplit(data, pos, EntryBytes(CODED_FIXED, es, start, 0), Tail(CODED_FIXED, es, start, 1));
    RecordBack(CODED_FIXED, 20, e, off, |e.data|, data, pos);
    FirstEntry(e, off, data, pos);
    WalkSteps(CODED_FIXED, 20, data, pos, limit, RecordOf(e, off));
  }

  lemma NameLength(e: Entry)
    ensures |Name(CODED_FIXED, e)| >= 4 && |Name(CODED_FIXED, e)| == DeclaredSize(CODED_FIXED, e) - CODED_FIXED
  {
  }

  /** Of the last four bytes of a padded name, the first is a letter, and only if the length is no multiple of four. */
  lemma LastFour(e: Entry)
    requires Encodable(e)
    ensures var n := Name(CODED_FIXED, e);
      && |n| >= 4
      && (if |e.path| % 4 == 0 then n[|n| - 4] == 0 && n[|n| - 3] == 0 else n[|n| - 4] != 0)
  {
    hide Fill, PadLen;
    PadOfName(|e.path|);
    var n, p := Name(CODED_FIXED, e), PadLen(CODED_FIXED + |e.path| + 1);
    var z := Fill(p);
    assert n == e.path + ([0] + z) && |n| - 4 == |e.path| + p - 3;
    if p == 3 {
      assert n[|n| - 4] == ([0] + z)[0] && n[|n| - 3] == ([0] + z)[1];
    } else {
      assert n[|n| - 4] == e.path[|n| - 4];
    }
  }

  lemma PadOfName(length: nat)
    ensures PadLen(CODED_FIXED + length + 1) == 3 - length % 4
  {
  }

  /** The size field that the reader finds there is zero exactly when the name's length is a multiple of four. */
  lemma EarlySize(e: Entry, data: seq<Byte>, next: nat)
    requires Encodable(e)
    requires var n := Name(CODED_FIXED, e); |n| >= 4 && Stands(data, next, n[|n| - 4..])
    ensures Get16(data, next) == 0 <==> |e.path| % 4 == 0
  {
    hide Name, Encodable, Stands;
    var n := Name(CODED_FIXED, e);
    LastFour(e);
    StandsAt(data, next, n[|n| - 4..]);
    StandsIn(data, next, n[|n| - 4..]);
    assert data[next + 0] == n[|n| - 4] && data[next + 1] == n[|n| - 3];
  }

  /** A record read there has, for its group, the mode of the second entry, which is never zero. */
  lemma EarlyRecord(e: Entry, offset: nat, data: seq<Byte>, next: nat, size: nat)
    requires Encodable(e) && offset < U32_MOD && |e.data| < U32_MOD
    requires Stands(data, next + 4, Dirent(CODED_FIXED, e, offset, |e.data|))
    ensures var r := ParseRecord(CODED_FIXED, 20, data, next, size); r.Some? ==> r.value.gid != 0
  {
    hide Trim, Bytes, Fields, Get16, Get32, U16, U32;
    StandsSplit(data, next + 4, Fields(CODED_FIXED, e, offset, |e.data|), Name(CODED_FIXED, e));
    FieldsBack(CODED_FIXED, e, offset, |e.data|, data, next + 4);
  }

  /**
   As written, dumping an image lists what was written exactly when the image has
   no entries, or one entry whose name length is a multiple of four.
   */
  lemma {:induction false} WrittenRoundTripIff(es: seq<Entry>, scriptIno: nat)
    requires AllEncodable(es) && TrailerAt(CODED_FIXED, es) < U32_MOD
    ensures var start := HdrDirSize(CODED_FIXED, es);
      Walk(CODED_FIXED, 20, Image(CODED_FIXED, es, scriptIno), HEADER_SIZE, start) == Listed(Expected(es, start, 0))
      <==> es == [] || (|es| == 1 && |es[0].path| % 4 == 0)
  {
    hide Image, Walk, Directory, Offset, Header, Data, U16, Expected;
    var start, img := HdrDirSize(CODED_FIXED, es), Image(CODED_FIXED, es, scriptIno);
    Parts(CODED_FIXED, es, scriptIno);
    DirectoryIsTail(CODED_FIXED, es, start, 0);
    NoDirectory(CODED_FIXED, es, start);
    if es == [] {
      EmptyWalk(es, start, img, HEADER_SIZE, start);
    } else {
      LandsEarly(es, start, img, HEADER_SIZE, start);
      NameLength(es[0]);
      var next := HEADER_SIZE + DeclaredSize(CODED_FIXED, es[0]);
      EarlySize(es[0], img, next);
      SecondStep(es, start, img, next, start);
    }
  }

  lemma EmptyWalk(es: seq<Entry>, start: nat, data: seq<Byte>, pos: nat, limit: nat)
    requires es == [] && Stands(data, pos, Tail(CODED_FIXED, es, start, 0)) && limit == pos + |Tail(CODED_FIXED, es, start, 0)|
    ensures Walk(CODED_FIXED, 20, data, pos, limit) == Listed(Expected(es, start, 0))
  {
    Back16(data, pos, 0);
  }

  /** What the second iteration finds, against what it should have found. */
  lemma SecondStep(es: seq<Entry>, start: nat, data: seq<Byte>, next: nat, limit: nat)
    requires es != [] && AllEncodable(es) && Offset(es, start, |es|) < U32_MOD
    requires next + 6 <= limit && next + 4 <= |data| && Stands(data, next + 4, Tail(CODED_FIXED, es, start, 1))
    ensures Get16(data, next) == 0 ==> Walk(CODED_FIXED, 20, data, next, limit) == Listed([])
    ensures Prepend([RecordOf(es[0], Offset(es, start, 0))], Walk(CODED_FIXED, 20, data, next, limit)) == Listed(Expected(es, start, 0))
      <==> Get16(data, next) == 0 && |es| == 1
  {
    hide Offset, ParseRecord, Get16, Dirent, Fields;
    var w := Walk(CODED_FIXED, 20, data, next, limit);
    var first := RecordOf(es[0], Offset(es, start, 0));
    assert Expected(es, start, 0) == [first] + Expected(es, start, 1);
    PrependCancels(first, w, Expected(es, start, 1));
    if |es| > 1 {
      var off := Offset(es, start, 1);
      assert Expected(es, start, 1)[0] == RecordOf(es[1], off);
      if Get16(data, next) != 0 {
        OffsetsOrdered(es, start, 1, |es|);
        StandsSplit(data, next + 4, Dirent(CODED_FIXED, es[1], off, |es[1].data|), Tail(CODED_FIXED, es, start, 2));
        EarlyRecord(es[1], off, data, next, Get16(data, next));
      }
    }
  }

  lemma PrependCancels(r: Record, l: Listing, rs: seq<Record>)
    ensures Prepend([r], l) == Listed([r] + rs) <==> l == Listed(rs)
  {
    if l.Listed? && [r] + l.records == [r] + rs {
      assert ([r] + l.records)[1..] == ([r] + rs)[1..];
    }
  }

  // ---- Checksum.

  /** The reader's checksum, over whole words only, always equals the stored one. */
  lemma {:induction false} ChecksumAgrees(fixed: nat, es: seq<Entry>, scriptIno: nat)
    requires fixed % 4 == 0
    ensures var img := Image(fixed, es, scriptIno);
      var trailer := TrailerAt(fixed, es);
      && trailer + 4 == |img|
      && Get32(img, trailer) == Negate(WordSum(img, trailer / 4))
  {
    hide Image, WordSum, Offset, Data, Header, Directory, U32, U16;
    var body, img, trailer := Body(fixed, es, scriptIno), Image(fixed, es, scriptIno), TrailerAt(fixed, es);
    ImageLength(fixed, es, scriptIno);
    ImageIs(fixed, es, scriptIno);
    assert img[trailer..trailer + 4] == U32(Checksum(body));
    Back32(img, trailer, Checksum(body));
    WordSumPrefix(body, U32(Checksum(body)), trailer / 4);
    DataAlignment(fixed, es, |es|);
    SumBelow(body, trailer / 4);
    if es == [] {
      BodyEndsInZeros(fixed, es, scriptIno);
    }
  }

  lemma ImageIs(fixed: nat, es: seq<Entry>, scriptIno: nat)
    ensures Image(fixed, es, scriptIno) == Body(fixed, es, scriptIno) + U32(Checksum(Body(fixed, es, scriptIno)))
  {
    hide Body, Checksum;
  }

  /** Without files the image ends in the directory's two zero bytes, which a partial word does not notice. */
  lemma BodyEndsInZeros(fixed: nat, es: seq<Entry>, scriptIno: nat)
    requires es == []
    ensures var b := Body(fixed, es, scriptIno); |b| == HEADER_SIZE + 2 && Get32(Trailing(b), 0) == 0
  {
    hide Header;
    var b := Body(fixed, es, scriptIno);
    HeaderLength(TrailerAt(fixed, es) + 4, HdrDirSize(fixed, es), HEADER_SIZE, scriptIno);
    assert b[HEADER_SIZE] == 0 && b[HEADER_SIZE + 1] == 0;
    assert Trailing(b) == [0, 0, 0, 0];
  }
}
