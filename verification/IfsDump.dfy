/**
 The dump tool as a whole on a built image: header, directory and checksum.
 */
module IfsDump {
  import opened Wrappers
  import opened IfsBytes
  import opened IfsImage
  import opened IfsReader
  import opened IfsRoundTrip

  /** The header fields that the tool keeps. */
  datatype Head = Head(imageSize: nat, hdrDirSize: nat, dirOffset: nat, scriptIno: nat, mountpoint: seq<Byte>)

  /** The bytes from pos up to the next zero, if there is one. */
  function CString(data: seq<Byte>, pos: nat): Option<seq<Byte>>
    requires pos <= |data|
    decreases |data| - pos
  {
    if pos == |data| then None
    else if data[pos] == 0 then Some([])
    else
      var rest := CString(data, pos + 1);
      if rest.None? then None else Some([data[pos]] + rest.value)
  }

  function ParseHead(data: seq<Byte>): Option<Head> {
    if |data| < 88 then None
    else
      var mp := CString(data, 88);
      if mp.None? then None else Some(Head(Get32(data, 8), Get32(data, 12), Get32(data, 16), Get32(data, 36), mp.value))
  }

  datatype Dump = Dump(head: Head, listing: Listing, sums: Option<(nat, nat)>)

  method ReadHead(r: Reader) returns (h: Option<Head>)
    requires r.pos == 0
    modifies r
    ensures h == ParseHead(r.data)
  {
    h := None;
    if |r.data| < 8 { return; }
    r.pos := 8;
    var imageSize := r.ReadU32();
    if imageSize.None? { return; }
    var hdrDirSize := r.ReadU32();
    if hdrDirSize.None? { return; }
    var dirOffset := r.ReadU32();
    if dirOffset.None? { return; }
    for k := 0 to 4
      invariant r.pos == 20 + 4 * k && |r.data| >= r.pos
    {
      var boot := r.ReadU32();
      if boot.None? { return; }
    }
    var scriptIno := r.ReadU32();
    if scriptIno.None? { return; }
    var chain := r.ReadU32();
    if chain.None? { return; }
    for k := 0 to 10
      invariant r.pos == 44 + 4 * k && |r.data| >= r.pos
    {
      var spare := r.ReadU32();
      if spare.None? { return; }
    }
    var flags := r.ReadU32();
    if flags.None? { return; }
    var mp := ReadCString(r);
    if mp.None? { return; }
    h := Some(Head(imageSize.value, hdrDirSize.value, dirOffset.value, scriptIno.value, mp.value));
  }

  method ReadCString(r: Reader) returns (s: Option<seq<Byte>>)
    requires r.pos <= |r.data|
    modifies r
    ensures s == CString(r.data, old(r.pos))
  {
    var bytes: seq<Byte> := [];
    ghost var all := CString(r.data, r.pos);
    assert all.Some? ==> [] + all.value == all.value;
    while true
      invariant r.pos <= |r.data|
      invariant var rest := CString(r.data, r.pos); all == if rest.None? then None else Some(bytes + rest.value)
      decreases |r.data| - r.pos
    {
      if r.pos == |r.data| { return None; }
      var b := r.data[r.pos];
      r.pos := r.pos + 1;
      if b == 0 {
        assert bytes + [] == bytes;
        return Some(bytes);
      }
      ghost var rest := CString(r.data, r.pos);
      if rest.Some? {
        assert bytes + ([b] + rest.value) == (bytes + [b]) + rest.value;
      }
      bytes := bytes + [b];
    }
  }

  /** Header, directory from its aligned offset, and both checksums. */
  method DumpImage(fixed: nat, dirFixed: nat, data: seq<Byte>) returns (d: Option<Dump>)
    ensures d.Some? <==> ParseHead(data).Some?
    ensures d.Some? ==>
      var h := ParseHead(data).value;
      && d.value.head == h
      && d.value.listing == Walk(fixed, dirFixed, data, Align4(h.dirOffset), h.hdrDirSize)
      && (d.value.sums.Some? <==> 4 <= h.imageSize <= |data|)
      && (d.value.sums.Some? ==>
          d.value.sums.value == (Get32(data, h.imageSize - 4), Negate(WordSum(data, (h.imageSize - 4) / 4))))
  {
    hide Walk, ParseHead, Get32, WordSum, Negate;
    var r := new Reader(data);
    var h := ReadHead(r);
    if h.None? { return None; }
    r.pos := h.value.dirOffset;
    r.pos := r.pos + PadLen(r.pos);
    var listing := r.WalkDirectory(fixed, dirFixed, h.value.hdrDirSize);
    var sums := r.Checksums(h.value.imageSize);
    d := Some(Dump(h.value, listing, sums));
  }

  // ---- What the tool reads back from a built header.

  lemma HeaderFieldsStand(imageSize: nat, hdrDirSize: nat, dirOffset: nat, scriptIno: nat, data: seq<Byte>)
    requires Stands(data, 0, Header(imageSize, hdrDirSize, dirOffset, scriptIno))
    ensures Stands(data, 8, U32(imageSize)) && Stands(data, 12, U32(hdrDirSize)) && Stands(data, 16, U32(dirOffset))
    ensures Stands(data, 36, U32(scriptIno)) && Stands(data, 88, MOUNTPOINT + [0])
  {
    hide Stands, U32, Fill, Sizes, Numbers;
    var a, b := Sizes(imageSize, hdrDirSize, dirOffset), Numbers(scriptIno);
    StandsSplit(data, 0, a + b + (MOUNTPOINT + [0]), Fill(PadLen(|MOUNTPOINT| + 1)));
    StandsSplit(data, 0, a + b, MOUNTPOINT + [0]);
    StandsSplit(data, 0, a, b);
    SizesStand(imageSize, hdrDirSize, dirOffset, data);
    NumbersStand(scriptIno, data);
  }

  lemma SizesStand(imageSize: nat, hdrDirSize: nat, dirOffset: nat, data: seq<Byte>)
    requires Stands(data, 0, Sizes(imageSize, hdrDirSize, dirOffset))
    ensures Stands(data, 8, U32(imageSize)) && Stands(data, 12, U32(hdrDirSize)) && Stands(data, 16, U32(dirOffset))
  {
    hide Stands, U32, Fill;
    var a := SIGNATURE + [READONLY];
    StandsSplit(data, 0, a + U32(imageSize) + U32(hdrDirSize) + U32(dirOffset), Fill(16));
    StandsSplit(data, 0, a + U32(imageSize) + U32(hdrDirSize), U32(dirOffset));
    StandsSplit(data, 0, a + U32(imageSize), U32(hdrDirSize));
    StandsSplit(data, 0, a, U32(imageSize));
  }

  lemma NumbersStand(scriptIno: nat, data: seq<Byte>)
    requires Stands(data, 36, Numbers(scriptIno))
    ensures Stands(data, 36, U32(scriptIno))
  {
    hide Stands, U32, Fill;
    StandsSplit(data, 36, U32(scriptIno) + Fill(4) + Fill(40), Fill(4));
    StandsSplit(data, 36, U32(scriptIno) + Fill(4), Fill(40));
    StandsSplit(data, 36, U32(scriptIno), Fill(4));
  }

  lemma {:induction false} CStringBack(data: seq<Byte>, pos: nat, s: seq<Byte>)
    requires Stands(data, pos, s + [0]) && forall i :: 0 <= i < |s| ==> s[i] != 0
    ensures CString(data, pos) == Some(s)
    decreases |s|
  {
    StandsAt(data, pos, s + [0]);
    if s == [] {
      assert data[pos + 0] == 0;
    } else {
      assert data[pos + 0] == s[0];
      assert s + [0] == [s[0]] + (s[1..] + [0]);
      StandsSplit(data, pos, [s[0]], s[1..] + [0]);
      CStringBack(data, pos + 1, s[1..]);
      assert s == [s[0]] + s[1..];
    }
  }

  /** The header of a built image reads back, and the directory is where it says. */
  lemma {:induction false} HeadBack(fixed: nat, es: seq<Entry>, scriptIno: nat)
    requires TrailerAt(fixed, es) + 4 < U32_MOD && scriptIno < U32_MOD
    ensures ParseHead(Image(fixed, es, scriptIno)) ==
      Some(Head(TrailerAt(fixed, es) + 4, HdrDirSize(fixed, es), HEADER_SIZE, scriptIno, MOUNTPOINT))
    ensures Align4(HEADER_SIZE) == HEADER_SIZE
  {
    hide Image, Header, Directory, Data, Offset, Stands, U32, Get32, CString, TrailerAt;
    var start, trailer, img := HdrDirSize(fixed, es), TrailerAt(fixed, es), Image(fixed, es, scriptIno);
    Parts(fixed, es, scriptIno);
    HeaderFieldsStand(trailer + 4, start, HEADER_SIZE, scriptIno, img);
    TrailerAfterStart(fixed, es);
    Back32(img, 8, trailer + 4);
    Back32(img, 12, start);
    Back32(img, 16, HEADER_SIZE);
    Back32(img, 36, scriptIno);
    CStringBack(img, 88, MOUNTPOINT);
    StandsIn(img, 88, MOUNTPOINT + [0]);
  }

  lemma TrailerAfterStart(fixed: nat, es: seq<Entry>)
    ensures HdrDirSize(fixed, es) <= TrailerAt(fixed, es)
  {
    hide Data;
    var _ := Data(es, HdrDirSize(fixed, es), |es|);
  }

  /** With 32 as the fixed part, the tool recovers header, every entry, and a matching checksum. */
  lemma {:induction false} DumpRecoversImage(dirFixed: nat, es: seq<Entry>, scriptIno: nat)
    requires AllEncodable(es) && TrailerAt(TRUE_FIXED, es) + 4 < U32_MOD && scriptIno < U32_MOD
    ensures var img, start := Image(TRUE_FIXED, es, scriptIno), HdrDirSize(TRUE_FIXED, es);
      && ParseHead(img) == Some(Head(|img|, start, HEADER_SIZE, scriptIno, MOUNTPOINT))
      && Walk(TRUE_FIXED, dirFixed, img, Align4(HEADER_SIZE), start) == Listed(Expected(es, start, 0))
      && |img| >= 4 && Get32(img, |img| - 4) == Negate(WordSum(img, (|img| - 4) / 4))
  {
    hide Image, Walk, ParseHead, WordSum, Get32, TrailerAt, Expected;
    HeadBack(TRUE_FIXED, es, scriptIno);
    ImageLength(TRUE_FIXED, es, scriptIno);
    CorrectedRoundTrip(dirFixed, es, scriptIno);
    ChecksumAgrees(TRUE_FIXED, es, scriptIno);
  }
}
