/**
 The dump tool: a reader with a stream position that parses the header, walks
 the directory and recomputes the checksum.
 */
module IfsReader {
  import opened Wrappers
  import opened IfsBytes
  import opened IfsImage

  datatype Record =
    | FileRecord(ino: nat, mode: nat, gid: nat, uid: nat, mtime: nat, offset: nat, size: nat, path: seq<Byte>)
    | DirRecord(ino: nat, mode: nat, gid: nat, uid: nat, mtime: nat, path: seq<Byte>)

  /** What the directory walk lists, or the exception that ends it. */
  datatype Listing = Listed(records: seq<Record>) | Crashed

  function Trim(path: seq<Byte>): seq<Byte> {
    if path != [] && path[|path| - 1] == 0 then Trim(path[..|path| - 1]) else path
  }

  /** A read of n bytes that stops short at the end of the stream. */
  function Bytes(data: seq<Byte>, at: nat, n: nat): seq<Byte>
    requires at <= |data|
  {
    if at + n <= |data| then data[at..at + n] else data[at..]
  }

  predicate IsDir(mode: nat) { mode / 4096 % 16 == 4 }

  /** One directory entry at pos, whose size field is `size`. */
  function ParseRecord(fixed: nat, dirFixed: nat, data: seq<Byte>, pos: nat, size: nat): Option<Record> {
    if pos + 24 > |data| then None
    else
      var ino, mode, gid, uid, mtime :=
        Get32(data, pos + 4), Get32(data, pos + 8), Get32(data, pos + 12), Get32(data, pos + 16), Get32(data, pos + 20);
      if IsDir(mode) then
        if size < dirFixed then None
        else Some(DirRecord(ino, mode, gid, uid, mtime, Trim(Bytes(data, pos + 24, size - dirFixed))))
      else if pos + 32 > |data| || size < fixed then None
      else
        Some(FileRecord(ino, mode, gid, uid, mtime, Get32(data, pos + 24), Get32(data, pos + 28),
                        Trim(Bytes(data, pos + 32, size - fixed))))
  }

  function Walk(fixed: nat, dirFixed: nat, data: seq<Byte>, pos: nat, limit: nat): Listing
    decreases limit - pos
  {
    if pos >= limit then Listed([])
    else if pos + 2 > |data| then Crashed
    else
      var size := Get16(data, pos);
      if size == 0 then Listed([])
      else
        var r := ParseRecord(fixed, dirFixed, data, pos, size);
        if r.None? then Crashed
        else
          var rest := Walk(fixed, dirFixed, data, pos + size, limit);
          if rest.Crashed? then Crashed else Listed([r.value] + rest.records)
  }

  class Reader {
    const data: seq<Byte>
    var pos: nat

    constructor (data: seq<Byte>)
      ensures this.data == data && pos == 0
    {
      this.data, pos := data, 0;
    }

    method ReadU16() returns (r: Option<nat>)
      modifies this
      ensures r == if old(pos) + 2 <= |data| then Some(Get16(data, old(pos))) else None
      ensures r.Some? ==> pos == old(pos) + 2
    {
      if pos + 2 > |data| { return None; }
      r := Some(Get16(data, pos));
      pos := pos + 2;
    }

    method ReadU32() returns (r: Option<nat>)
      modifies this
      ensures r == if old(pos) + 4 <= |data| then Some(Get32(data, old(pos))) else None
      ensures r.Some? ==> pos == old(pos) + 4
    {
      if pos + 4 > |data| { return None; }
      r := Some(Get32(data, pos));
      pos := pos + 4;
    }

    /** The fields of one entry after its size: none of the reads may run off the end. */
    method ReadRecord(fixed: nat, dirFixed: nat, size: nat) returns (r: Option<Record>)
      requires 2 <= pos <= |data|
      modifies this
      ensures r == ParseRecord(fixed, dirFixed, data, old(pos) - 2, size)
    {
      r := None;
      var extattr := ReadU16();
      if extattr.None? { return; }
      var ino := ReadU32();
      if ino.None? { return; }
      var mode := ReadU32();
      if mode.None? { return; }
      var gid := ReadU32();
      if gid.None? { return; }
      var uid := ReadU32();
      if uid.None? { return; }
      var mtime := ReadU32();
      if mtime.None? { return; }
      if IsDir(mode.value) {
        if size < dirFixed { return; }
        var path := Bytes(data, pos, size - dirFixed);
        r := Some(DirRecord(ino.value, mode.value, gid.value, uid.value, mtime.value, Trim(path)));
      } else {
        var offset := ReadU32();
        if offset.None? { return; }
        var length := ReadU32();
        if length.None? { return; }
        if size < fixed { return; }
        var path := Bytes(data, pos, size - fixed);
        r := Some(FileRecord(ino.value, mode.value, gid.value, uid.value, mtime.value, offset.value, length.value, Trim(path)));
      }
    }

    /** The directory walk, from the current position to the directory's end. */
    method WalkDirectory(fixed: nat, dirFixed: nat, hdrDirSize: nat) returns (l: Listing)
      modifies this
      ensures l == Walk(fixed, dirFixed, data, old(pos), hdrDirSize)
    {
      hide Walk, Prepend, ParseRecord, Get16;
      var reading, records := true, [];
      ghost var all := Walk(fixed, dirFixed, data, pos, hdrDirSize);
      PrependNone(all);
      while reading && pos < hdrDirSize
        invariant reading ==> all == Prepend(records, Walk(fixed, dirFixed, data, pos, hdrDirSize))
        invariant !reading ==> all == Listed(records)
        decreases reading, hdrDirSize - pos
      {
        WalkTurn(fixed, dirFixed, data, pos, hdrDirSize, records);
        var at := pos;
        var size := ReadU16();
        if size.None? { return Crashed; }
        if size.value == 0 {
          reading := false;
        } else {
          var r := ReadRecord(fixed, dirFixed, size.value);
          if r.None? { return Crashed; }
          records := records + [r.value];
          pos := at + size.value;
        }
      }
      if reading { WalkDone(fixed, dirFixed, data, pos, hdrDirSize, records); }
      l := Listed(records);
    }

    /** The trailer's checksum as stored, and as recomputed from the whole words before it. */
    method Checksums(imageSize: nat) returns (r: Option<(nat, nat)>)
      ensures r.Some? <==> 4 <= imageSize <= |data|
      ensures r.Some? ==> r.value == (Get32(data, imageSize - 4), Negate(WordSum(data, (imageSize - 4) / 4)))
    {
      if imageSize < 4 || imageSize > |data| { return None; }
      var trailer := imageSize - 4;
      var sum, i: nat := 0, 0;
      while i < trailer
        invariant i % 4 == 0
        invariant i < trailer + 4
        invariant sum == WordSum(data, if i <= trailer then i / 4 else trailer / 4)
        decreases trailer - i
      {
        if i + 4 <= trailer {
          sum := (sum + Get32(data, i)) % U32_MOD;
        }
        i := i + 4;
      }
      r := Some((Get32(data, trailer), Negate(sum)));
    }
  }

  function Prepend(records: seq<Record>, l: Listing): Listing {
    if l.Crashed? then Crashed else Listed(records + l.records)
  }

  lemma PrependNone(l: Listing)
    ensures Prepend([], l) == l
  {
    if l.Listed? { assert [] + l.records == l.records; }
  }

  lemma WalkDone(fixed: nat, dirFixed: nat, data: seq<Byte>, pos: nat, limit: nat, records: seq<Record>)
    requires pos >= limit
    ensures Prepend(records, Walk(fixed, dirFixed, data, pos, limit)) == Listed(records)
  {
    assert records + [] == records;
  }

  /** One turn of the walk, after some records. */
  lemma WalkTurn(fixed: nat, dirFixed: nat, data: seq<Byte>, pos: nat, limit: nat, records: seq<Record>)
    requires pos < limit
    ensures var before := Prepend(records, Walk(fixed, dirFixed, data, pos, limit));
      if pos + 2 > |data| then before == Crashed
      else if Get16(data, pos) == 0 then before == Listed(records)
      else
        var r := ParseRecord(fixed, dirFixed, data, pos, Get16(data, pos));
        if r.None? then before == Crashed
        else before == Prepend(records + [r.value], Walk(fixed, dirFixed, data, pos + Get16(data, pos), limit))
  {
    hide ParseRecord, Get16;
    if pos + 2 <= |data| {
      if Get16(data, pos) == 0 {
        assert records + [] == records;
      } else {
        var r, rest := ParseRecord(fixed, dirFixed, data, pos, Get16(data, pos)), Walk(fixed, dirFixed, data, pos + Get16(data, pos), limit);
        if r.Some? && rest.Listed? {
          assert records + ([r.value] + rest.records) == (records + [r.value]) + rest.records;
        }
      }
    }
  }
}
