/** The append-only block log: framing, truncation at a fork point, and recovery after a crash in
    the middle of a write. */
module BlockLog {
  import opened Bytes
  import opened Seqs

  const MAX_RECORD := 0x400_0000

  /** How a block becomes a record and back. */
  datatype Records<!B> = Records(encode: B -> Bytes, decode: Bytes -> Option<B>)

  /** A length, then the record. */
  function Frame<B>(c: Records<B>, b: B): (f: Bytes)
    ensures |f| == 4 + |c.encode(b)|
  {
    BigEndian(|c.encode(b)|, 4) + c.encode(b)
  }

  /** Frames one after the other, and where each starts. */
  function Cat(frames: seq<Bytes>): (log: Bytes) {
    if frames == [] then [] else Cat(frames[..|frames| - 1]) + frames[|frames| - 1]
  }

  function Starts(frames: seq<Bytes>): (offsets: seq<nat>)
    ensures |offsets| == |frames|
  {
    if frames == [] then [] else Starts(frames[..|frames| - 1]) + [|Cat(frames[..|frames| - 1])|]
  }

  /** The record at the front, with the bytes it takes; none when it is torn or not one. */
  function Front<B>(c: Records<B>, rest: Bytes): (r: Option<(B, nat)>)
    ensures r.Some? ==> 4 < r.value.1 <= |rest|
  {
    if |rest| < 4 then None
    else
      var n := Value(rest[..4]);
      if n == 0 || n > MAX_RECORD || |rest| < 4 + n then None
      else
        var b := c.decode(rest[4..4 + n]);
        if b.None? then None else Some((b.value, 4 + n))
  }

  /** The blocks a file holds before the first torn or foreign bytes, and the bytes they take. */
  function Blocks<B>(c: Records<B>, file: Bytes): (blocks: seq<B>)
    decreases |file|
  {
    var r := Front(c, file);
    if r.None? then [] else [r.value.0] + Blocks(c, file[r.value.1..])
  }

  function Intact<B>(c: Records<B>, file: Bytes): (n: nat)
    ensures n <= |file|
    decreases |file|
  {
    var r := Front(c, file);
    if r.None? then 0 else r.value.1 + Intact(c, file[r.value.1..])
  }

  /** A frame that reads as one record, all of it. */
  ghost predicate IsRecord<B>(c: Records<B>, f: Bytes) {
    Front(c, f).Some? && Front(c, f).value.1 == |f|
  }

  ghost predicate AllRecords<B>(c: Records<B>, frames: seq<Bytes>) {
    forall f :: f in frames ==> IsRecord(c, f)
  }

  ghost function Decoded<B>(c: Records<B>, frames: seq<Bytes>): (blocks: seq<B>)
    requires AllRecords(c, frames)
    ensures |blocks| == |frames|
  {
    if frames == [] then []
    else
      assert frames[|frames| - 1] in frames;
      Decoded(c, frames[..|frames| - 1]) + [Front(c, frames[|frames| - 1]).value.0]
  }

  /** What follows a record does not change how it reads. */
  lemma FrontLocal<B>(c: Records<B>, f: Bytes, rest: Bytes)
    requires IsRecord(c, f)
    ensures Front(c, f + rest) == Front(c, f)
  {
    var n := Value(f[..4]);
    assert (f + rest)[..4] == f[..4];
    assert (f + rest)[4..4 + n] == f[4..4 + n];
  }

  lemma RecordFirst<B>(c: Records<B>, f: Bytes, rest: Bytes)
    requires IsRecord(c, f)
    ensures Blocks(c, f + rest) == [Front(c, f).value.0] + Blocks(c, rest) && Intact(c, f + rest) == |f| + Intact(c, rest)
  {
    FrontLocal(c, f, rest);
    DropHead(f, rest);
  }

  /** A log followed by anything reads as its blocks, and then as whatever the rest holds. */
  lemma {:induction false} LogReads<B>(c: Records<B>, frames: seq<Bytes>, tail: Bytes)
    requires AllRecords(c, frames)
    ensures Blocks(c, Cat(frames) + tail) == Decoded(c, frames) + Blocks(c, tail)
    ensures Intact(c, Cat(frames) + tail) == |Cat(frames)| + Intact(c, tail)
    decreases |frames|
  {
    if frames == [] {
      assert Cat(frames) + tail == tail;
    } else {
      var n := |frames| - 1;
      var f := frames[n];
      LogReads(c, frames[..n], f + tail);
      RecordFirst(c, f, tail);
      Regroup(Cat(frames[..n]), f, tail);
      Regroup(Decoded(c, frames[..n]), [Front(c, f).value.0], Blocks(c, tail));
    }
  }

  /** So recovery gives back the log's own blocks exactly when what follows it is no record. */
  lemma RecoversExactly<B>(c: Records<B>, frames: seq<Bytes>, tail: Bytes)
    requires AllRecords(c, frames)
    ensures Blocks(c, Cat(frames) + tail) == Decoded(c, frames) <==> Front(c, tail).None?
  {
    LogReads(c, frames, tail);
    if Front(c, tail).Some? {
      assert |Blocks(c, tail)| > 0;
    } else {
      assert Decoded(c, frames) + [] == Decoded(c, frames);
    }
  }

  /** A block's own frame reads as what its record decodes to. */
  lemma FrameReads<B>(c: Records<B>, b: B)
    requires 0 < |c.encode(b)| <= MAX_RECORD
    ensures var back := c.decode(c.encode(b));
            Front(c, Frame(c, b)) == if back.None? then None else Some((back.value, |Frame(c, b)|))
  {
    var n, f := |c.encode(b)|, Frame(c, b);
    assert Pow256(2) == 0x1_0000 && Pow256(3) == 256 * Pow256(2) && Pow256(4) == 256 * Pow256(3);
    ValueOfBigEndian(n, 4);
    assert f[..4] == BigEndian(n, 4);
    assert f[4..4 + n] == c.encode(b);
  }

  /** A frame cut short is never taken for a record. */
  lemma TornFrame<B>(c: Records<B>, b: B, k: nat)
    requires |c.encode(b)| <= MAX_RECORD && k < |Frame(c, b)|
    ensures Front(c, Frame(c, b)[..k]).None?
  {
    var n, torn := |c.encode(b)|, Frame(c, b)[..k];
    assert Pow256(2) == 0x1_0000 && Pow256(3) == 256 * Pow256(2) && Pow256(4) == 256 * Pow256(3);
    if k >= 4 {
      ValueOfBigEndian(n, 4);
      assert torn[..4] == BigEndian(n, 4);
    }
  }

  /** A crash anywhere inside an append loses that append and nothing else. */
  lemma TornAppend<B>(c: Records<B>, frames: seq<Bytes>, b: B, k: nat)
    requires AllRecords(c, frames) && |c.encode(b)| <= MAX_RECORD && k < |Frame(c, b)|
    ensures Blocks(c, Cat(frames) + Frame(c, b)[..k]) == Decoded(c, frames)
  {
    TornFrame(c, b, k);
    RecoversExactly(c, frames, Frame(c, b)[..k]);
  }

  /** After a completed append the log reads as before and then as what the record decodes to: the block
      itself when its record reads back, another block when it reads back as one, and when it does not
      read back at all the block and everything appended after it are lost. */
  lemma AppendReads<B>(c: Records<B>, frames: seq<Bytes>, b: B, rest: Bytes)
    requires AllRecords(c, frames) && 0 < |c.encode(b)| <= MAX_RECORD
    ensures var back := c.decode(c.encode(b));
            Blocks(c, Cat(frames) + (Frame(c, b) + rest)) ==
            Decoded(c, frames) + if back.None? then [] else [back.value] + Blocks(c, rest)
  {
    FrameReads(c, b);
    LogReads(c, frames, Frame(c, b) + rest);
    if c.decode(c.encode(b)).Some? {
      RecordFirst(c, Frame(c, b), rest);
    } else {
      UnreadableFirst(c, b, rest);
    }
  }

  lemma UnreadableFirst<B>(c: Records<B>, b: B, rest: Bytes)
    requires 0 < |c.encode(b)| <= MAX_RECORD && c.decode(c.encode(b)).None?
    ensures Front(c, Frame(c, b) + rest).None?
  {
    var n, file := |c.encode(b)|, Frame(c, b) + rest;
    assert Pow256(2) == 0x1_0000 && Pow256(3) == 256 * Pow256(2) && Pow256(4) == 256 * Pow256(3);
    ValueOfBigEndian(n, 4);
    assert file[..4] == BigEndian(n, 4);
    assert file[4..4 + n] == c.encode(b);
  }

  lemma {:induction false} StartsAt(frames: seq<Bytes>, i: nat)
    requires i < |frames|
    ensures Starts(frames)[i] == |Cat(frames[..i])| && Starts(frames)[..i] == Starts(frames[..i])
    ensures Cat(frames[..i]) <= Cat(frames)
    decreases |frames|
  {
    var n := |frames| - 1;
    if i < n {
      StartsAt(frames[..n], i);
      SliceOfSlice(frames, i, n);
    } else {
      assert Starts(frames)[..i] == Starts(frames[..n]);
    }
  }

  lemma CatSnoc(frames: seq<Bytes>, f: Bytes)
    ensures Cat(frames + [f]) == Cat(frames) + f && Starts(frames + [f]) == Starts(frames) + [|Cat(frames)|]
  {
    assert (frames + [f])[..|frames|] == frames;
  }

  /** What has been read so far, and what is still ahead. */
  ghost predicate Reading<B>(c: Records<B>, file: Bytes, off: nat, frames: seq<Bytes>, blocks: seq<B>) {
    && off <= |file| && AllRecords(c, frames) && Cat(frames) == file[..off] && Decoded(c, frames) == blocks
  }

  lemma ReadNext<B>(c: Records<B>, file: Bytes, off: nat, frames: seq<Bytes>, blocks: seq<B>, b: B, n: nat)
    requires Reading(c, file, off, frames, blocks) && Front(c, file[off..]) == Some((b, n))
    ensures off + n <= |file| && Reading(c, file, off + n, frames + [file[off..off + n]], blocks + [b])
  {
    var f := file[off..off + n];
    assert file[off..] == f + file[off + n..];
    FrontOf(c, f, file[off + n..], b);
    CatSnoc(frames, f);
    assert file[..off + n] == file[..off] + f;
    assert (frames + [f])[..|frames|] == frames;
  }

  lemma FrontOf<B>(c: Records<B>, f: Bytes, rest: Bytes, b: B)
    requires Front(c, f + rest) == Some((b, |f|))
    ensures Front(c, f) == Some((b, |f|))
  {
    var n := Value((f + rest)[..4]);
    assert (f + rest)[..4] == f[..4];
    assert (f + rest)[4..4 + n] == f[4..4 + n];
  }

  /** Reads every intact record of a file, with its offset. */
  method Recover<B>(c: Records<B>, file: Bytes) returns (blocks: seq<B>, offsets: seq<nat>, off: nat, ghost frames: seq<Bytes>)
    ensures blocks == Blocks(c, file) && off == Intact(c, file) <= |file|
    ensures Reading(c, file, off, frames, blocks) && offsets == Starts(frames)
  {
    blocks, offsets, off, frames := [], [], 0, [];
    while off < |file|
      invariant Reading(c, file, off, frames, blocks) && offsets == Starts(frames)
    {
      var r := Front(c, file[off..]);
      if r.None? {
        break;
      }
      ReadNext(c, file, off, frames, blocks, r.value.0, r.value.1);
      CatSnoc(frames, file[off..off + r.value.1]);
      frames := frames + [file[off..off + r.value.1]];
      blocks, offsets, off := blocks + [r.value.0], offsets + [off], off + r.value.1;
    }
    ReadEnds(c, file, off, frames, blocks);
  }

  lemma ReadEnds<B>(c: Records<B>, file: Bytes, off: nat, frames: seq<Bytes>, blocks: seq<B>)
    requires Reading(c, file, off, frames, blocks) && Front(c, file[off..]).None?
    ensures blocks == Blocks(c, file) && off == Intact(c, file)
  {
    assert file == Cat(frames) + file[off..];
    LogReads(c, frames, file[off..]);
    assert blocks + [] == blocks;
  }

  /** Bytes written over a file at some place, making it longer where they reach past its end. */
  function WriteAt(file: Bytes, at: nat, data: Bytes): (r: Bytes)
    requires at <= |file|
    ensures |r| >= at + |data| && r[..at] == file[..at] && r[at..at + |data|] == data
    ensures at == |file| ==> r == file + data
  {
    var rest := if at + |data| <= |file| then file[at + |data|..] else [];
    var r := file[..at] + data + rest;
    assert r[..at] == file[..at] && r[at..at + |data|] == data;
    assert at == |file| ==> file[..at] == file && rest == [];
    r
  }

  function Least(a: nat, b: nat): (c: nat) {
    if a < b then a else b
  }

  lemma WholeFrame(file: Bytes, size: nat, log: Bytes, frame: Bytes)
    requires |file| >= size + |frame| && file[..size] == log && file[size..size + |frame|] == frame[..|frame|]
    ensures file[..size + |frame|] == log + frame
  {
    assert file[..size + |frame|] == file[..size] + file[size..size + |frame|];
    assert frame[..|frame|] == frame;
  }

  class Store {
    var file: Bytes
    var offsets: seq<nat>
    var size: nat
    var poisoned: bool
    ghost var frames: seq<Bytes>

    /** The file starts with the log; bytes of a failed write may follow. */
    ghost predicate Valid()
      reads this
    {
      size == |Cat(frames)| <= |file| && file[..size] == Cat(frames) && offsets == Starts(frames)
    }

    constructor (bytes: Bytes, starts: seq<nat>, ghost fs: seq<Bytes>)
      requires bytes == Cat(fs) && starts == Starts(fs)
      ensures Valid() && file == bytes && frames == fs && size == |file| && !poisoned
    {
      file, offsets, size, poisoned, frames := bytes, starts, |bytes|, false, fs;
    }

    /** Writes one record at the end of the log.  `written` bytes of its frame reach the file; the
        write fails when that is not all of them. */
    method Append<B>(c: Records<B>, b: B, written: nat) returns (ok: bool)
      requires Valid()
      modifies this
      ensures Valid() && poisoned == old(poisoned)
      ensures ok <==> !old(poisoned) && written >= |Frame(c, b)|
      ensures frames == if ok then old(frames) + [Frame(c, b)] else old(frames)
      ensures !poisoned ==> file == WriteAt(old(file), old(size), Frame(c, b)[..Least(written, |Frame(c, b)|)])
      ensures old(size) == |old(file)| && ok ==> file == Cat(frames)
      ensures old(size) == |old(file)| && !ok && !poisoned ==> file == Cat(frames) + Frame(c, b)[..written]
      ensures poisoned ==> file == old(file)
    {
      if poisoned {
        return false;
      }
      var frame := Frame(c, b);
      var k := Least(written, |frame|);
      WholeSlice(file);
      file := WriteAt(file, size, frame[..k]);
      if k < |frame| {
        return false;
      }
      CatSnoc(frames, frame);
      WholeFrame(file, size, Cat(frames), frame);
      WholeSlice(file);
      offsets := offsets + [size];
      size := size + |frame|;
      frames := frames + [frame];
      return true;
    }

    /** Drops all blocks above a height. */
    method TruncateAfter(height: nat) returns (ok: bool)
      requires Valid()
      modifies this
      ensures Valid() && poisoned == old(poisoned) && ok == !poisoned
      ensures frames == if ok && height + 1 < |old(frames)| then old(frames)[..height + 1] else old(frames)
      ensures ok && height + 1 < |old(frames)| ==> file == Cat(frames)
    {
      if poisoned {
        return false;
      }
      var keep := height + 1;
      if keep >= |offsets| {
        return true;
      }
      StartsAt(frames, keep);
      var newSize := offsets[keep];
      assert Cat(frames)[..newSize] == Cat(frames[..keep]);
      assert file[..newSize] == file[..size][..newSize];
      file := file[..newSize];
      offsets, size, frames := offsets[..keep], newSize, frames[..keep];
      return true;
    }
  }

  /** Takes over a file: its intact records stay, torn trailing bytes are cut off; a file that holds
      bytes but no record is left alone. */
  method OpenStore<B>(c: Records<B>, bytes: Bytes) returns (s: Option<Store>, blocks: seq<B>)
    ensures s.None? <==> bytes != [] && Blocks(c, bytes) == []
    ensures blocks == Blocks(c, bytes)
    ensures s.Some? ==>
      && fresh(s.value) && s.value.Valid() && !s.value.poisoned && s.value.file == bytes[..Intact(c, bytes)]
      && AllRecords(c, s.value.frames) && Decoded(c, s.value.frames) == blocks && s.value.size == |s.value.file|
  {
    var found, starts, off, frames := Recover(c, bytes);
    blocks := found;
    if |bytes| > 0 && |found| == 0 {
      return None, blocks;
    }
    var store := new Store(bytes[..off], starts, frames);
    s := Some(store);
  }
}
