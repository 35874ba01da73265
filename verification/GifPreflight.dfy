/**
 Counting the frames of a GIF without decoding it (internal/platform/processor/gif_preflight.go),
 against the block grammar of the GIF89a specification, sections 15 to 27.
 */
module GifPreflight {
  import opened Base

  datatype GifError = InvalidImage | TooManyPixels

  // ---------------------------------------------------------------- the grammar

  /** One palette entry. */
  datatype Colour = Colour(red: Byte, green: Byte, blue: Byte)

  /** Extensions carry a label byte, images a descriptor, an optional colour table and a code size. */
  datatype Block =
    | Padding
    | Extension(tag: Byte, chain: seq<Bytes>)
    | Image(descriptor: Bytes, colours: seq<Colour>, codeSize: Byte, chain: seq<Bytes>)

  datatype Gif = Gif(header: Bytes, colours: seq<Colour>, blocks: seq<Block>)

  /** Sections 18 and 20: bit 7 announces a table, bits 0 to 2 its size, a power of two. */
  predicate Announces(packed: Byte, colours: seq<Colour>) {
    if packed < 128 then colours == []
    else |colours| == [2, 4, 8, 16, 32, 64, 128, 256][packed as int % 8]
  }

  /** Section 17: thirteen bytes, beginning with the signature and one of two versions. */
  predicate ValidHeader(h: Bytes) {
    && |h| == 13
    && h[0] == 'G' as Byte && h[1] == 'I' as Byte && h[2] == 'F' as Byte && h[3] == '8' as Byte
    && (h[4] == '7' as Byte || h[4] == '9' as Byte) && h[5] == 'a' as Byte
  }

  predicate ValidChain(chain: seq<Bytes>) {
    forall i :: 0 <= i < |chain| ==> 0 < |chain[i]| < 256
  }

  predicate ValidBlock(b: Block) {
    match b
    case Padding => true
    case Extension(_, chain) => ValidChain(chain)
    case Image(d, colours, _, chain) => |d| == 9 && Announces(d[8], colours) && ValidChain(chain)
  }

  predicate ValidBlocks(blocks: seq<Block>) {
    forall i :: 0 <= i < |blocks| ==> ValidBlock(blocks[i])
  }

  predicate Valid(g: Gif) {
    ValidHeader(g.header) && Announces(g.header[10], g.colours) && ValidBlocks(g.blocks)
  }

  function PrintColours(colours: seq<Colour>): (r: Bytes)
    ensures |r| == 3 * |colours|
  {
    if colours == [] then [] else [colours[0].red, colours[0].green, colours[0].blue] + PrintColours(colours[1..])
  }

  // Printing puts the bytes of a part in front of the rest of the file.

  function PrintChain(chain: seq<Bytes>, rest: Bytes): Bytes
    requires ValidChain(chain)
  {
    if chain == [] then [0] + rest else [|chain[0]| as Byte] + chain[0] + PrintChain(chain[1..], rest)
  }

  /** Extensions begin with '!', images with ','. */
  function PrintBlock(b: Block, rest: Bytes): Bytes
    requires ValidBlock(b)
  {
    match b
    case Padding => [0] + rest
    case Extension(tag, chain) => ['!' as Byte, tag] + PrintChain(chain, rest)
    case Image(d, colours, codeSize, chain) => [',' as Byte] + d + PrintColours(colours) + [codeSize] + PrintChain(chain, rest)
  }

  function PrintBlocks(blocks: seq<Block>, rest: Bytes): Bytes
    requires ValidBlocks(blocks)
  {
    if blocks == [] then rest else PrintBlock(blocks[0], PrintBlocks(blocks[1..], rest))
  }

  /** A GIF file, ended by ';', with whatever trails it. */
  function Print(g: Gif, trailing: Bytes): Bytes
    requires Valid(g)
  {
    g.header + PrintColours(g.colours) + PrintBlocks(g.blocks, [';' as Byte] + trailing)
  }

  function Images(blocks: seq<Block>): nat {
    if blocks == [] then 0 else (if blocks[0].Image? then 1 else 0) + Images(blocks[1..])
  }

  // ---------------------------------------------------------------- what the preflight computes

  const EXTENSION: Byte := 0x21
  const IMAGE: Byte := 0x2c
  const TRAILER: Byte := 0x3b

  function Gif87a(): Bytes { [0x47, 0x49, 0x46, 0x38, 0x37, 0x61] }

  function Gif89a(): Bytes { [0x47, 0x49, 0x46, 0x38, 0x39, 0x61] }

  function Pow2(n: nat): nat { if n == 0 then 1 else 2 * Pow2(n - 1) }

  /** The bytes of the colour table that a packed field announces. */
  function TableSize(packed: Byte): nat {
    if packed < 0x80 then 0 else 3 * Pow2(packed as int % 8 + 1)
  }

  predicate Signed(header: Bytes)
    requires |header| >= 6
  {
    header[..6] == Gif87a() || header[..6] == Gif89a()
  }

  /** What follows a chain of sub-blocks, if the chain is complete. */
  function SkipChain(s: Bytes): (r: Option<Bytes>)
    ensures r.Some? ==> |r.value| < |s|
    decreases |s|
  {
    if s == [] then None
    else if s[0] == 0 then Some(s[1..])
    else if |s| < 1 + s[0] as int then None
    else SkipChain(s[1 + s[0] as int..])
  }

  predicate OverLimit(frames: nat, max: int) { max > 0 && frames > max }

  function Scan(s: Bytes, frames: nat, max: int): Result<nat, GifError>
    decreases |s|
  {
    if s == [] then Err(InvalidImage)
    else if s[0] == 0 then Scan(s[1..], frames, max)
    else if s[0] == EXTENSION then
      if |s| < 2 || SkipChain(s[2..]).None? then Err(InvalidImage)
      else Scan(SkipChain(s[2..]).value, frames, max)
    else if s[0] == IMAGE then
      if |s| < 10 then Err(InvalidImage)
      else if OverLimit(frames + 1, max) then Err(TooManyPixels)
      else
        var body := 11 + TableSize(s[9]);
        if |s| < body || SkipChain(s[body..]).None? then Err(InvalidImage)
        else Scan(SkipChain(s[body..]).value, frames + 1, max)
    else if s[0] == TRAILER && frames > 0 then Ok(frames)
    else Err(InvalidImage)
  }

  function Preflight(s: Bytes, max: int): Result<nat, GifError> {
    if |s| < 13 || !Signed(s) then Err(InvalidImage)
    else if |s| < 13 + TableSize(s[10]) then Err(InvalidImage)
    else Scan(s[13 + TableSize(s[10])..], 0, max)
  }

  // ---------------------------------------------------------------- the reader and its loops

  class Reader {
    const data: Bytes
    var pos: nat

    predicate Valid()
      reads this
    {
      pos <= |data|
    }

    function Rest(): Bytes
      requires Valid()
      reads this
    {
      data[pos..]
    }

    constructor (bytes: Bytes)
      ensures Valid() && Rest() == bytes
    {
      data, pos := bytes, 0;
    }

    method ReadByte() returns (b: Option<Byte>)
      requires Valid()
      modifies this
      ensures Valid()
      ensures if old(Rest()) == [] then b.None? else b == Some(old(Rest())[0]) && Rest() == old(Rest())[1..]
    {
      if pos == |data| { return None; }
      b := Some(data[pos]);
      pos := pos + 1;
    }

    /** At the end of the input a short read consumes what there is. */
    method ReadFull(count: nat) returns (bytes: Option<Bytes>)
      requires Valid()
      modifies this
      ensures Valid()
      ensures if |old(Rest())| < count then bytes.None?
              else bytes == Some(old(Rest())[..count]) && Rest() == old(Rest())[count..]
    {
      if |data| - pos < count {
        pos := |data|;
        return None;
      }
      assert data[pos..][..count] == data[pos..pos + count] && data[pos..][count..] == data[pos + count..];
      bytes := Some(data[pos..pos + count]);
      pos := pos + count;
    }

    method SkipSubBlocks() returns (ok: bool)
      requires Valid()
      modifies this
      ensures Valid()
      ensures ok <==> SkipChain(old(Rest())).Some?
      ensures ok ==> Rest() == SkipChain(old(Rest())).value
    {
      while true
        invariant Valid()
        invariant SkipChain(old(Rest())) == SkipChain(Rest())
        decreases |data| - pos
      {
        ghost var was := Rest();
        var size := ReadByte();
        if size.None? { return false; }
        if size.value == 0 { return true; }
        var skipped := ReadFull(size.value as int);
        if skipped.None? { return false; }
        assert Rest() == was[1 + size.value as int..];
      }
    }
  }

  method PreflightFrames(reader: Reader, max: int) returns (r: Result<nat, GifError>)
    requires reader.Valid()
    modifies reader
    ensures r == Preflight(old(reader.Rest()), max)
  {
    ghost var all := reader.Rest();
    var header := reader.ReadFull(13);
    if header.None? || (header.value[..6] != Gif87a() && header.value[..6] != Gif89a()) { return Err(InvalidImage); }
    if header.value[10] >= 0x80 {
      var table := reader.ReadFull(TableSize(header.value[10]));
      if table.None? { return Err(InvalidImage); }
    }
    assert reader.Rest() == all[13 + TableSize(all[10])..];
    r := ScanBlocks(reader, max);
  }

  method ScanBlocks(reader: Reader, max: int) returns (r: Result<nat, GifError>)
    requires reader.Valid()
    modifies reader
    ensures r == Scan(old(reader.Rest()), 0, max)
  {
    var frames := 0;
    while true
      invariant reader.Valid()
      invariant Scan(old(reader.Rest()), 0, max) == Scan(reader.Rest(), frames, max)
      decreases |reader.Rest()|
    {
      ghost var s := reader.Rest();
      var marker := reader.ReadByte();
      if marker.None? { return Err(InvalidImage); }
      if marker.value == 0 {
        continue;
      } else if marker.value == EXTENSION {
        var ok := SkipExtension(reader, s, frames, max);
        if !ok { return Err(InvalidImage); }
      } else if marker.value == IMAGE {
        var failure := SkipFrame(reader, s, frames, max);
        if failure.Some? { return Err(failure.value); }
        frames := frames + 1;
      } else if marker.value == TRAILER {
        return if frames == 0 then Err(InvalidImage) else Ok(frames);
      } else {
        return Err(InvalidImage);
      }
    }
  }

  /** Behind the marker of an extension: a label, then sub-blocks. */
  method SkipExtension(reader: Reader, ghost s: Bytes, ghost frames: nat, ghost max: int) returns (ok: bool)
    requires reader.Valid() && s != [] && s[0] == EXTENSION && reader.Rest() == s[1..]
    modifies reader
    ensures reader.Valid()
    ensures if ok then |reader.Rest()| < |s| && Scan(s, frames, max) == Scan(reader.Rest(), frames, max)
            else Scan(s, frames, max) == Err(InvalidImage)
  {
    var tag := reader.ReadByte();
    if tag.None? { return false; }
    assert reader.Rest() == s[2..];
    ok := reader.SkipSubBlocks();
  }

  lemma DropTwice(s: Bytes, i: nat, j: nat)
    requires i <= |s|
    ensures i + j <= |s| ==> s[i..][j..] == s[i + j..]
  {
  }

  /** What one turn of the scan does at an image within the limit. */
  lemma FrameTurn(s: Bytes, body: nat, frames: nat, max: int)
    requires |s| >= 10 && s[0] == IMAGE && body == 11 + TableSize(s[9]) && !OverLimit(frames + 1, max)
    ensures Scan(s, frames, max) ==
            if |s| < body || SkipChain(s[body..]).None? then Err(InvalidImage) else Scan(SkipChain(s[body..]).value, frames + 1, max)
  {
  }

  /** Behind the marker of an image: its descriptor, which may be one too many, and its body. */
  method SkipFrame(reader: Reader, ghost s: Bytes, frames: nat, max: int) returns (failure: Option<GifError>)
    requires reader.Valid() && s != [] && s[0] == IMAGE && reader.Rest() == s[1..]
    modifies reader
    ensures reader.Valid()
    ensures if failure.None? then |reader.Rest()| < |s| && Scan(s, frames, max) == Scan(reader.Rest(), frames + 1, max)
            else Scan(s, frames, max) == Err(failure.value)
  {
    var descriptor := reader.ReadFull(9);
    if descriptor.None? { return Some(InvalidImage); }
    assert reader.Rest() == s[10..] && descriptor.value[8] == s[9];
    if max > 0 && frames + 1 > max { return Some(TooManyPixels); }
    var ok := SkipImage(reader, descriptor.value[8]);
    DropTwice(s, 10, TableSize(s[9]) + 1);
    FrameTurn(s, 11 + TableSize(s[9]), frames, max);
    failure := if ok then None else Some(InvalidImage);
  }

  /** The colour table, the code size and the data of an image. */
  method SkipImage(reader: Reader, packed: Byte) returns (ok: bool)
    requires reader.Valid()
    modifies reader
    ensures reader.Valid()
    ensures var s := old(reader.Rest());
      var table := TableSize(packed);
      if |s| < table + 1 then !ok
      else (ok <==> SkipChain(s[table + 1..]).Some?) && (ok ==> reader.Rest() == SkipChain(s[table + 1..]).value)
  {
    ghost var s := reader.Rest();
    if packed >= 0x80 {
      var table := reader.ReadFull(TableSize(packed));
      if table.None? { return false; }
    }
    assert reader.Rest() == s[TableSize(packed)..];
    var codeSize := reader.ReadByte();
    if codeSize.None? { return false; }
    assert reader.Rest() == s[TableSize(packed) + 1..];
    ok := reader.SkipSubBlocks();
  }

  // ---------------------------------------------------------------- every printed GIF is accepted

  /** The announced table has the size the preflight skips. */
  lemma TableFits(packed: Byte, colours: seq<Colour>)
    requires Announces(packed, colours)
    ensures |PrintColours(colours)| == TableSize(packed)
  {
    TwoPowers();
  }

  lemma TwoPowers()
    ensures Pow2(1) == 2 && Pow2(2) == 4 && Pow2(3) == 8 && Pow2(4) == 16
    ensures Pow2(5) == 32 && Pow2(6) == 64 && Pow2(7) == 128 && Pow2(8) == 256
  {
    assert Pow2(4) == 16 && Pow2(8) == 16 * Pow2(4);
  }

  lemma SignedHeaders(s: Bytes)
    requires |s| >= 13
    ensures Signed(s) <==> ValidHeader(s[..13])
  {
    assert forall i :: 0 <= i < 6 ==> s[..6][i] == s[i];
  }

  lemma {:induction false} ChainIsSkipped(chain: seq<Bytes>, rest: Bytes)
    requires ValidChain(chain)
    ensures SkipChain(PrintChain(chain, rest)) == Some(rest)
  {
    var s := PrintChain(chain, rest);
    if chain == [] {
      assert s[1..] == rest;
    } else {
      ChainIsSkipped(chain[1..], rest);
      assert s[1 + |chain[0]|..] == PrintChain(chain[1..], rest);
    }
  }

  lemma ImageParts(d: Bytes, table: Bytes, codeSize: Byte, data: Bytes)
    requires |d| == 9
    ensures var s := [IMAGE] + d + table + [codeSize] + data;
      s[0] == IMAGE && |s| >= 11 + |table| && s[9] == d[8] && s[11 + |table|..] == data
  {
  }

  lemma ExtensionParts(tag: Byte, data: Bytes)
    ensures var s := [EXTENSION, tag] + data; s[0] == EXTENSION && |s| >= 2 && s[2..] == data
  {
  }

  /** What one turn of the scan does with a complete extension or image at the head of `s`. */
  lemma ScanTurn(s: Bytes, body: nat, rest: Bytes, frames: nat, max: int)
    requires body <= |s| && SkipChain(s[body..]) == Some(rest)
    ensures body == 2 && s[0] == EXTENSION ==> Scan(s, frames, max) == Scan(rest, frames, max)
    ensures |s| >= 10 && body == 11 + TableSize(s[9]) && s[0] == IMAGE && !OverLimit(frames + 1, max) ==>
      Scan(s, frames, max) == Scan(rest, frames + 1, max)
  {
  }

  lemma ExtensionIsScanned(b: Block, rest: Bytes, frames: nat, max: int)
    requires ValidBlock(b) && b.Extension?
    ensures Scan(PrintBlock(b, rest), frames, max) == Scan(rest, frames, max)
  {
    ExtensionParts(b.tag, PrintChain(b.chain, rest));
    ChainIsSkipped(b.chain, rest);
    ScanTurn(PrintBlock(b, rest), 2, rest, frames, max);
  }

  lemma ImageIsScanned(b: Block, rest: Bytes, frames: nat, max: int)
    requires ValidBlock(b) && b.Image? && !OverLimit(frames + 1, max)
    ensures Scan(PrintBlock(b, rest), frames, max) == Scan(rest, frames + 1, max)
  {
    var table := PrintColours(b.colours);
    TableFits(b.descriptor[8], b.colours);
    ImageParts(b.descriptor, table, b.codeSize, PrintChain(b.chain, rest));
    ChainIsSkipped(b.chain, rest);
    ScanTurn(PrintBlock(b, rest), 11 + |table|, rest, frames, max);
  }

  function Step(b: Block): nat { if b.Image? then 1 else 0 }

  /** One block of a printed GIF moves the scan past it. */
  lemma BlockIsScanned(b: Block, rest: Bytes, frames: nat, max: int)
    requires ValidBlock(b) && (b.Image? ==> !OverLimit(frames + 1, max))
    ensures Scan(PrintBlock(b, rest), frames, max) == Scan(rest, frames + Step(b), max)
  {
    match b
    case Padding => assert ([0] + rest)[1..] == rest;
    case Extension(_, _) => ExtensionIsScanned(b, rest, frames, max);
    case Image(_, _, _, _) => ImageIsScanned(b, rest, frames, max);
  }

  /** The descriptor of an image beyond the limit ends the scan. */
  lemma OneTooMany(b: Block, rest: Bytes, frames: nat, max: int)
    requires ValidBlock(b) && b.Image? && OverLimit(frames + 1, max)
    ensures Scan(PrintBlock(b, rest), frames, max) == Err(TooManyPixels)
  {
    ImageParts(b.descriptor, PrintColours(b.colours), b.codeSize, PrintChain(b.chain, rest));
  }

  /** What a scan of `frames` and `more` further images comes to, before what follows them. */
  function Onward(rest: Bytes, frames: nat, more: nat, max: int): Result<nat, GifError> {
    if OverLimit(frames + more, max) then Err(TooManyPixels) else Scan(rest, frames + more, max)
  }

  /** A whole turn: past the block, or refused at its descriptor. */
  lemma BlockTurn(b: Block, tail: Bytes, rest: Bytes, frames: nat, more: nat, max: int)
    requires ValidBlock(b) && !OverLimit(frames, max)
    requires !OverLimit(frames + Step(b), max) ==> Scan(tail, frames + Step(b), max) == Onward(rest, frames + Step(b), more, max)
    ensures Scan(PrintBlock(b, tail), frames, max) == Onward(rest, frames, Step(b) + more, max)
  {
    if OverLimit(frames + Step(b), max) { OneTooMany(b, tail, frames, max); } else { BlockIsScanned(b, tail, frames, max); }
  }

  /** Scanning printed blocks counts their images until there are more than `max`. */
  lemma {:induction false} BlocksAreScanned(blocks: seq<Block>, rest: Bytes, frames: nat, max: int)
    requires ValidBlocks(blocks) && !OverLimit(frames, max)
    ensures Scan(PrintBlocks(blocks, rest), frames, max) == Onward(rest, frames, Images(blocks), max)
    decreases |blocks|, 1
  {
    if blocks != [] { BlocksTurn(blocks, rest, frames, max); }
  }

  /** The inductive step. */
  lemma BlocksTurn(blocks: seq<Block>, rest: Bytes, frames: nat, max: int)
    requires blocks != [] && ValidBlocks(blocks) && !OverLimit(frames, max)
    ensures Scan(PrintBlock(blocks[0], PrintBlocks(blocks[1..], rest)), frames, max) ==
            Onward(rest, frames, Step(blocks[0]) + Images(blocks[1..]), max)
    decreases |blocks|, 0
  {
    var b, more := blocks[0], blocks[1..];
    if !OverLimit(frames + Step(b), max) { BlocksAreScanned(more, rest, frames + Step(b), max); }
    BlockTurn(b, PrintBlocks(more, rest), rest, frames, Images(more), max);
  }

  lemma HeaderParts(header: Bytes, table: Bytes, rest: Bytes)
    requires |header| == 13
    ensures var s := header + table + rest;
      |s| >= 13 + |table| && s[..13] == header && s[10] == header[10] && s[13 + |table|..] == rest
  {
  }

  lemma HeaderIsRead(header: Bytes, table: Bytes, rest: Bytes, max: int)
    requires ValidHeader(header) && |table| == TableSize(header[10])
    ensures Preflight(header + table + rest, max) == Scan(rest, 0, max)
  {
    HeaderParts(header, table, rest);
    SignedHeaders(header + table + rest);
  }

  lemma TrailerIsScanned(trailing: Bytes, frames: nat, max: int)
    ensures Scan([TRAILER] + trailing, frames, max) == if frames == 0 then Err(InvalidImage) else Ok(frames)
  {
  }

  lemma ThreeParts(s: Bytes, i: nat, j: nat)
    requires i <= j <= |s|
    ensures s == s[..i] + s[i..j] + s[j..]
  {
  }

  /** Printing a GIF and whatever trails it parses back to its number of images. */
  lemma PrintedGifIsCounted(g: Gif, trailing: Bytes, max: int)
    requires Valid(g)
    ensures Preflight(Print(g, trailing), max) ==
            if OverLimit(Images(g.blocks), max) then Err(TooManyPixels)
            else if Images(g.blocks) == 0 then Err(InvalidImage)
            else Ok(Images(g.blocks))
  {
    TableFits(g.header[10], g.colours);
    HeaderIsRead(g.header, PrintColours(g.colours), PrintBlocks(g.blocks, [TRAILER] + trailing), max);
    BlocksAreScanned(g.blocks, [TRAILER] + trailing, 0, max);
    TrailerIsScanned(trailing, Images(g.blocks), max);
  }

  // ---------------------------------------------------------------- whatever is accepted is a GIF

  lemma {:induction false} ChainOf(s: Bytes) returns (chain: seq<Bytes>)
    requires SkipChain(s).Some?
    ensures ValidChain(chain) && s == PrintChain(chain, SkipChain(s).value)
    decreases |s|
  {
    if s[0] == 0 {
      chain := [];
    } else {
      var n := s[0] as int;
      var more := ChainOf(s[1 + n..]);
      chain := [s[1..1 + n]] + more;
      assert chain[1..] == more;
      assert s == [s[0]] + s[1..1 + n] + s[1 + n..];
    }
  }

  /** Any bytes of the announced size are a colour table. */
  lemma {:induction false} ColoursOf(s: Bytes) returns (colours: seq<Colour>)
    requires |s| % 3 == 0
    ensures PrintColours(colours) == s
    decreases |s|
  {
    if s == [] {
      colours := [];
    } else {
      var more := ColoursOf(s[3..]);
      colours := [Colour(s[0], s[1], s[2])] + more;
      assert colours[1..] == more && s == [s[0], s[1], s[2]] + s[3..];
    }
  }

  lemma TableOf(packed: Byte, s: Bytes) returns (colours: seq<Colour>)
    requires |s| == TableSize(packed)
    ensures Announces(packed, colours) && PrintColours(colours) == s
  {
    TwoPowers();
    colours := ColoursOf(s);
  }

  lemma ExtensionSplit(s: Bytes)
    requires |s| >= 2 && s[0] == EXTENSION
    ensures s == [EXTENSION, s[1]] + s[2..]
  {
  }

  lemma ImageSplit(s: Bytes, t: nat)
    requires |s| >= 11 + t && s[0] == IMAGE
    ensures s == [IMAGE] + s[1..10] + s[10..10 + t] + [s[10 + t]] + s[11 + t..]
  {
  }

  lemma ExtensionOf(s: Bytes) returns (b: Block, rest: Bytes)
    requires |s| >= 2 && s[0] == EXTENSION && SkipChain(s[2..]).Some?
    ensures ValidBlock(b) && b.Extension? && s == PrintBlock(b, rest) && SkipChain(s[2..]) == Some(rest)
  {
    var chain := ChainOf(s[2..]);
    b, rest := Extension(s[1], chain), SkipChain(s[2..]).value;
    ExtensionSplit(s);
  }

  lemma ImageOf(s: Bytes, body: nat) returns (b: Block, rest: Bytes)
    requires |s| >= body && body >= 11 && s[0] == IMAGE && body == 11 + TableSize(s[9]) && SkipChain(s[body..]).Some?
    ensures ValidBlock(b) && b.Image? && s == PrintBlock(b, rest) && SkipChain(s[body..]) == Some(rest)
  {
    var t := TableSize(s[9]);
    var chain := ChainOf(s[body..]);
    var colours := TableOf(s[9], s[10..10 + t]);
    b, rest := Image(s[1..10], colours, s[10 + t], chain), SkipChain(s[body..]).value;
    ImageSplit(s, t);
  }

  /** The block at the head of the input, when the scan gets past it. */
  lemma BlockOf(s: Bytes, frames: nat, max: int) returns (b: Block, rest: Bytes)
    requires s != [] && (s[0] == 0 || s[0] == EXTENSION || s[0] == IMAGE)
    requires Scan(s, frames, max) != Err(InvalidImage)
    requires s[0] == IMAGE ==> !OverLimit(frames + 1, max)
    ensures ValidBlock(b) && (b.Image? <==> s[0] == IMAGE)
    ensures s == PrintBlock(b, rest) && |rest| < |s|
    ensures Scan(s, frames, max) == Scan(rest, frames + Step(b), max)
  {
    if s[0] == 0 {
      b, rest := Padding, s[1..];
      assert s == [0] + rest;
    } else if s[0] == EXTENSION {
      b, rest := ExtensionOf(s);
      ScanTurn(s, 2, rest, frames, max);
    } else {
      b, rest := ImageOf(s, 11 + TableSize(s[9]));
      ScanTurn(s, 11 + TableSize(s[9]), rest, frames, max);
    }
  }

  /** Where the scan stops: at the trailer, or at the descriptor of one image too many. */
  predicate StopsAt(rest: Bytes, frames: nat, max: int, r: Result<nat, GifError>) {
    match r
    case Ok(n) => rest != [] && rest[0] == TRAILER && n == frames > 0 && !OverLimit(frames, max)
    case Err(e) => e.TooManyPixels? && |rest| >= 10 && rest[0] == IMAGE && frames == max
  }

  lemma {:induction false} BlocksOf(s: Bytes, frames: nat, max: int) returns (blocks: seq<Block>, rest: Bytes)
    requires Scan(s, frames, max) != Err(InvalidImage) && !OverLimit(frames, max)
    ensures ValidBlocks(blocks) && s == PrintBlocks(blocks, rest)
    ensures StopsAt(rest, frames + Images(blocks), max, Scan(s, frames, max))
    decreases |s|
  {
    if s[0] == TRAILER || (s[0] == IMAGE && OverLimit(frames + 1, max)) {
      blocks, rest := [], s;
    } else {
      var b, tail := BlockOf(s, frames, max);
      var more, end := BlocksOf(tail, frames + Step(b), max);
      BlockInFront(b, more, end);
      blocks, rest := [b] + more, end;
    }
  }

  lemma BlockInFront(b: Block, more: seq<Block>, end: Bytes)
    requires ValidBlock(b) && ValidBlocks(more)
    ensures ValidBlocks([b] + more) && Images([b] + more) == Step(b) + Images(more)
    ensures PrintBlock(b, PrintBlocks(more, end)) == PrintBlocks([b] + more, end)
  {
    assert ([b] + more)[1..] == more;
  }

  /** Every accepted input is a printed GIF with that many images, followed by anything. */
  lemma AcceptedInputIsGif(s: Bytes, max: int) returns (g: Gif, trailing: Bytes)
    requires Preflight(s, max).Ok?
    ensures Valid(g) && s == Print(g, trailing)
    ensures Preflight(s, max).value == Images(g.blocks) > 0 && !OverLimit(Images(g.blocks), max)
  {
    var start := 13 + TableSize(s[10]);
    var blocks, rest := BlocksOf(s[start..], 0, max);
    SignedHeaders(s);
    var colours := TableOf(s[10], s[13..start]);
    g, trailing := Gif(s[..13], colours, blocks), rest[1..];
    assert rest == [TRAILER] + trailing;
    ThreeParts(s, 13, start);
  }

  /** A header, tables and exactly `max` images, and the descriptor of one more. */
  predicate TooManyParts(s: Bytes, header: Bytes, colours: seq<Colour>, blocks: seq<Block>, rest: Bytes, max: int) {
    && ValidHeader(header) && Announces(header[10], colours) && ValidBlocks(blocks)
    && Images(blocks) == max > 0 && |rest| >= 10 && rest[0] == ',' as Byte
    && s == header + PrintColours(colours) + PrintBlocks(blocks, rest)
  }

  ghost predicate BeginsTooMany(s: Bytes, max: int) {
    exists header: Bytes, colours: seq<Colour>, blocks: seq<Block>, rest: Bytes ::
      TooManyParts(s, header, colours, blocks, rest, max)
  }

  lemma TooManyBegins(s: Bytes, max: int)
    requires Preflight(s, max) == Err(TooManyPixels)
    ensures BeginsTooMany(s, max)
  {
    var start := 13 + TableSize(s[10]);
    TooManyIsFirst(s[start..], 0, max);
    var blocks, rest := BlocksOf(s[start..], 0, max);
    ThreeParts(s, 13, start);
    SignedHeaders(s);
    var colours := TableOf(s[10], s[13..start]);
    assert TooManyParts(s, s[..13], colours, blocks, rest, max);
  }

  lemma BeginningTooMany(s: Bytes, header: Bytes, colours: seq<Colour>, blocks: seq<Block>, rest: Bytes, max: int)
    requires TooManyParts(s, header, colours, blocks, rest, max)
    ensures Preflight(s, max) == Err(TooManyPixels)
  {
    TableFits(header[10], colours);
    HeaderIsRead(header, PrintColours(colours), PrintBlocks(blocks, rest), max);
    BlocksAreScanned(blocks, rest, 0, max);
  }

  /** Refused for its size exactly when a descriptor beyond the limit is read. */
  lemma TooManyExactly(s: Bytes, max: int)
    ensures Preflight(s, max) == Err(TooManyPixels) <==> BeginsTooMany(s, max)
  {
    if Preflight(s, max) == Err(TooManyPixels) { TooManyBegins(s, max); }
    if BeginsTooMany(s, max) {
      var header: Bytes, colours: seq<Colour>, blocks: seq<Block>, rest: Bytes :|
        TooManyParts(s, header, colours, blocks, rest, max);
      BeginningTooMany(s, header, colours, blocks, rest, max);
    }
  }

  /** Without a positive limit nothing is refused for its size. */
  lemma {:induction false} TooManyIsFirst(s: Bytes, frames: nat, max: int)
    requires Scan(s, frames, max) == Err(TooManyPixels)
    ensures max > 0
    decreases |s|
  {
    if s[0] == 0 {
      TooManyIsFirst(s[1..], frames, max);
    } else if s[0] == EXTENSION {
      TooManyIsFirst(SkipChain(s[2..]).value, frames, max);
    } else if !OverLimit(frames + 1, max) {
      TooManyIsFirst(SkipChain(s[11 + TableSize(s[9])..]).value, frames + 1, max);
    }
  }
}
