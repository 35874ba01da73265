/**
 The pixel and frame budget of an uploaded image (internal/platform/processor/inspect.go). The
 decoders are outcomes: what a header announces, and how many frames a full decode finds.
 */
module ImageInspection {
  import opened Base
  import opened GifPreflight

  datatype Format = JPEG | PNG | GIF | WebP

  datatype Limits = Limits(maxBytes: int, maxTotalPixels: int)

  datatype Config = Config(width: int, height: int, format: Format)

  datatype Metadata = Metadata(format: Format, width: int, height: int, frames: nat)

  datatype InspectError = BadImage | FileTooLarge | OverBudget | UnsupportedFormat

  // ---------------------------------------------------------------- 64-bit arithmetic

  const TWO63: int := 0x8000_0000_0000_0000

  /** int64 results wrap around. */
  function Wrap(n: int): int { (n + TWO63) % (2 * TWO63) - TWO63 }

  lemma WrapFits(n: int)
    ensures Wrap(n) == n <==> -TWO63 <= n < TWO63
  {
  }

  /** Every supported header stores a dimension in at most 31 bits. */
  const MAX_DIMENSION: int := 0x7fff_ffff

  lemma PixelsFit(c: Config)
    requires 0 < c.width <= MAX_DIMENSION && 0 < c.height <= MAX_DIMENSION
    ensures 0 < c.width * c.height < TWO63 && Wrap(c.width * c.height) == c.width * c.height
  {
    ProductBound(c.width, c.height, MAX_DIMENSION);
    WrapFits(c.width * c.height);
  }

  lemma ProductBound(a: int, b: int, m: int)
    requires 0 < a <= m && 0 < b <= m
    ensures 0 < a * b <= m * m
  {
    assert a * b <= m * b <= m * m;
  }

  // ---------------------------------------------------------------- formats by their first bytes

  function PngSignature(): Bytes { [0x89, 0x50, 0x4e, 0x47, 0x0d, 0x0a, 0x1a, 0x0a] }

  function Riff(): Bytes { [0x52, 0x49, 0x46, 0x46] }

  function Webp(): Bytes { [0x57, 0x45, 0x42, 0x50] }

  function DetectFormat(header: Bytes): Option<Format> {
    if |header| >= 3 && header[0] == 0xff && header[1] == 0xd8 && header[2] == 0xff then Some(JPEG)
    else if |header| >= 8 && header[..8] == PngSignature() then Some(PNG)
    else if |header| >= 6 && (header[..6] == Gif87a() || header[..6] == Gif89a()) then Some(GIF)
    else if |header| >= 12 && header[..4] == Riff() && header[8..12] == Webp() then Some(WebP)
    else None
  }

  predicate Four(header: Bytes, at: nat, a: char, b: char, c: char, d: char)
    requires at + 4 <= |header| && a < 128 as char && b < 128 as char && c < 128 as char && d < 128 as char
  {
    header[at] == a as Byte && header[at + 1] == b as Byte && header[at + 2] == c as Byte && header[at + 3] == d as Byte
  }

  /** The signature each format's own specification gives it. */
  predicate Is(header: Bytes, f: Format) {
    match f
    case JPEG => |header| >= 3 && header[0] == 255 && header[1] == 216 && header[2] == 255
    case PNG =>
      && |header| >= 8 && header[0] == 137 && header[1] == 'P' as Byte && header[2] == 'N' as Byte && header[3] == 'G' as Byte
      && header[4] == 13 && header[5] == 10 && header[6] == 26 && header[7] == 10
    case GIF =>
      |header| >= 6 && Four(header, 0, 'G', 'I', 'F', '8') && (header[4] == '7' as Byte || header[4] == '9' as Byte) && header[5] == 'a' as Byte
    case WebP => |header| >= 12 && Four(header, 0, 'R', 'I', 'F', 'F') && Four(header, 8, 'W', 'E', 'B', 'P')
  }

  /** The signatures exclude each other, so the order of the tests does not matter. */
  lemma DetectedBySignature(header: Bytes, f: Format)
    ensures DetectFormat(header) == Some(f) <==> Is(header, f)
  {
    if |header| >= 6 { assert header[..6] == [header[0], header[1], header[2], header[3], header[4], header[5]]; }
    if |header| >= 8 {
      assert header[..8] == [header[0], header[1], header[2], header[3], header[4], header[5], header[6], header[7]];
    }
    if |header| >= 12 {
      assert header[..4] == [header[0], header[1], header[2], header[3]];
      assert header[8..12] == [header[8], header[9], header[10], header[11]];
    }
  }

  /** The first bytes, as far as the file has them. */
  function Head(data: Bytes): Bytes { if |data| < 16 then data else data[..16] }

  /** They are enough to tell the format of the whole file. */
  lemma HeadSuffices(data: Bytes, f: Format)
    ensures Is(Head(data), f) <==> Is(data, f)
  {
  }

  // ---------------------------------------------------------------- the frame budget

  /** A limit only cuts off: it changes no count, and refuses exactly the counts above it. */
  lemma {:induction false} LimitOnlyRefuses(s: Bytes, frames: nat, max: int)
    requires !OverLimit(frames, max)
    ensures Scan(s, frames, 0).Ok? ==>
      Scan(s, frames, max) == if OverLimit(Scan(s, frames, 0).value, max) then Err(TooManyPixels) else Scan(s, frames, 0)
    ensures Scan(s, frames, max).Ok? ==> Scan(s, frames, 0) == Scan(s, frames, max) && !OverLimit(Scan(s, frames, max).value, max)
    ensures Scan(s, frames, 0).Ok? ==> Scan(s, frames, 0).value >= frames
    decreases |s|
  {
    if s == [] {
    } else if s[0] == 0 {
      LimitOnlyRefuses(s[1..], frames, max);
    } else if s[0] == EXTENSION {
      if |s| >= 2 && SkipChain(s[2..]).Some? { LimitOnlyRefuses(SkipChain(s[2..]).value, frames, max); }
    } else if s[0] == IMAGE && |s| >= 10 && |s| >= 11 + TableSize(s[9]) && SkipChain(s[11 + TableSize(s[9])..]).Some? {
      var rest := SkipChain(s[11 + TableSize(s[9])..]).value;
      if OverLimit(frames + 1, max) { CountsGrow(rest, frames + 1); } else { LimitOnlyRefuses(rest, frames + 1, max); }
    }
  }

  lemma {:induction false} CountsGrow(s: Bytes, frames: nat)
    ensures Scan(s, frames, 0).Ok? ==> Scan(s, frames, 0).value >= frames
    decreases |s|
  {
    if s == [] {
    } else if s[0] == 0 {
      CountsGrow(s[1..], frames);
    } else if s[0] == EXTENSION {
      if |s| >= 2 && SkipChain(s[2..]).Some? { CountsGrow(SkipChain(s[2..]).value, frames); }
    } else if s[0] == IMAGE && |s| >= 10 && |s| >= 11 + TableSize(s[9]) && SkipChain(s[11 + TableSize(s[9])..]).Some? {
      CountsGrow(SkipChain(s[11 + TableSize(s[9])..]).value, frames + 1);
    }
  }

  lemma PreflightUnderLimit(s: Bytes, max: int)
    ensures Preflight(s, 0).Ok? ==>
      Preflight(s, max) == if OverLimit(Preflight(s, 0).value, max) then Err(TooManyPixels) else Preflight(s, 0)
    ensures Preflight(s, max).Ok? ==> Preflight(s, 0) == Preflight(s, max)
  {
    if |s| >= 13 && Signed(s) && |s| >= 13 + TableSize(s[10]) {
      LimitOnlyRefuses(s[13 + TableSize(s[10])..], 0, max);
    }
  }

  /** Within the derived cap means within the budget: the cap is exact and never disabled. */
  lemma CapIsBudget(limit: int, pixels: int, frames: nat)
    requires 0 < pixels <= limit
    ensures limit / pixels >= 1
    ensures OverLimit(frames, limit / pixels) <==> pixels * frames > limit
  {
    var cap := limit / pixels;
    assert limit == pixels * cap + limit % pixels;
    if frames <= cap { Monotone(pixels, frames, cap); } else { Monotone(pixels, cap + 1, frames); }
  }

  lemma Monotone(p: int, a: int, b: int)
    requires p > 0 && a <= b
    ensures p * a <= p * b
  {
  }

  // ---------------------------------------------------------------- inspection

  /** The file is a well-formed image of the announced format, whatever its size. */
  predicate WellFormed(data: Bytes, config: Option<Config>, decoded: Option<nat>) {
    && config.Some? && config.value.width > 0 && config.value.height > 0
    && Is(data, config.value.format)
    && decoded.Some?
    && (config.value.format.GIF? ==> Preflight(data, 0) == Ok(decoded.value))
  }

  predicate WithinLimits(data: Bytes, config: Config, frames: nat, limits: Limits) {
    && data != [] && (limits.maxBytes > 0 ==> |data| <= limits.maxBytes)
    && (limits.maxTotalPixels > 0 ==> config.width * config.height * frames <= limits.maxTotalPixels)
  }

  /**
   Accepts exactly the well-formed images within the limits. `config` is what DecodeConfig found,
   with dimensions of 31 bits; `decoded` the frames of a full decode: one, or for a GIF at least one.
   */
  method InspectFile(data: Bytes, config: Option<Config>, decoded: Option<nat>, limits: Limits)
    returns (r: Result<Metadata, InspectError>)
    requires config.Some? ==> config.value.width < 0x8000_0000 && config.value.height < 0x8000_0000
    requires config.Some? && decoded.Some? ==> decoded.value >= 1 && (decoded.value > 1 ==> config.value.format == GIF)
    requires limits.maxTotalPixels < TWO63 && limits.maxBytes < TWO63
    ensures r.Ok? <==> WellFormed(data, config, decoded) && WithinLimits(data, config.value, decoded.value, limits)
    ensures r.Ok? ==> r.value == Metadata(config.value.format, config.value.width, config.value.height, decoded.value)
    ensures WellFormed(data, config, decoded) && r.Err? ==>
      r.error == if data == [] then BadImage
                 else if limits.maxBytes > 0 && |data| > limits.maxBytes then FileTooLarge
                 else OverBudget
    ensures r == Err(FileTooLarge) <==> limits.maxBytes > 0 && |data| > limits.maxBytes
    ensures r == Err(UnsupportedFormat) <==>
      data != [] && !(limits.maxBytes > 0 && |data| > limits.maxBytes)
      && !Is(data, JPEG) && !Is(data, PNG) && !Is(data, GIF) && !Is(data, WebP)
    ensures r == Err(OverBudget) ==>
      && limits.maxTotalPixels > 0 && config.Some? && config.value.width * config.value.height > 0
      && (config.value.width * config.value.height > limits.maxTotalPixels
          || BeginsTooMany(data, limits.maxTotalPixels / (config.value.width * config.value.height)))
  {
    if |data| == 0 { return Err(BadImage); }
    if limits.maxBytes > 0 && |data| > limits.maxBytes { return Err(FileTooLarge); }
    var header := Head(data);
    var format := DetectFormat(header);
    forall f ensures DetectFormat(header) == Some(f) <==> Is(data, f) {
      DetectedBySignature(header, f);
      HeadSuffices(data, f);
    }
    if format.None? { return Err(UnsupportedFormat); }
    if config.None? || config.value.width <= 0 || config.value.height <= 0 || config.value.format != format.value {
      return Err(BadImage);
    }
    PixelsFit(config.value);
    var pixels := Wrap(config.value.width * config.value.height);
    if pixels <= 0 || (limits.maxTotalPixels > 0 && pixels > limits.maxTotalPixels) {
      if decoded.Some? { Monotone(pixels, 1, decoded.value); }
      return Err(OverBudget);
    }
    var preflightFrames := 0;
    if format.value.GIF? {
      var maxFrames := 0;
      if limits.maxTotalPixels > 0 {
        maxFrames := limits.maxTotalPixels / pixels;
        CapIsBudget(limits.maxTotalPixels, pixels, if decoded.Some? then decoded.value else 0);
      }
      PreflightUnderLimit(data, maxFrames);
      TooManyExactly(data, maxFrames);
      var reader := new Reader(data);
      var counted := PreflightFrames(reader, maxFrames);
      if counted.Err? { return Err(if counted.error.TooManyPixels? then OverBudget else BadImage); }
      preflightFrames := counted.value;
      PositiveCount(data, maxFrames);
    }
    if decoded.None? { return Err(BadImage); }
    var frames := decoded.value;
    if preflightFrames > 0 && frames != preflightFrames { return Err(BadImage); }
    if limits.maxTotalPixels > 0 {
      LateCheckIsIdle(data, config.value, frames, limits.maxTotalPixels);
    }
    if limits.maxTotalPixels > 0 && Wrap(pixels * frames) > limits.maxTotalPixels { return Err(OverBudget); }
    r := Ok(Metadata(format.value, config.value.width, config.value.height, frames));
  }

  lemma {:induction false} ScanIsPositive(s: Bytes, frames: nat, max: int)
    ensures Scan(s, frames, max).Ok? ==> Scan(s, frames, max).value > 0
    decreases |s|
  {
    if s == [] {
    } else if s[0] == 0 {
      ScanIsPositive(s[1..], frames, max);
    } else if s[0] == EXTENSION {
      if |s| >= 2 && SkipChain(s[2..]).Some? { ScanIsPositive(SkipChain(s[2..]).value, frames, max); }
    } else if s[0] == IMAGE && |s| >= 10 && |s| >= 11 + TableSize(s[9]) && SkipChain(s[11 + TableSize(s[9])..]).Some? {
      ScanIsPositive(SkipChain(s[11 + TableSize(s[9])..]).value, frames + 1, max);
    }
  }

  lemma PositiveCount(s: Bytes, max: int)
    ensures Preflight(s, max).Ok? ==> Preflight(s, max).value > 0
  {
    if |s| >= 13 && Signed(s) && |s| >= 13 + TableSize(s[10]) {
      ScanIsPositive(s[13 + TableSize(s[10])..], 0, max);
    }
  }

  /** When the earlier checks have passed, the last product neither overflows nor exceeds the limit. */
  lemma LateCheckIsIdle(data: Bytes, c: Config, frames: nat, limit: int)
    requires 0 < c.width <= MAX_DIMENSION && 0 < c.height <= MAX_DIMENSION && c.width * c.height <= limit < TWO63
    requires if c.format.GIF? then Preflight(data, limit / (c.width * c.height)) == Ok(frames) else frames == 1
    ensures c.width * c.height * frames <= limit
    ensures Wrap(c.width * c.height * frames) == c.width * c.height * frames
  {
    var pixels := c.width * c.height;
    PixelsFit(c);
    if c.format.GIF? {
      CapIsBudget(limit, pixels, frames);
      CountWithinCap(data, limit / pixels);
    }
    Monotone(pixels, 0, frames);
    WrapFits(pixels * frames);
  }

  lemma CountWithinCap(data: Bytes, max: int)
    requires Preflight(data, max).Ok?
    ensures !OverLimit(Preflight(data, max).value, max)
  {
    LimitOnlyRefuses(data[13 + TableSize(data[10])..], 0, max);
  }

  /** The bound on dimensions is needed: with wider ones the pixel product could wrap to a small number. */
  lemma WiderDimensionsWouldWrap()
    ensures Wrap(0x1_0000_0001 * 0x1_0000_0000) == 0x1_0000_0000
  {
  }
}
