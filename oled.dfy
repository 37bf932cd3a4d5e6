/** The SSD1306/SH1106 OLED display over SPI (spi_oled_ssd1306_sh1106.js): a frame
    buffer of one bit per pixel, eight vertical pixels to a byte, a page of
    `width` bytes for each eight rows; `apply` sends it page by page, and the
    constructor sends the panel's initialisation commands. */
module Oled {
  import opened Options
  import opened Bytes

  const SETCONTRAST: Byte := 0x81
  const DISPLAYALLON_RESUME: Byte := 0xA4
  const NORMALDISPLAY: Byte := 0xA6
  const DISPLAYOFF: Byte := 0xAE
  const DISPLAYON: Byte := 0xAF
  const SETDISPLAYOFFSET: Byte := 0xD3
  const SETCOMPINS: Byte := 0xDA
  const SETVCOMDETECT: Byte := 0xDB
  const SETDISPLAYCLOCKDIV: Byte := 0xD5
  const SETPRECHARGE: Byte := 0xD9
  const SETMULTIPLEX: Byte := 0xA8
  const SETLOWCOLUMN: Byte := 0x00
  const SETHIGHCOLUMN: Byte := 0x10
  const SETSTARTLINE: Byte := 0x40
  const COMSCANDEC: Byte := 0xC8
  const SEGREMAP: Byte := 0xA0
  const SETPAGEADDRESS: Byte := 0xB0
  const CHARGEPUMP: Byte := 0x8D
  /** The panel runs on its internal supply: the external-supply bytes are never sent. */
  const EXTERNAL_VCC := false
  /** The column the panel starts at (2 on some SH1106 panels). */
  const COLUMN_OFFSET: nat := 0

  const UNKNOWN_SIZE := "unknown display size"
  /** What the 64x48 and 128x32 branches throw. */
  const UNDEFINED_HEIGHT := "DISPLAY_HEIGHT is not defined"

  predicate KnownSize(width: nat, height: nat) {
    (width == 64 && height == 48) || (width == 128 && height == 32) || (width == 128 && height == 64)
  }

  /** The bytes of the 64x48 set-up, with the multiplex ratio `mux`. */
  function Init64x48(mux: Byte): seq<Byte> {
    [DISPLAYOFF, SETDISPLAYCLOCKDIV, 0x80, SETMULTIPLEX, mux, SETDISPLAYOFFSET, 0x0,
     SETSTARTLINE, CHARGEPUMP, 0x14, NORMALDISPLAY, DISPLAYALLON_RESUME, SEGREMAP + 1,
     COMSCANDEC, SETCOMPINS, 0x12, SETCONTRAST, 0x8F, SETPRECHARGE, 0xF1, SETVCOMDETECT, 0x40]
  }

  /** The bytes of the 128-column set-up, with the multiplex ratio `mux` and the
      COM pins configuration `pins`. */
  function Init128(mux: Byte, pins: Byte): seq<Byte> {
    [DISPLAYOFF, SETDISPLAYCLOCKDIV, 0x80, SETMULTIPLEX, mux, SETDISPLAYOFFSET, 0x0,
     SETSTARTLINE, CHARGEPUMP, if EXTERNAL_VCC then 0x10 else 0x14, SEGREMAP + 1,
     COMSCANDEC, SETCOMPINS, pins, SETCONTRAST, if EXTERNAL_VCC then 0x9F else 0xCF,
     SETPRECHARGE, if EXTERNAL_VCC then 0x22 else 0xF1, SETVCOMDETECT, 0x40,
     DISPLAYALLON_RESUME, NORMALDISPLAY]
  }

  /** The constructor's command bytes as written: the 64x48 and 128x32 branches
      name a constant that is not defined, so only 128x64 gets through. */
  function InitAsWritten(width: nat, height: nat): (r: Result<seq<Byte>>)
    ensures r.Ok? <==> width == 128 && height == 64
  {
    if width == 64 && height == 48 then Err(UNDEFINED_HEIGHT)
    else if width == 128 && height == 32 then Err(UNDEFINED_HEIGHT)
    else if width == 128 && height == 64 then Ok(Init128(63, 0x12) + [DISPLAYON])
    else Err(UNKNOWN_SIZE)
  }

  /** A 64x48 display cannot be opened as written. */
  lemma SmallPanelRefused()
    ensures InitAsWritten(64, 48) == Err(UNDEFINED_HEIGHT)
    ensures InitAsWritten(128, 32) == Err(UNDEFINED_HEIGHT)
  {
  }

  /** The constructor's command bytes, with the multiplex ratio height - 1 in every
      branch (as the 128x64 branch has it). */
  function Init(width: nat, height: nat): (r: Result<seq<Byte>>)
  {
    if width == 64 && height == 48 then Ok(Init64x48(47) + [DISPLAYON])
    else if width == 128 && height == 32 then Ok(Init128(31, 0x02) + [DISPLAYON])
    else if width == 128 && height == 64 then Ok(Init128(63, 0x12) + [DISPLAYON])
    else Err(UNKNOWN_SIZE)
  }

  /** Exactly the three known sizes are accepted; their set-up switches the panel
      off first and on last, sets the multiplex ratio to height - 1, and agrees
      with the code as written where that gets through. */
  lemma InitSpec(width: nat, height: nat)
    ensures Init(width, height).Ok? <==> KnownSize(width, height)
    ensures Init(width, height).Err? ==> Init(width, height).error == UNKNOWN_SIZE
    ensures Init(width, height).Ok? ==>
      var b := Init(width, height).value;
      && |b| == 23 && b[0] == DISPLAYOFF && b[22] == DISPLAYON
      && b[3] == SETMULTIPLEX && b[4] == height - 1
    ensures InitAsWritten(width, height).Ok? ==> InitAsWritten(width, height) == Init(width, height)
  {
  }

  /** One SPI transfer, sent with the data/command pin high (pixel data) or low
      (commands). */
  datatype Transfer = Transfer(data: bool, bytes: seq<Byte>)

  /** The header of page y: its page address and the column to start at. */
  function PageHeader(y: nat): (h: seq<Byte>)
    requires y < 16
    ensures |h| == 3 && h[0] == SETPAGEADDRESS + y
  {
    [SETPAGEADDRESS + y, SETLOWCOLUMN + COLUMN_OFFSET % 16, SETHIGHCOLUMN + COLUMN_OFFSET / 16]
  }

  /** Bit k of b set or cleared, as `|= 1 << k` and `&= ~(1 << k)`. */
  function WithPixel(b: Byte, k: nat, on: bool): (r: Byte)
    requires k < 8
    ensures forall j :: 0 <= j < 8 ==> BitSet(r, j) == if j == k then on else BitSet(b, j)
  {
    Pow2Word();
    WithBitBound(b, k, on, 8);
    forall j | 0 <= j < 8 ensures BitSet(WithBit(b, k, on), j) == if j == k then on else BitSet(b, j) {
      WithBitBits(b, k, on, j);
    }
    WithBit(b, k, on)
  }

  /** Setting a pixel twice is setting it once. */
  lemma SetTwice(b: Byte, k: nat)
    requires k < 8
    ensures WithPixel(WithPixel(b, k, true), k, true) == WithPixel(b, k, true)
  {
    WithBitTwice(b, k, true, true);
  }

  /** Clearing a pixel undoes setting it: the result is that of clearing it. */
  lemma SetThenClear(b: Byte, k: nat)
    requires k < 8
    ensures WithPixel(WithPixel(b, k, true), k, false) == WithPixel(b, k, false)
    ensures !BitSet(WithPixel(WithPixel(b, k, true), k, false), k)
  {
    WithBitTwice(b, k, true, false);
  }

  class Display {
    const width: nat
    const height: nat
    /** `buffer`: `width * height / 8` bytes, page after page. */
    const buffer: array<Byte>
    /** What went out on the SPI bus, in order. */
    var transfers: seq<Transfer>

    ghost predicate Valid() {
      KnownSize(width, height) && buffer.Length == width * height / 8 && Paged()
    }

    /** The pages tile the buffer (which the size alone implies, see ValidPaged):
        at most 16 of them, and the one after the last starts at its end. */
    ghost predicate Paged() {
      height / 8 <= 16 && Offset(height / 8) == buffer.Length
    }

    /** The byte holding pixel (x, y): `x + (y >> 3) * width`. */
    function Index(x: int, y: int): int {
      x + (y / 8) * width
    }

    /** Whether pixel (x, y) lies in the buffer. */
    predicate InBuffer(x: int, y: int) {
      0 <= Index(x, y) < buffer.Length
    }

    /** Pixel (x, y): bit `y & 7` of its byte. */
    function Pixel(x: int, y: int): bool
      reads buffer
    {
      InBuffer(x, y) && BitSet(buffer[Index(x, y)], y % 8)
    }

    /** The constructor past its size check: the buffer (its initial contents are
        not modelled) and the set-up commands sent. */
    constructor (width: nat, height: nat)
      requires KnownSize(width, height)
      ensures Valid() && this.width == width && this.height == height
      ensures fresh(buffer) && transfers == [Transfer(false, Init(width, height).value)]
    {
      this.width := width;
      this.height := height;
      buffer := new Byte[width * height / 8];
      transfers := [Transfer(false, Init(width, height).value)];
      new;
      ValidPaged();
    }

    /** `set(x, y)`: that pixel's bit goes on and nothing else changes; a pixel
        outside the buffer is ignored, as a Buffer ignores writes out of range. */
    method Set(x: int, y: int)
      modifies buffer
      ensures InBuffer(x, y) ==>
        buffer[..] == old(buffer[..])[Index(x, y) := WithPixel(old(buffer[Index(x, y)]), y % 8, true)]
      ensures !InBuffer(x, y) ==> buffer[..] == old(buffer[..])
      ensures InBuffer(x, y) ==> Pixel(x, y)
    {
      var i := x + (y / 8) * width;
      if 0 <= i < buffer.Length {
        buffer[i] := WithPixel(buffer[i], y % 8, true);
      }
    }

    /** `clear(x, y)`: that pixel's bit goes off and nothing else changes. */
    method Clear(x: int, y: int)
      modifies buffer
      ensures InBuffer(x, y) ==>
        buffer[..] == old(buffer[..])[Index(x, y) := WithPixel(old(buffer[Index(x, y)]), y % 8, false)]
      ensures !InBuffer(x, y) ==> buffer[..] == old(buffer[..])
      ensures !Pixel(x, y)
    {
      var i := x + (y / 8) * width;
      if 0 <= i < buffer.Length {
        buffer[i] := WithPixel(buffer[i], y % 8, false);
      }
    }

    /** `clearAll(byte)`: every byte of the buffer becomes `byte`. */
    method ClearAll(b: Byte)
      modifies buffer
      ensures forall i :: 0 <= i < buffer.Length ==> buffer[i] == b
    {
      var i := 0;
      while i < buffer.Length
        invariant 0 <= i <= buffer.Length
        invariant forall j :: 0 <= j < i ==> buffer[j] == b
      {
        buffer[i] := b;
        i := i + 1;
      }
    }

    /** `apply(callback)`: the start line, then the pages from the first on; the
        callback follows the last. */
    method Apply()
      requires Valid()
      modifies this
      ensures transfers == old(transfers) + [Transfer(false, [SETSTARTLINE])] + Pages(0)
    {
      transfers := transfers + [Transfer(false, [SETSTARTLINE])];
      Row(0, 0);
    }

    /** `row(y)`: the header of page y (as commands) and its `width` bytes from
        offset i (as data), then the rows after it; nothing past the last. */
    method Row(y: nat, i: nat)
      requires Paged() && y <= height / 8 && i == Offset(y)
      modifies this
      ensures transfers == old(transfers) + Pages(y)
      decreases height / 8 - y
    {
      if y == height / 8 {
        assert Pages(y) == [];
        return;
      }
      OffsetGrows(y + 1, height / 8);
      var sent := [Transfer(false, PageHeader(y)), Transfer(true, buffer[i..i + width])];
      PagesUnfold(y);
      ghost var before := transfers;
      transfers := transfers + sent;
      Row(y + 1, i + width);
      Concat(before, sent, Pages(y + 1));
    }

    /** Page y's header and bytes come first in the pages from y on. */
    lemma PagesUnfold(y: nat)
      requires Paged() && y < height / 8
      ensures Offset(y + 1) <= buffer.Length
      ensures Pages(y) == [Transfer(false, PageHeader(y)), Transfer(true, buffer[Offset(y)..Offset(y + 1)])] + Pages(y + 1)
    {
      OffsetGrows(y + 1, height / 8);
    }

    /** Where page y starts in the buffer: the offset `i` of `apply`, which grows
        by `width` a page. */
    ghost function Offset(y: nat): nat {
      if y == 0 then 0 else Offset(y - 1) + width
    }

    /** Page y starts at byte y * width. */
    lemma {:induction false} OffsetIs(y: nat)
      ensures Offset(y) == y * width
    {
      if y > 0 {
        OffsetIs(y - 1);
      }
    }

    /** A display of a known size has its pages tiling its buffer. */
    lemma ValidPaged()
      requires KnownSize(width, height) && buffer.Length == width * height / 8
      ensures Paged()
    {
      OffsetIs(height / 8);
    }

    /** Pages start in order, each `width` bytes after the one before. */
    lemma {:induction false} OffsetGrows(y: nat, z: nat)
      requires y <= z
      ensures Offset(y) <= Offset(z)
      decreases z - y
    {
      if y < z {
        OffsetGrows(y, z - 1);
      }
    }

    /** What `apply` sends from page y on: header and bytes of each page. */
    ghost function Pages(y: nat): (t: seq<Transfer>)
      requires Paged() && y <= height / 8
      reads buffer
      ensures |t| == 2 * (height / 8 - y)
      decreases height / 8 - y
    {
      if y == height / 8 then []
      else
        OffsetGrows(y + 1, height / 8);
        [Transfer(false, PageHeader(y)), Transfer(true, buffer[Offset(y)..Offset(y + 1)])] + Pages(y + 1)
    }

    /** The pages cover the buffer: from page y on, the data sent is the buffer
        from the start of page y on, in order. */
    lemma {:induction false} PagesData(y: nat)
      requires Paged() && y <= height / 8
      ensures Offset(y) <= buffer.Length
      ensures DataBytes(Pages(y)) == buffer[Offset(y)..]
      decreases height / 8 - y
    {
      OffsetGrows(y, height / 8);
      if y < height / 8 {
        PagesData(y + 1);
        OffsetGrows(y + 1, height / 8);
        PageData(y);
        SliceSplit(buffer, Offset(y), Offset(y + 1));
      } else {
        assert Pages(y) == [];
      }
    }

    /** Page y contributes its own bytes to the data, ahead of the pages after it. */
    lemma PageData(y: nat)
      requires Paged() && y < height / 8
      ensures Offset(y + 1) <= buffer.Length
      ensures DataBytes(Pages(y)) == buffer[Offset(y)..Offset(y + 1)] + DataBytes(Pages(y + 1))
    {
      OffsetGrows(y + 1, height / 8);
      DataBytesPage(Transfer(false, PageHeader(y)), buffer[Offset(y)..Offset(y + 1)], Pages(y + 1));
    }

    /** Page z's header goes out before its bytes, as commands. */
    lemma {:induction false} PagesHeaders(y: nat, z: nat)
      requires Paged() && y <= z < height / 8
      ensures Offset(z + 1) <= buffer.Length
      ensures Pages(y)[2 * (z - y)] == Transfer(false, PageHeader(z))
      ensures Pages(y)[2 * (z - y) + 1] == Transfer(true, buffer[Offset(z)..Offset(z + 1)])
      decreases z - y
    {
      OffsetGrows(z + 1, height / 8);
      if y < z {
        PagesHeaders(y + 1, z);
      }
    }
  }

  /** `new OLEDDisplay(spi, {width, height})`: a display of a known size, or the
      "unknown display size" error. */
  method Open(width: nat, height: nat) returns (r: Result<Display>)
    ensures r.Err? <==> !KnownSize(width, height)
    ensures r.Err? ==> r.error == UNKNOWN_SIZE
    ensures r.Ok? ==>
      && fresh(r.value) && fresh(r.value.buffer) && r.value.Valid()
      && r.value.width == width && r.value.height == height
      && r.value.transfers == [Transfer(false, Init(width, height).value)]
  {
    if !KnownSize(width, height) {
      return Err(UNKNOWN_SIZE);
    }
    var d := new Display(width, height);
    r := Ok(d);
  }

  /** The bytes of the data transfers, in order. */
  function DataBytes(ts: seq<Transfer>): seq<Byte> {
    if ts == [] then []
    else (if ts[0].data then ts[0].bytes else []) + DataBytes(ts[1..])
  }

  /** A header and a page of bytes, ahead of more transfers, add the page's bytes
      to the data. */
  lemma DataBytesPage(h: Transfer, d: seq<Byte>, rest: seq<Transfer>)
    requires !h.data
    ensures DataBytes([h, Transfer(true, d)] + rest) == d + DataBytes(rest)
  {
    var t := [h, Transfer(true, d)] + rest;
    assert t[1..][1..] == rest;
  }

  lemma Concat(a: seq<Transfer>, b: seq<Transfer>, c: seq<Transfer>)
    ensures a + b + c == a + (b + c)
  {
  }

  lemma SliceSplit(s: array<Byte>, a: nat, b: nat)
    requires a <= b <= s.Length
    ensures s[a..] == s[a..b] + s[b..]
  {
  }

}

