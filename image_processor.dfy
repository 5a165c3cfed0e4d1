/** The overlay-placement geometry of `add_overlay`: how large the resized
    overlay is, how many pixels of padding it keeps, where its top-left corner
    goes for each `position`, and the (success, error) pair the function
    returns. Pixel data (decoding, Lanczos resampling, alpha blending, saving)
    is library code and appears only through its possible failure. */
module ImageProcessor {

  datatype Option<T> = None | Some(value: T)

  /** A value, or the text of the exception that replaced it (`str(e)`). */
  datatype Result<T> = Ok(value: T) | Err(msg: string)

  /** What `add_overlay` returns: `(True, None)` or `(False, message)`. */
  datatype Outcome = Success | Failure(msg: string)

  /** Width and height in pixels. Decoded images never have negative sides;
      a resized size can, when `scale` is negative. */
  datatype Size = Size(width: int, height: int)

  /** A top-left corner on the base image; either coordinate may be negative. */
  datatype Point = Point(x: int, y: int)

  /** The `position` argument: the five names the code tests for, and any
      other string, which the final `else` arm treats as bottom-right. */
  datatype Position = BottomRight | BottomLeft | TopRight | TopLeft | Center | Other(name: string)

  /** Everything the composite depends on besides pixel values: the size of
      the transparent layer (and so of the output), the resized overlay's
      size, the padding in pixels and the anchor at which it is pasted. */
  datatype Placement = Placement(canvas: Size, overlay: Size, padding: int, anchor: Point)

  /** The five position names, in the order of the application's option menu. */
  const PositionNames: seq<string> := ["bottom-right", "bottom-left", "top-right", "top-left", "center"]

  /** Message of the ZeroDivisionError raised by `height / width` with width 0. */
  const DivisionByZero: string := "division by zero"

  /** Python's `int(x)` on a number: truncation toward zero. */
  function Trunc(x: real): int {
    if x >= 0.0 then x.Floor else -((-x).Floor)
  }

  /** `int(x)` is the integer next to `x` on the side of zero. */
  lemma TruncBounds(x: real)
    ensures 0.0 <= x ==> Trunc(x) as real <= x < Trunc(x) as real + 1.0
    ensures x < 0.0 ==> x <= Trunc(x) as real < x + 1.0
  {
  }

  /** `int(d / 2)`: half of `d`, rounded toward zero (up when `d` is negative and odd). */
  function HalfTowardZero(d: int): (h: int)
    ensures d >= 0 ==> d == 2 * h || d == 2 * h + 1
    ensures d < 0 ==> d == 2 * h || d == 2 * h - 1
  {
    var x := d as real / 2.0;
    var h := Trunc(x);
    TruncBounds(x);
    assert d >= 0 ==> 2 * h <= d < 2 * h + 2 by {
      assert (2 * h) as real == 2.0 * h as real;
    }
    assert d < 0 ==> d <= 2 * h < d + 2 by {
      assert (2 * h) as real == 2.0 * h as real;
    }
    h
  }

  function PositionName(p: Position): string {
    match p
    case BottomRight => "bottom-right"
    case BottomLeft => "bottom-left"
    case TopRight => "top-right"
    case TopLeft => "top-left"
    case Center => "center"
    case Other(name) => name
  }

  /** The `if/elif` chain on the `position` string. */
  function ParsePosition(name: string): (p: Position)
    ensures PositionName(p) == name
    ensures p.Other? <==> name !in PositionNames
  {
    if name == "bottom-right" then BottomRight
    else if name == "bottom-left" then BottomLeft
    else if name == "top-right" then TopRight
    else if name == "top-left" then TopLeft
    else if name == "center" then Center
    else Other(name)
  }

  /** Every position that the chain can produce is produced from its own name. */
  lemma ParsePositionName(p: Position)
    requires p.Other? ==> p.name !in PositionNames
    ensures ParsePosition(PositionName(p)) == p
  {
  }

  /** The resized overlay size: width `int(base_width * scale)`, height
      `int(new_width * (overlay.height / overlay.width))`; the ratio raises
      ZeroDivisionError when the overlay has width 0. */
  function ResizedOverlay(base: Size, overlay: Size, scale: real): (r: Result<Size>)
    ensures r.Err? <==> overlay.width == 0
    ensures r.Err? ==> r.msg == DivisionByZero
  {
    var width := Trunc(base.width as real * scale);
    if overlay.width == 0 then Err(DivisionByZero)
    else
      var ratio := overlay.height as real / overlay.width as real;
      Ok(Size(width, Trunc(width as real * ratio)))
  }

  /** `int(base_width * padding)`: it reads the base width only. */
  function PaddingPx(baseWidth: int, padding: real): int {
    Trunc(baseWidth as real * padding)
  }

  /** The anchor (top-left corner) of the resized overlay `size` on `base`. */
  function Anchor(base: Size, size: Size, pad: int, position: Position): Point {
    match position
    case BottomRight => Point(base.width - size.width - pad, base.height - size.height - pad)
    case BottomLeft => Point(pad, base.height - size.height - pad)
    case TopRight => Point(base.width - size.width - pad, pad)
    case TopLeft => Point(pad, pad)
    case Center => Point(HalfTowardZero(base.width - size.width), HalfTowardZero(base.height - size.height))
    case Other(_) => Point(base.width - size.width - pad, base.height - size.height - pad)
  }

  /** The geometry of one `add_overlay` call, from the sizes of the decoded
      base image and overlay and the three placement settings. The
      transparent layer is created at the base image's size, so the
      composite has the base image's size whatever the anchor. */
  function Place(base: Size, overlay: Size, position: string, scale: real, padding: real): (r: Result<Placement>)
    ensures r.Err? <==> overlay.width == 0
    ensures r.Ok? ==> r.value.canvas == base
  {
    match ResizedOverlay(base, overlay, scale)
    case Err(msg) => Err(msg)
    case Ok(size) =>
      var pad := PaddingPx(base.width, padding);
      Ok(Placement(base, size, pad, Anchor(base, size, pad, ParsePosition(position))))
  }

  /** `add_overlay`. `base` is the outcome of decoding the base image file
      (its size, or the decoder's error message); `libraryError` is the first
      error, if any, raised by the resize, paste, composite or save calls,
      which run only once the geometry has been computed. */
  function AddOverlay(base: Result<Size>, overlay: Size, position: string, scale: real, padding: real,
                      libraryError: Option<string>): (r: Outcome)
    ensures r == Success <==> base.Ok? && overlay.width != 0 && libraryError.None?
    ensures base.Err? ==> r == Failure(base.msg)
    ensures base.Ok? && overlay.width == 0 ==> r == Failure(DivisionByZero)
    ensures base.Ok? && overlay.width != 0 && libraryError.Some? ==> r == Failure(libraryError.value)
  {
    match base
    case Err(msg) => Failure(msg)
    case Ok(size) =>
      match Place(size, overlay, position, scale, padding)
      case Err(msg) => Failure(msg)
      case Ok(_) =>
        match libraryError
        case Some(msg) => Failure(msg)
        case None => Success
  }

  /** For a non-negative scale the resized width is `floor(base_width * scale)`;
      with a scale of at most 1 it lies between 0 and the base width. */
  lemma ResizedWidthIsFloor(base: Size, overlay: Size, scale: real)
    requires base.width >= 0 && overlay.width != 0 && 0.0 <= scale
    ensures ResizedOverlay(base, overlay, scale).value.width == (base.width as real * scale).Floor
    ensures 0 <= ResizedOverlay(base, overlay, scale).value.width
    ensures scale <= 1.0 ==> ResizedOverlay(base, overlay, scale).value.width <= base.width
  {
    FloorOfFraction(base.width, scale);
    ResizedShape(base, overlay, scale);
  }

  /** `int(w * f)` for a non-negative width and fraction is the floor of the
      product, non-negative, and at most `w` when `f` is at most 1. */
  lemma FloorOfFraction(w: int, f: real)
    requires w >= 0 && 0.0 <= f
    ensures Trunc(w as real * f) == (w as real * f).Floor
    ensures 0 <= Trunc(w as real * f)
    ensures f <= 1.0 ==> Trunc(w as real * f) <= w
  {
    var x := w as real * f;
    ProductBounds(w as real, f);
    assert Trunc(x) == x.Floor;
    assert x.Floor as real <= x;
    if f <= 1.0 {
      assert x <= w as real;
      assert x.Floor as real <= w as real;
    }
  }

  /** The resized height is `floor(new_width * overlay.height / overlay.width)`:
      the overlay's aspect ratio is kept up to truncation, and the height never
      exceeds the exact proportional value. */
  lemma AspectPreserved(base: Size, overlay: Size, scale: real)
    requires overlay.width > 0 && overlay.height >= 0 && base.width >= 0 && 0.0 <= scale
    ensures var s := ResizedOverlay(base, overlay, scale).value;
      s.height * overlay.width <= s.width * overlay.height < (s.height + 1) * overlay.width
  {
    var s := ResizedOverlay(base, overlay, scale).value;
    ResizedShape(base, overlay, scale);
    ResizedWidthIsFloor(base, overlay, scale);
    TruncOfRatio(s.width, overlay.height, overlay.width, s.height);
  }

  /** The two truncations that give the resized size. */
  lemma ResizedShape(base: Size, overlay: Size, scale: real)
    requires overlay.width != 0
    ensures var s := ResizedOverlay(base, overlay, scale).value;
      && s.width == Trunc(base.width as real * scale)
      && s.height == Trunc(s.width as real * (overlay.height as real / overlay.width as real))
  {
  }

  /** `n = int(a * (c / b))` for non-negative `a`, `c` and positive `b`
      satisfies `n * b <= a * c < (n + 1) * b`. */
  lemma TruncOfRatio(a: int, c: int, b: int, n: int)
    requires a >= 0 && c >= 0 && b > 0
    requires n == Trunc(a as real * (c as real / b as real))
    ensures n * b <= a * c < (n + 1) * b
  {
    TimesRatio(a, c, b);
    TruncScaled(a as real * (c as real / b as real), b, a * c);
  }

  /** `a * (c / b)` is non-negative and `b` times it is `a * c`. */
  lemma TimesRatio(a: int, c: int, b: int)
    requires a >= 0 && c >= 0 && b > 0
    ensures 0.0 <= a as real * (c as real / b as real)
    ensures (a as real * (c as real / b as real)) * b as real == (a * c) as real
  {
    var q := c as real / b as real;
    assert q * b as real == c as real;
    ProductBounds(a as real, q);
    assert (a as real * q) * b as real == a as real * (q * b as real);
    CastProduct(a, c);
  }

  /** When `b * x == m` for a non-negative `x`, `int(x)` is `m` divided by
      `b`, rounded down. */
  lemma TruncScaled(x: real, b: int, m: int)
    requires 0.0 <= x && b > 0 && x * b as real == m as real
    ensures Trunc(x) * b <= m < (Trunc(x) + 1) * b
  {
    var n := Trunc(x);
    TruncBounds(x);
    ScaledBelow(n, x, b, m);
    ScaledAbove(x, n + 1, b, m);
  }

  /** From `n <= x` and `x * b == m` with `b > 0`: `n * b <= m`. */
  lemma ScaledBelow(n: int, x: real, b: int, m: int)
    requires n as real <= x && b > 0 && x * b as real == m as real
    ensures n * b <= m
  {
    ScaleLe(n as real, x, b as real);
    CastProduct(n, b);
  }

  /** From `x < j` and `x * b == m` with `b > 0`: `m < j * b`. */
  lemma ScaledAbove(x: real, j: int, b: int, m: int)
    requires x < j as real && b > 0 && x * b as real == m as real
    ensures m < j * b
  {
    ScaleLt(x, j as real, b as real);
    CastProduct(j, b);
  }

  /** A product of two non-negative reals is non-negative, and at most the
      first factor when the second is at most 1. */
  lemma ProductBounds(w: real, f: real)
    requires w >= 0.0 && f >= 0.0
    ensures 0.0 <= w * f
    ensures f <= 1.0 ==> w * f <= w
  {
    if f <= 1.0 {
      assert w - w * f == w * (1.0 - f);
    }
  }

  lemma CastProduct(x: int, y: int)
    ensures (x * y) as real == x as real * y as real
  {
  }

  lemma ScaleLe(u: real, v: real, k: real)
    requires u <= v && k > 0.0
    ensures u * k <= v * k
  {
    assert v * k - u * k == (v - u) * k;
  }

  lemma ScaleLt(u: real, v: real, k: real)
    requires u < v && k > 0.0
    ensures u * k < v * k
  {
    assert v * k - u * k == (v - u) * k;
  }

  /** For a non-negative padding fraction the padding is `floor(base_width * padding)`,
      and with a fraction of at most 1 it lies between 0 and the base width. */
  lemma PaddingIsFloor(baseWidth: int, padding: real)
    requires baseWidth >= 0 && 0.0 <= padding
    ensures PaddingPx(baseWidth, padding) == (baseWidth as real * padding).Floor
    ensures padding <= 1.0 ==> 0 <= PaddingPx(baseWidth, padding) <= baseWidth
  {
    FloorOfFraction(baseWidth, padding);
  }

  /** Two base images of the same width get the same padding, whatever their heights. */
  lemma PaddingIgnoresHeight(base1: Size, base2: Size, overlay: Size, position: string, scale: real, padding: real)
    requires base1.width == base2.width && overlay.width != 0
    ensures Place(base1, overlay, position, scale, padding).value.padding
         == Place(base2, overlay, position, scale, padding).value.padding
  {
  }

  /** Each corner position keeps exactly `pad` pixels between the overlay and
      its two edges: the distances to the left, right, top and bottom edges
      are `x`, `W - (x + w)`, `y` and `H - (y + h)`. */
  lemma CornerMargins(base: Size, size: Size, pad: int, position: Position)
    ensures var a := Anchor(base, size, pad, position);
      && (position == BottomRight ==> base.width - (a.x + size.width) == pad && base.height - (a.y + size.height) == pad)
      && (position == BottomLeft ==> a.x == pad && base.height - (a.y + size.height) == pad)
      && (position == TopRight ==> base.width - (a.x + size.width) == pad && a.y == pad)
      && (position == TopLeft ==> a.x == pad && a.y == pad)
  {
  }

  /** With zero padding each corner position puts the overlay flush against its two edges. */
  lemma CornersFlushWithoutPadding(base: Size, overlay: Size, position: string, scale: real, padding: real)
    requires overlay.width != 0
    requires PaddingPx(base.width, padding) == 0
    ensures var pl := Place(base, overlay, position, scale, padding).value;
      var a, s := pl.anchor, pl.overlay;
      && (position == "bottom-right" ==> a.x + s.width == base.width && a.y + s.height == base.height)
      && (position == "bottom-left" ==> a.x == 0 && a.y + s.height == base.height)
      && (position == "top-right" ==> a.x + s.width == base.width && a.y == 0)
      && (position == "top-left" ==> a.x == 0 && a.y == 0)
  {
    var pl := Place(base, overlay, position, scale, padding).value;
    CornerMargins(base, pl.overlay, 0, ParsePosition(position));
  }

  /** Any position string other than the five names places the overlay
      exactly as `bottom-right` does. */
  lemma UnknownPositionIsBottomRight(base: Size, overlay: Size, position: string, scale: real, padding: real)
    requires position !in PositionNames
    ensures Place(base, overlay, position, scale, padding) == Place(base, overlay, "bottom-right", scale, padding)
  {
  }

  /** `center` ignores padding and leaves margins that differ by at most one
      pixel on each axis; the anchor is never clamped, so it is negative as
      soon as the overlay is two or more pixels larger than the base. */
  lemma CenterMargins(base: Size, size: Size, pad: int)
    ensures var a := Anchor(base, size, pad, Center);
      && a == Anchor(base, size, 0, Center)
      && -1 <= (base.width - (a.x + size.width)) - a.x <= 1
      && -1 <= (base.height - (a.y + size.height)) - a.y <= 1
      && (size.width >= base.width + 2 ==> a.x < 0)
      && (size.height >= base.height + 2 ==> a.y < 0)
  {
    var a := Anchor(base, size, pad, Center);
    assert a.x == HalfTowardZero(base.width - size.width);
    assert a.y == HalfTowardZero(base.height - size.height);
  }

  /** `int()` rounds the centre offset toward zero, not down: for a negative
      odd difference the anchor is half of it rounded up (an overlay one
      pixel wider than the base is anchored at 0, not at -1). */
  lemma CenterRoundsTowardZero(base: Size, size: Size, pad: int)
    ensures var a := Anchor(base, size, pad, Center);
      var dx, dy := base.width - size.width, base.height - size.height;
      && a.x == (if dx >= 0 then dx / 2 else -((-dx) / 2))
      && a.y == (if dy >= 0 then dy / 2 else -((-dy) / 2))
  {
    HalfIsTruncatedDivision(base.width - size.width);
    HalfIsTruncatedDivision(base.height - size.height);
  }

  /** `HalfTowardZero` is division by 2 truncated toward zero, written with
      Dafny's Euclidean `/` on the magnitude. */
  lemma HalfIsTruncatedDivision(d: int)
    ensures HalfTowardZero(d) == if d >= 0 then d / 2 else -((-d) / 2)
  {
    var h := HalfTowardZero(d);
    if d >= 0 {
      assert d == 2 * h || d == 2 * h + 1;
    } else {
      assert -d == 2 * (-h) || -d == 2 * (-h) + 1;
    }
  }

  /** An overlay larger than the base at `center` is still composited: the
      call succeeds whenever the images decode, the overlay has a width and
      the library calls do not fail, and the output keeps the base size. */
  lemma OversizedCenterAccepted(base: Size, overlay: Size, scale: real, padding: real)
    requires overlay.width != 0
    ensures Place(base, overlay, "center", scale, padding).Ok?
    ensures Place(base, overlay, "center", scale, padding).value.canvas == base
    ensures AddOverlay(Ok(base), overlay, "center", scale, padding, None) == Success
  {
  }

  /** Nothing in the geometry keeps the resized overlay at least one pixel
      wide: a base narrower than 20 pixels at scale 0.05 gives width 0. */
  lemma ResizeCanReachZero(base: Size, overlay: Size, position: string, padding: real)
    requires 0 <= base.width < 20 && overlay.width != 0
    ensures Place(base, overlay, position, 0.05, padding).value.overlay.width == 0
  {
    FloorOfFraction(base.width, 0.05);
    ResizedShape(base, overlay, 0.05);
    assert base.width as real * 0.05 < 1.0;
  }

  /** Base 1000x800, overlay 400x200, scale 0.25, padding 0.02, bottom-right:
      the overlay becomes 250x125, the padding 20 pixels and the anchor (730, 655). */
  lemma WorkedExample()
    ensures Place(Size(1000, 800), Size(400, 200), "bottom-right", 0.25, 0.02)
         == Ok(Placement(Size(1000, 800), Size(250, 125), 20, Point(730, 655)))
  {
    assert Trunc(1000.0 * 0.25) == 250;
    assert Trunc(250.0 * (200.0 / 400.0)) == 125;
    assert Trunc(1000.0 * 0.02) == 20;
  }
}
