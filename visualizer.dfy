/** The discrete decisions of the OpenCV visualiser (vision/shared/Visualizer.cpp):
    which colour a classifier is drawn in, which equalizer blocks are lit and
    where they go, which background pixels the logo overlay blends, the
    red-green colour generator and the one-time logo resize. Pixel blending
    and text rendering themselves are drawn by OpenCV and are not modelled. */
module Visualizer {
  import Numeric

  /** An OpenCV colour in B, G, R order. */
  datatype Scalar = Scalar(b: int, g: int, r: int)

  const White := Scalar(255, 255, 255)
  const PureRed := Scalar(0, 0, 255)
  const PureGreen := Scalar(0, 255, 0)
  const Grey := Scalar(186, 186, 186)

  /** Classifiers drawn in red and in green (RED_COLOR_CLASSIFIERS, GREEN_COLOR_CLASSIFIERS). */
  const RedColorClassifiers: set<string> := {"anger"}
  const GreenColorClassifiers: set<string> := {"joy"}

  /** ColorgenRedGreen(redVal, greenVal)(val): the position of val between
      the two ends, clamped to [0, 1], mixes red into green. */
  function ColorgenRedGreen(redVal: real, greenVal: real, val: real): (c: Scalar)
    requires redVal != greenVal
    ensures c.b == 0 && 0 <= c.g <= 255 && 0 <= c.r <= 255
    // the two channels always add up to full intensity, up to truncation
    ensures 254 <= c.g + c.r <= 255
  {
    var clamped := Clamp01((val - redVal) / (greenVal - redVal));
    var g := (clamped * 255.0).Floor;
    var r := ((1.0 - clamped) * 255.0).Floor;
    assert clamped * 255.0 + (1.0 - clamped) * 255.0 == 255.0;
    Scalar(0, g, r)
  }

  /** The normalised position, clamped to [0, 1]. */
  function Clamp01(norm: real): (c: real)
    ensures 0.0 <= c <= 1.0
  {
    if norm < 0.0 then 0.0 else if norm > 1.0 then 1.0 else norm
  }

  /** Along the scale from red to green, green never decreases and red never
      increases; at and beyond the ends the colour is pure red or pure green. */
  lemma ColorgenRedGreenMonotone(redVal: real, greenVal: real, v1: real, v2: real)
    requires redVal < greenVal && v1 <= v2
    ensures ColorgenRedGreen(redVal, greenVal, v1).g <= ColorgenRedGreen(redVal, greenVal, v2).g
    ensures ColorgenRedGreen(redVal, greenVal, v1).r >= ColorgenRedGreen(redVal, greenVal, v2).r
    ensures v1 <= redVal ==> ColorgenRedGreen(redVal, greenVal, v1) == PureRed
    ensures v2 >= greenVal ==> ColorgenRedGreen(redVal, greenVal, v2) == PureGreen
  {
    var d := greenVal - redVal;
    var c1, c2 := Clamp01((v1 - redVal) / d), Clamp01((v2 - redVal) / d);
    DivideMono(v1 - redVal, v2 - redVal, d);
    assert c1 <= c2;
    FloorMono(c1 * 255.0, c2 * 255.0);
    FloorMono((1.0 - c2) * 255.0, (1.0 - c1) * 255.0);
    if v1 <= redVal {
      DivideMono(v1 - redVal, 0.0, d);
      assert c1 == 0.0;
    }
    if v2 >= greenVal {
      DivideMono(d, v2 - redVal, d);
      assert c2 == 1.0;
    }
  }

  /** Dividing by a positive amount keeps the order. */
  lemma DivideMono(x: real, y: real, d: real)
    requires d > 0.0 && x <= y
    ensures x / d <= y / d && d / d == 1.0 && 0.0 / d == 0.0
  {
    assert y / d - x / d == (y - x) / d;
  }

  /** Rounding down keeps the order. */
  lemma FloorMono(x: real, y: real)
    requires x <= y
    ensures x.Floor <= y.Floor
  {
  }

  /** The colour drawClassifierOutput chooses: valence on the red-green scale
      from -100 to 100 (checked first), then red, then green classifiers,
      white for every other one. */
  function ClassifierColor(classifier: string, value: real): (c: Scalar)
    ensures classifier == "valence" ==> c == ColorgenRedGreen(-100.0, 100.0, value)
    ensures classifier != "valence" ==>
      c == (if classifier in RedColorClassifiers then PureRed
            else if classifier in GreenColorClassifiers then PureGreen
            else White)
  {
    if classifier == "valence" then ColorgenRedGreen(-100.0, 100.0, value)
    else if classifier in RedColorClassifiers then PureRed
    else if classifier in GreenColorClassifiers then PureGreen
    else White
  }

  /** Every classifier colour is either on the red-green scale (no blue, the
      other two adding to full intensity) or one of three fixed colours; only
      valence depends on the value. */
  lemma ClassifierColorRange(classifier: string, value: real, other: real)
    ensures var c := ClassifierColor(classifier, value);
      || (c.b == 0 && 254 <= c.g + c.r <= 255)
      || c == White
    ensures classifier != "valence" ==> ClassifierColor(classifier, value) == ClassifierColor(classifier, other)
    ensures ClassifierColor("anger", value) == PureRed && ClassifierColor("joy", value) == PureGreen
  {
  }

  /** The magnitude drawClassifierOutput passes to the equalizer. */
  function EqualizerMagnitude(classifier: string, value: real): (m: real)
    ensures classifier == "valence" ==> m == Numeric.AbsReal(value)
    ensures classifier != "valence" ==> m == value
  {
    if classifier == "valence" then Numeric.AbsReal(value) else value
  }

  // Geometry of drawEqualizer.
  const BlockWidth := 8
  const BlockHeight := 10
  const Margin := 2
  const BlockSize := 10
  const MaxBlocks := 10

  /** A block of the equalizer as drawn: its index, clipped region, colour and alpha. */
  datatype Block = Block(index: nat, x: int, y: int, width: int, height: int, color: Scalar, alpha: real)

  /** How far the cursor moves after a drawn block. */
  function Step(alignRight: bool): int {
    if alignRight then -(Margin + BlockWidth) else Margin + BlockWidth
  }

  /** Where block k would start if every earlier block had been drawn. */
  function CursorX(locX: int, alignRight: bool, k: nat): (i: int)
    ensures i == locX + Step(alignRight) * k
  {
    if alignRight then locX - (Margin + BlockWidth) * k else locX + (Margin + BlockWidth) * k
  }

  /** A block at cursor (i, j) is drawn unless its clipped width or height is negative. */
  predicate BlockFits(i: int, j: int, imgWidth: int, imgHeight: int) {
    Numeric.Min(BlockWidth, imgWidth - Numeric.Max(i, 0)) >= 0
    && Numeric.Min(BlockHeight, imgHeight - Numeric.Max(j, 0)) >= 0
  }

  /** The first block, from k on, that does not fit (MaxBlocks if all fit). */
  function FirstMisfit(locX: int, j: int, alignRight: bool, imgWidth: int, imgHeight: int, k: nat): (n: nat)
    requires k <= MaxBlocks
    ensures k <= n <= MaxBlocks
    ensures forall m :: k <= m < n ==> BlockFits(CursorX(locX, alignRight, m), j, imgWidth, imgHeight)
    ensures n < MaxBlocks ==> !BlockFits(CursorX(locX, alignRight, n), j, imgWidth, imgHeight)
    decreases MaxBlocks - k
  {
    if k == MaxBlocks then k
    else if !BlockFits(CursorX(locX, alignRight, k), j, imgWidth, imgHeight) then k
    else FirstMisfit(locX, j, alignRight, imgWidth, imgHeight, k + 1)
  }

  /** Block k drawn with the cursor at i: lit blocks take the classifier colour
      at alpha 0.8, the others grey at alpha 0.3. */
  function MakeBlock(k: nat, i: int, j: int, lit: int, color: Scalar, imgWidth: int, imgHeight: int): Block {
    var ii := Numeric.Max(i, 0);
    var jj := Numeric.Max(j, 0);
    Block(k, ii, jj,
          Numeric.Min(BlockWidth, imgWidth - ii), Numeric.Min(BlockHeight, imgHeight - jj),
          if k >= lit then Grey else color,
          if k >= lit then 0.3 else 0.8)
  }

  /** The blocks drawEqualizer draws. The cursor only advances after a drawn
      block, so once a block does not fit no later block is drawn either. */
  function EqualizerBlocks(value: real, locX: int, locY: int, alignRight: bool, color: Scalar,
                           imgWidth: int, imgHeight: int): seq<Block>
  {
    var lit := Numeric.RoundHalfAway(value / BlockSize as real);
    var n := FirstMisfit(locX, locY - 10, alignRight, imgWidth, imgHeight, 0);
    BlockRun(n, locX, locY - 10, alignRight, lit, color, imgWidth, imgHeight)
  }

  /** The first n blocks, each at the cursor it would have if every earlier
      block had been drawn. */
  function BlockRun(n: nat, locX: int, j: int, alignRight: bool, lit: int, color: Scalar,
                    imgWidth: int, imgHeight: int): (run: seq<Block>)
    ensures |run| == n
  {
    seq(n, k requires 0 <= k < n =>
      MakeBlock(k, CursorX(locX, alignRight, k), j, lit, color, imgWidth, imgHeight))
  }

  /** One block more extends the run by that block. */
  lemma BlockRunAppend(n: nat, locX: int, j: int, alignRight: bool, lit: int, color: Scalar,
                       imgWidth: int, imgHeight: int)
    ensures BlockRun(n + 1, locX, j, alignRight, lit, color, imgWidth, imgHeight)
         == BlockRun(n, locX, j, alignRight, lit, color, imgWidth, imgHeight)
            + [MakeBlock(n, CursorX(locX, alignRight, n), j, lit, color, imgWidth, imgHeight)]
  {
  }

  /** drawEqualizer: iterates exactly MaxBlocks blocks and returns the ones it draws. */
  method DrawEqualizer(value: real, locX: int, locY: int, alignRight: bool, color: Scalar,
                       imgWidth: int, imgHeight: int) returns (drawn: seq<Block>)
    ensures drawn == EqualizerBlocks(value, locX, locY, alignRight, color, imgWidth, imgHeight)
  {
    var blocks := Numeric.RoundHalfAway(value / BlockSize as real);
    var i, j := locX, locY - 10;
    ghost var n := FirstMisfit(locX, j, alignRight, imgWidth, imgHeight, 0);
    drawn := [];
    for x := 0 to 100 / BlockSize
      invariant x <= n ==> |drawn| == x
      invariant x > n ==> |drawn| == n
      invariant i == CursorX(locX, alignRight, |drawn|)
      invariant drawn == BlockRun(|drawn|, locX, j, alignRight, blocks, color, imgWidth, imgHeight)
    {
      var ii := Numeric.Max(i, 0);
      var jj := Numeric.Max(j, 0);
      var width := Numeric.Min(BlockWidth, imgWidth - ii);
      var height := Numeric.Min(BlockHeight, imgHeight - jj);
      if height < 0 || width < 0 {
        assert !BlockFits(CursorX(locX, alignRight, |drawn|), j, imgWidth, imgHeight);
        assert n <= |drawn|;
        continue;
      }
      assert BlockFits(CursorX(locX, alignRight, |drawn|), j, imgWidth, imgHeight);
      assert x < n && |drawn| == x;
      var scalarColor, alpha := color, 0.8;
      if x >= blocks {
        alpha := 0.3;
        scalarColor := Grey;
      }
      assert Block(x, ii, jj, width, height, scalarColor, alpha)
          == MakeBlock(x, CursorX(locX, alignRight, x), j, blocks, color, imgWidth, imgHeight);
      BlockRunAppend(x, locX, j, alignRight, blocks, color, imgWidth, imgHeight);
      drawn := drawn + [Block(x, ii, jj, width, height, scalarColor, alpha)];
      i := i + Step(alignRight);
    }
    assert |drawn| == n;
  }

  /** What the equalizer shows: at most ten blocks, ten pixels apart in the
      alignment direction, block k lit exactly when k < round(value / 10); all
      ten are drawn when the whole strip lies inside the image. */
  lemma EqualizerShape(value: real, locX: int, locY: int, alignRight: bool, color: Scalar,
                       imgWidth: int, imgHeight: int)
    ensures var drawn := EqualizerBlocks(value, locX, locY, alignRight, color, imgWidth, imgHeight);
      && |drawn| <= MaxBlocks
      && (forall k :: 0 <= k < |drawn| ==>
            && drawn[k].index == k
            && drawn[k].x == Numeric.Max(locX + Step(alignRight) * k, 0)
            && drawn[k].y == Numeric.Max(locY - 10, 0)
            && 0 <= drawn[k].width <= BlockWidth && 0 <= drawn[k].height <= BlockHeight
            && ((drawn[k].color == color && drawn[k].alpha == 0.8)
                <==> k < Numeric.RoundHalfAway(value / 10.0)))
      && (|drawn| < MaxBlocks ==>
            !BlockFits(CursorX(locX, alignRight, |drawn|), locY - 10, imgWidth, imgHeight))
    ensures 0 <= locY - 10 <= imgHeight && 0 <= locX && locX + 90 <= imgWidth && !alignRight ==>
      |EqualizerBlocks(value, locX, locY, alignRight, color, imgWidth, imgHeight)| == MaxBlocks
    ensures 0 <= locY - 10 <= imgHeight && 0 <= imgWidth && locX <= imgWidth && alignRight ==>
      |EqualizerBlocks(value, locX, locY, alignRight, color, imgWidth, imgHeight)| == MaxBlocks
  {
    var drawn := EqualizerBlocks(value, locX, locY, alignRight, color, imgWidth, imgHeight);
    var lit := Numeric.RoundHalfAway(value / 10.0);
    var n := FirstMisfit(locX, locY - 10, alignRight, imgWidth, imgHeight, 0);
    assert |drawn| == n;
    forall k | 0 <= k < |drawn|
      ensures && drawn[k].index == k
              && drawn[k].x == Numeric.Max(locX + Step(alignRight) * k, 0)
              && drawn[k].y == Numeric.Max(locY - 10, 0)
              && 0 <= drawn[k].width <= BlockWidth && 0 <= drawn[k].height <= BlockHeight
              && ((drawn[k].color == color && drawn[k].alpha == 0.8) <==> k < lit)
    {
      MadeBlockShape(k, CursorX(locX, alignRight, k), locY - 10, lit, color, imgWidth, imgHeight);
    }
  }

  /** A block that fits lies at the clipped cursor, is at most one block in
      size, and is lit exactly when its index is below the lit count. */
  lemma MadeBlockShape(k: nat, i: int, j: int, lit: int, color: Scalar, imgWidth: int, imgHeight: int)
    requires BlockFits(i, j, imgWidth, imgHeight)
    ensures var b := MakeBlock(k, i, j, lit, color, imgWidth, imgHeight);
      && b.index == k && b.x == Numeric.Max(i, 0) && b.y == Numeric.Max(j, 0)
      && 0 <= b.width <= BlockWidth && 0 <= b.height <= BlockHeight
      && ((b.color == color && b.alpha == 0.8) <==> k < lit)
  {
    if k >= lit {
      assert MakeBlock(k, i, j, lit, color, imgWidth, imgHeight).alpha == 0.3;
    }
  }

  /** An image as rows x columns x channels of byte values. */
  type Image = array3<int>

  /** The blended value of one channel: background weighted by 1 - alpha/255,
      foreground by alpha/255, truncated to an integer. */
  function Blend(bgPx: int, fgPx: int, alpha: int): int
  {
    (bgPx * (255 - alpha) + fgPx * alpha) / 255
  }

  /** A blended byte lies between the two values it mixes, so it is a byte
      again; a fully opaque foreground pixel replaces the background. */
  lemma BlendBetween(bgPx: int, fgPx: int, alpha: int)
    requires 0 <= bgPx <= 255 && 0 <= fgPx <= 255 && 0 < alpha <= 255
    ensures Numeric.Min(bgPx, fgPx) <= Blend(bgPx, fgPx, alpha) <= Numeric.Max(bgPx, fgPx)
    ensures alpha == 255 ==> Blend(bgPx, fgPx, alpha) == fgPx
  {
    var lo, hi := Numeric.Min(bgPx, fgPx), Numeric.Max(bgPx, fgPx);
    var s := bgPx * (255 - alpha) + fgPx * alpha;
    MulMono(lo, bgPx, 255 - alpha);
    MulMono(bgPx, hi, 255 - alpha);
    MulMono(lo, fgPx, alpha);
    MulMono(fgPx, hi, alpha);
    SplitWeight(lo, alpha);
    SplitWeight(hi, alpha);
    DivBetween(lo, hi, s);
    if alpha == 255 {
      assert s == fgPx * 255;
    }
  }

  /** Multiplying by a non-negative factor keeps the order. */
  lemma MulMono(a: int, b: int, c: int)
    requires a <= b && 0 <= c
    ensures a * c <= b * c
  {
  }

  /** The two weights of a blend add up to 255. */
  lemma SplitWeight(x: int, alpha: int)
    ensures x * (255 - alpha) + x * alpha == x * 255
  {
  }

  /** A value between 255 lo and 255 hi divides to a value between lo and hi. */
  lemma DivBetween(lo: int, hi: int, s: int)
    requires lo * 255 <= s <= hi * 255
    ensures lo <= s / 255 <= hi
  {
  }

  /** Whether background pixel (y, x) lies under the foreground placed at (locX, locY). */
  predicate Covered(y: int, x: int, locX: int, locY: int, fgRows: int, fgCols: int) {
    && y >= Numeric.Max(locY, 0) && x >= Numeric.Max(locX, 0)
    && y - locY < fgRows && x - locX < fgCols
  }

  /** overlayImage: blends the foreground, placed with its corner at
      (locX, locY), into the background using the foreground's last channel as
      opacity; only background channels are blended, only where the opacity is
      above zero, and every other background value is left as it was. */
  method OverlayImage(foreground: Image, background: Image, locX: int, locY: int)
    requires foreground != background
    requires 1 <= foreground.Length2 && background.Length2 <= foreground.Length2
    modifies background
    ensures forall y, x, c :: 0 <= y < background.Length0 && 0 <= x < background.Length1 && 0 <= c < background.Length2 ==>
      background[y, x, c] ==
        if Covered(y, x, locX, locY, foreground.Length0, foreground.Length1)
           && foreground[y - locY, x - locX, foreground.Length2 - 1] > 0
        then Blend(old(background[y, x, c]), foreground[y - locY, x - locX, c],
                   foreground[y - locY, x - locX, foreground.Length2 - 1])
        else old(background[y, x, c])
  {
    var y := Numeric.Max(locY, 0);
    while y < background.Length0
      invariant y >= Numeric.Max(locY, 0)
      invariant forall y', x, c :: 0 <= y' < background.Length0 && 0 <= x < background.Length1 && 0 <= c < background.Length2 ==>
        background[y', x, c] ==
          if y' < y && Covered(y', x, locX, locY, foreground.Length0, foreground.Length1)
             && foreground[y' - locY, x - locX, foreground.Length2 - 1] > 0
          then Blend(old(background[y', x, c]), foreground[y' - locY, x - locX, c],
                     foreground[y' - locY, x - locX, foreground.Length2 - 1])
          else old(background[y', x, c])
    {
      var fY := y - locY;
      if fY >= foreground.Length0 {
        break;
      }
      OverlayRow(foreground, background, locX, locY, y);
      y := y + 1;
    }
  }

  /** One row of overlayImage: the column loop and the channel loop. */
  method OverlayRow(foreground: Image, background: Image, locX: int, locY: int, y: int)
    requires foreground != background
    requires 1 <= foreground.Length2 && background.Length2 <= foreground.Length2
    requires Numeric.Max(locY, 0) <= y < background.Length0 && y - locY < foreground.Length0
    modifies background
    ensures forall y', x, c :: 0 <= y' < background.Length0 && 0 <= x < background.Length1 && 0 <= c < background.Length2 ==>
      background[y', x, c] ==
        if y' == y && Covered(y', x, locX, locY, foreground.Length0, foreground.Length1)
           && foreground[y' - locY, x - locX, foreground.Length2 - 1] > 0
        then Blend(old(background[y', x, c]), foreground[y' - locY, x - locX, c],
                   foreground[y' - locY, x - locX, foreground.Length2 - 1])
        else old(background[y', x, c])
  {
    var fY := y - locY;
    var x := Numeric.Max(locX, 0);
    while x < background.Length1
      invariant x >= Numeric.Max(locX, 0)
      invariant forall y', x', c :: 0 <= y' < background.Length0 && 0 <= x' < background.Length1 && 0 <= c < background.Length2 ==>
        background[y', x', c] ==
          if y' == y && x' < x && Covered(y', x', locX, locY, foreground.Length0, foreground.Length1)
             && foreground[y' - locY, x' - locX, foreground.Length2 - 1] > 0
          then Blend(old(background[y', x', c]), foreground[y' - locY, x' - locX, c],
                     foreground[y' - locY, x' - locX, foreground.Length2 - 1])
          else old(background[y', x', c])
    {
      var fX := x - locX;
      if fX >= foreground.Length1 {
        break;
      }
      var alpha := foreground[fY, fX, foreground.Length2 - 1];
      var c := 0;
      while alpha > 0 && c < background.Length2
        invariant 0 <= c <= background.Length2
        invariant alpha <= 0 ==> c == 0
        invariant forall y', x', c' :: 0 <= y' < background.Length0 && 0 <= x' < background.Length1 && 0 <= c' < background.Length2 ==>
          background[y', x', c'] ==
            if y' == y && (x' < x || (x' == x && c' < c)) && Covered(y', x', locX, locY, foreground.Length0, foreground.Length1)
               && foreground[y' - locY, x' - locX, foreground.Length2 - 1] > 0
            then Blend(old(background[y', x', c']), foreground[y' - locY, x' - locX, c'],
                       foreground[y' - locY, x' - locX, foreground.Length2 - 1])
            else old(background[y', x', c'])
      {
        background[y, x, c] := Blend(background[y, x, c], foreground[fY, fX, c], alpha);
        c := c + 1;
      }
      x := x + 1;
    }
  }

  /** A rectangle of the image: origin, width, height. */
  datatype Rect = Rect(x: int, y: int, width: int, height: int)

  /** The logo width updateImage chooses: the logo's own width, or a quarter
      of the image width when the logo is wider than that, truncated. */
  function ResizedLogoWidth(logoWidth: int, imgWidth: int): (w: int)
    requires imgWidth >= 0
    ensures w == Numeric.Min(logoWidth, imgWidth / 4)
  {
    var quarter := imgWidth as real * 0.25;
    var chosen := if logoWidth as real > quarter then quarter else logoWidth as real;
    chosen.Floor
  }

  /** The logo's state in the visualiser. */
  class LogoState {
    var logoResized: bool
    var logoWidth: int
    var logoHeight: int

    ghost predicate Valid()
      reads this
    {
      // the logo is only divided by its width before it is resized
      logoResized || (logoWidth > 0 && logoHeight >= 0)
    }

    /** The decoded logo starts at its own size, not yet resized. */
    constructor (width: int, height: int)
      requires width > 0 && height >= 0
      ensures Valid() && !logoResized && logoWidth == width && logoHeight == height
    {
      logoResized := false;
      logoWidth := width;
      logoHeight := height;
    }

    /** updateImage: resizes the logo on the first call only, keeping its
        aspect ratio, and returns the region at the top right where it is overlaid. */
    method UpdateImage(imgWidth: nat) returns (roi: Rect)
      requires Valid()
      modifies this
      ensures Valid() && logoResized
      ensures old(logoResized) ==> logoWidth == old(logoWidth) && logoHeight == old(logoHeight)
      ensures !old(logoResized) ==>
        && logoWidth == Numeric.Min(old(logoWidth), imgWidth / 4)
        && logoHeight == (ResizedLogoWidthReal(old(logoWidth), imgWidth) * (old(logoHeight) as real / old(logoWidth) as real)).Floor
      ensures roi == Rect(imgWidth - logoWidth - 10, 10, logoWidth, logoHeight)
    {
      if !logoResized {
        var w := ResizedLogoWidthReal(logoWidth, imgWidth);
        var h := w * (logoHeight as real / logoWidth as real);
        logoWidth := ResizedLogoWidth(logoWidth, imgWidth);
        logoHeight := h.Floor;
        logoResized := true;
      }
      roi := Rect(imgWidth - logoWidth - 10, 10, logoWidth, logoHeight);
    }
  }

  /** The logo width before truncation, as updateImage computes it in double. */
  function ResizedLogoWidthReal(logoWidth: int, imgWidth: int): real {
    var quarter := imgWidth as real * 0.25;
    if logoWidth as real > quarter then quarter else logoWidth as real
  }
}
