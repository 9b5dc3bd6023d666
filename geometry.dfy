/**
 The padding arithmetic of the four standardisation routines. Each routine reads the
 source's width and height, picks a canvas (4:5 portrait or square) and places the
 source on it without scaling: images are pasted at an offset on a fresh canvas, videos
 get four margins.

 The script compares and sizes with floating point (`width / height > 4 / 5`,
 `int(width / (4 / 5))`, `int(height * (4 / 5))`). Here the comparison is done by
 cross-multiplication and each `int(...)` is the exact floor `(5 * w) / 4` or
 `(4 * h) / 5`, on the assumption that the float arithmetic agrees with them.
 */
module Geometry {

  datatype Size = Size(width: int, height: int)

  /** The size of decodable media: both sides positive. */
  type Dims = s: Size | 0 < s.width && 0 < s.height witness Size(1, 1)

  /** Where an image of the source's size is pasted on a new canvas. */
  datatype Placement = Placement(canvas: Size, offsetX: int, offsetY: int)

  /** The margins added around a video frame. */
  datatype Margins = Margins(top: int, bottom: int, left: int, right: int)

  /** A `w` x `h` picture pasted at the placement's offset lies wholly on the canvas. */
  predicate Inside(p: Placement, w: int, h: int) {
    && 0 <= p.offsetX && p.offsetX + w <= p.canvas.width
    && 0 <= p.offsetY && p.offsetY + h <= p.canvas.height
  }

  /** The space left of (above) the picture equals the space right of (below) it, or is one less. */
  predicate Centered(p: Placement, w: int, h: int) {
    && 2 * p.offsetX + w <= p.canvas.width <= 2 * p.offsetX + w + 1
    && 2 * p.offsetY + h <= p.canvas.height <= 2 * p.offsetY + h + 1
  }

  /** The frame size of a video after the margins are added. */
  function Padded(m: Margins, w: int, h: int): Size {
    Size(m.left + w + m.right, m.top + h + m.bottom)
  }

  /** `width / height > 4 / 5`: the source is wider than the 4:5 target. */
  predicate WiderThanTarget(w: int, h: int) {
    5 * w > 4 * h
  }

  // ---------------------------------------------------------------------------
  // 4:5 portrait ("instagram_aspect_ratio")
  // ---------------------------------------------------------------------------

  /**
   standardize_image_instagram_aspect_ratio: a source wider than 4:5 keeps its width
   and gets the tallest height `H` with `4 * H <= 5 * w`; any other source keeps its
   height and gets the widest width `W` with `5 * W <= 4 * h`. The source is pasted
   centred on the padded axis.
   */
  function ImageAspectRatio(w: int, h: int): (p: Placement)
    requires 0 < w && 0 < h
    ensures Inside(p, w, h) && Centered(p, w, h)
    ensures WiderThanTarget(w, h) ==>
              && p.canvas.width == w && p.offsetX == 0
              && 4 * p.canvas.height <= 5 * w < 4 * (p.canvas.height + 1)
    ensures !WiderThanTarget(w, h) ==>
              && p.canvas.height == h && p.offsetY == 0
              && 5 * p.canvas.width <= 4 * h < 5 * (p.canvas.width + 1)
    ensures 5 * w == 4 * h ==> p == Placement(Size(w, h), 0, 0)
  {
    if WiderThanTarget(w, h) then
      var newHeight := (5 * w) / 4;
      Placement(Size(w, newHeight), 0, (newHeight - h) / 2)
    else
      var newWidth := (4 * h) / 5;
      Placement(Size(newWidth, h), (newWidth - w) / 2, 0)
  }

  /**
   The 4:5 canvas misses the exact ratio only by the truncation: `4 * height - 5 * width`
   lies between -3 and 4, and is 0 only when the truncation loses nothing.
   */
  lemma ImageAspectRatioNearTarget(w: int, h: int)
    requires 0 < w && 0 < h
    ensures var c := ImageAspectRatio(w, h).canvas;
            -3 <= 4 * c.height - 5 * c.width <= 4
    ensures var c := ImageAspectRatio(w, h).canvas;
            4 * c.height == 5 * c.width <==>
              if WiderThanTarget(w, h) then (5 * w) % 4 == 0 else (4 * h) % 5 == 0
  {
  }

  /** Standardising the standardised canvas again adds no padding: the canvas is a fixed point. */
  lemma ImageAspectRatioIdempotent(w: int, h: int)
    requires 0 < w && 0 < h
    ensures var c := ImageAspectRatio(w, h).canvas;
            ImageAspectRatio(c.width, c.height) == Placement(c, 0, 0)
  {
    var c := ImageAspectRatio(w, h).canvas;
    if WiderThanTarget(w, h) {
      assert c.width == w && 4 * c.height <= 5 * w < 4 * c.height + 4;
      if !WiderThanTarget(c.width, c.height) {
        assert 5 * c.width == 4 * c.height;
      }
    } else {
      assert c.height == h && 5 * c.width <= 4 * h;
      assert !WiderThanTarget(c.width, c.height);
    }
  }

  /**
   standardize_video_instagram_aspect_ratio: the same 4:5 target, but the same
   margin `(target - size) // 2` on both sides of the padded axis and none on the
   other, so an odd slack loses one row (or column) against the target.
   */
  function VideoAspectRatio(w: int, h: int): (m: Margins)
    requires 0 < w && 0 < h
    ensures m.top == m.bottom && m.left == m.right
    ensures 0 <= m.top && 0 <= m.left
    ensures WiderThanTarget(w, h) ==>
              m.left == 0 && 4 * (m.top + h + m.bottom) <= 5 * w < 4 * (m.top + h + m.bottom + 2)
    ensures !WiderThanTarget(w, h) ==>
              m.top == 0 && 5 * (m.left + w + m.right) <= 4 * h < 5 * (m.left + w + m.right + 2)
  {
    if WiderThanTarget(w, h) then
      var newHeight := (5 * w) / 4;
      var yPadding := (newHeight - h) / 2;
      Margins(yPadding, yPadding, 0, 0)
    else
      var newWidth := (4 * h) / 5;
      var xPadding := (newWidth - w) / 2;
      Margins(0, 0, xPadding, xPadding)
  }

  /**
   The video margins are the image offsets on both sides, and the padded frame is
   the image canvas, or one row (column) short of it exactly when the slack is odd.
   */
  lemma VideoAspectRatioMatchesImage(w: int, h: int)
    requires 0 < w && 0 < h
    ensures var m, p := VideoAspectRatio(w, h), ImageAspectRatio(w, h);
            var out := Padded(m, w, h);
            && m.top == p.offsetY && m.left == p.offsetX
            && out.width <= p.canvas.width && out.height <= p.canvas.height
            && (out == p.canvas <==> (p.canvas.width - w) % 2 == 0 && (p.canvas.height - h) % 2 == 0)
  {
    if WiderThanTarget(w, h) {
      var slack := (5 * w) / 4 - h;
      assert slack >= 0;
      assert ImageAspectRatio(w, h) == Placement(Size(w, h + slack), 0, slack / 2);
      assert VideoAspectRatio(w, h) == Margins(slack / 2, slack / 2, 0, 0);
      assert slack == 2 * (slack / 2) + slack % 2;
    } else {
      var slack := (4 * h) / 5 - w;
      assert slack >= 0;
      assert ImageAspectRatio(w, h) == Placement(Size(w + slack, h), slack / 2, 0);
      assert VideoAspectRatio(w, h) == Margins(0, 0, slack / 2, slack / 2);
      assert slack == 2 * (slack / 2) + slack % 2;
    }
  }

  /** Re-standardising a padded video adds no margins. */
  lemma VideoAspectRatioIdempotent(w: int, h: int)
    requires 0 < w && 0 < h
    ensures var out := Padded(VideoAspectRatio(w, h), w, h);
            VideoAspectRatio(out.width, out.height) == Margins(0, 0, 0, 0)
  {
    var m := VideoAspectRatio(w, h);
    var out := Padded(m, w, h);
    if WiderThanTarget(w, h) {
      assert out.width == w;
      assert 4 * out.height <= 5 * w < 4 * out.height + 8;
      if WiderThanTarget(out.width, out.height) {
        assert (5 * w) / 4 - out.height <= 1;
      } else {
        assert 5 * w == 4 * out.height;
      }
    } else {
      assert out.height == h;
      assert 5 * out.width <= 4 * h < 5 * out.width + 10;
      assert !WiderThanTarget(out.width, out.height);
      assert (4 * h) / 5 - out.width <= 1;
    }
  }

  // ---------------------------------------------------------------------------
  // Square ("square_shape")
  // ---------------------------------------------------------------------------

  /**
   standardize_image_square_shape: a square canvas whose side is the longer source
   side, the source centred along the shorter one.
   */
  function ImageSquare(w: int, h: int): (p: Placement)
    requires 0 < w && 0 < h
    ensures p.canvas.width == p.canvas.height
    ensures w <= p.canvas.width && h <= p.canvas.height
    ensures p.canvas.width == w || p.canvas.width == h
    ensures Inside(p, w, h) && Centered(p, w, h)
    ensures w > h ==> p.offsetX == 0
    ensures w <= h ==> p.offsetY == 0
    ensures w == h ==> p == Placement(Size(w, h), 0, 0)
  {
    var side := if w > h then w else h;
    if w > h then
      Placement(Size(side, side), 0, (side - h) / 2)
    else
      Placement(Size(side, side), (side - w) / 2, 0)
  }

  /**
   standardize_video_square_shape: margins on the shorter axis that add up to the
   difference between the sides, the odd pixel going to the bottom (right).
   */
  function VideoSquare(w: int, h: int): (m: Margins)
    requires 0 < w && 0 < h
    ensures var out := Padded(m, w, h);
            out.width == out.height && (out.width == w || out.width == h)
    ensures 0 <= m.top <= m.bottom <= m.top + 1
    ensures 0 <= m.left <= m.right <= m.left + 1
    ensures w > h ==> m.left == 0 && m.right == 0
    ensures w <= h ==> m.top == 0 && m.bottom == 0
  {
    var side := if w > h then w else h;
    if w > h then
      var top := (side - h) / 2;
      Margins(top, side - h - top, 0, 0)
    else
      var left := (side - w) / 2;
      Margins(0, 0, left, side - w - left)
  }

  /** The square video gets exactly the image's canvas, with the image's offsets as top and left margins. */
  lemma VideoSquareMatchesImage(w: int, h: int)
    requires 0 < w && 0 < h
    ensures var m, p := VideoSquare(w, h), ImageSquare(w, h);
            Padded(m, w, h) == p.canvas && m.top == p.offsetY && m.left == p.offsetX
  {
  }

  /** Squaring a square source, or the output of a squaring, adds nothing. */
  lemma SquareIdempotent(w: int, h: int)
    requires 0 < w && 0 < h
    ensures var c := ImageSquare(w, h).canvas;
            ImageSquare(c.width, c.height) == Placement(c, 0, 0)
    ensures var out := Padded(VideoSquare(w, h), w, h);
            VideoSquare(out.width, out.height) == Margins(0, 0, 0, 0)
  {
  }
}
