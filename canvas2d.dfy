/**
 * The part of an HTML canvas and its 2D context that the toolkit drives:
 * the bitmap size, the context's `fillStyle` and `imageSmoothingEnabled`
 * state, and the drawing calls, kept as an ordered log of operations
 * instead of pixels.
 */
module Canvas2D {

  /** One drawing call, with the `fillStyle` in force when it was made. */
  datatype Op =
    | FillRect(style: string, x: int, y: int, w: int, h: int)
    | DrawImage(source: string, x: int, y: int, w: int, h: int)
    | FillText(style: string, text: string, x: int, y: int)

  /** The default `fillStyle` of a fresh or reset 2D context. */
  const DefaultFillStyle: string := "#000000"

  class Canvas {
    var width: nat
    var height: nat
    /** The drawing calls made since the bitmap was last cleared, oldest first. */
    var ops: seq<Op>
    var fillStyle: string
    var smoothing: bool
    /** Whether `getContext("2d")` gives a context (it gives `null` when the browser cannot create one). */
    const hasContext: bool

    /** A new canvas element: 300×150, blank, default context state. */
    constructor (hasContext: bool)
      ensures width == 300 && height == 150 && ops == []
      ensures fillStyle == DefaultFillStyle && smoothing
      ensures this.hasContext == hasContext
    {
      width := 300;
      height := 150;
      ops := [];
      fillStyle := DefaultFillStyle;
      smoothing := true;
      this.hasContext := hasContext;
    }

    /** Assigning `canvas.width` clears the bitmap and resets the context state. */
    method SetWidth(w: nat)
      modifies this
      ensures width == w && height == old(height)
      ensures ops == [] && fillStyle == DefaultFillStyle && smoothing
    {
      width := w;
      ops := [];
      fillStyle := DefaultFillStyle;
      smoothing := true;
    }

    /** Assigning `canvas.height` clears the bitmap and resets the context state. */
    method SetHeight(h: nat)
      modifies this
      ensures height == h && width == old(width)
      ensures ops == [] && fillStyle == DefaultFillStyle && smoothing
    {
      height := h;
      ops := [];
      fillStyle := DefaultFillStyle;
      smoothing := true;
    }

    method SetFillStyle(style: string)
      modifies this
      ensures fillStyle == style
      ensures width == old(width) && height == old(height) && ops == old(ops) && smoothing == old(smoothing)
    {
      fillStyle := style;
    }

    method SetSmoothing(on: bool)
      modifies this
      ensures smoothing == on
      ensures width == old(width) && height == old(height) && ops == old(ops) && fillStyle == old(fillStyle)
    {
      smoothing := on;
    }

    /** `ctx.fillRect(x, y, w, h)` in the current fill style. */
    method Fill(x: int, y: int, w: int, h: int)
      modifies this
      ensures ops == old(ops) + [FillRect(fillStyle, x, y, w, h)]
      ensures width == old(width) && height == old(height) && fillStyle == old(fillStyle) && smoothing == old(smoothing)
    {
      ops := ops + [FillRect(fillStyle, x, y, w, h)];
    }

    /** `ctx.drawImage(img, x, y, w, h)`; the image is named by its source URL. */
    method Draw(source: string, x: int, y: int, w: int, h: int)
      modifies this
      ensures ops == old(ops) + [DrawImage(source, x, y, w, h)]
      ensures width == old(width) && height == old(height) && fillStyle == old(fillStyle) && smoothing == old(smoothing)
    {
      ops := ops + [DrawImage(source, x, y, w, h)];
    }

    /** `ctx.fillText(text, x, y)` in the current fill style; `y` is the baseline. */
    method Text(text: string, x: int, y: int)
      modifies this
      ensures ops == old(ops) + [FillText(fillStyle, text, x, y)]
      ensures width == old(width) && height == old(height) && fillStyle == old(fillStyle) && smoothing == old(smoothing)
    {
      ops := ops + [FillText(fillStyle, text, x, y)];
    }
  }

  /** The rectangle `[x, x + w) × [y, y + h)` lies on a `width × height` bitmap. */
  predicate Inside(x: int, y: int, w: int, h: int, width: int, height: int) {
    0 <= x && 0 <= y && 0 <= w && 0 <= h && x + w <= width && y + h <= height
  }

  /** The rectangles `[x1, x1 + w1) × [y1, y1 + h1)` and `[x2, x2 + w2) × [y2, y2 + h2)` share no point. */
  predicate Disjoint(x1: int, y1: int, w1: int, h1: int, x2: int, y2: int, w2: int, h2: int) {
    x1 + w1 <= x2 || x2 + w2 <= x1 || y1 + h1 <= y2 || y2 + h2 <= y1
  }

  /** `a * s + s <= b * s` when `a < b`: the next cell of a grid with pitch `s` starts no earlier. */
  lemma MulStep(a: nat, b: nat, s: nat)
    requires a < b
    ensures a * s + s <= b * s
  {
    var d := b - a - 1;
    assert b * s == a * s + s + d * s;
  }
}
