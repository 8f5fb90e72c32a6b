/**
 Pixels, filled rectangles and clearing on a linear framebuffer, in 32-bit arithmetic.
 */
module Framebuffer {
  import opened Arithmetic

  const MOD: nat := 0x1_0000_0000

  type Word = x: int | 0 <= x < MOD witness 0

  /** How far b is past a, going round at 2^32. */
  function Past(a: nat, b: nat): nat { (b - a) % MOD }

  /** Pixel (px, py) is in the rectangle, whose coordinates go round at 2^32. */
  predicate Inside(x: nat, y: nat, w: nat, h: nat, px: nat, py: nat) {
    Past(x, px) < w && Past(y, py) < h
  }

  /** Word k of the framebuffer is pixel (k % stride, k / stride). */
  predicate Covered(stride: nat, width: nat, height: nat, x: nat, y: nat, w: nat, h: nat, k: nat)
    requires stride > 0
  {
    k % stride < width && k / stride < height && Inside(x, y, w, h, k % stride, k / stride)
  }

  lemma PixelIndex(stride: nat, px: nat, py: nat)
    requires px < stride
    ensures (py * stride + px) % stride == px && (py * stride + px) / stride == py
  {
    QuotientUnique(py * stride + px, stride, py, px);
  }

  lemma PixelInRange(stride: nat, height: nat, px: nat, py: nat)
    requires px < stride && py < height
    ensures py * stride + px < height * stride
  {
    Below(py + 1, height, stride);
  }

  /** Stepping d from a lands on b exactly when b is d past a. */
  lemma StepIsPast(a: nat, d: nat, b: nat)
    requires a < MOD && d < MOD && b < MOD
    ensures (a + d) % MOD == b <==> Past(a, b) == d
  {
  }

  /** For a rectangle that does not reach 2^32, inside means between its edges. */
  lemma InsideIsBetween(x: nat, y: nat, w: nat, h: nat, px: nat, py: nat)
    requires px < MOD && py < MOD && x + w <= MOD && y + h <= MOD
    ensures Inside(x, y, w, h, px, py) <==> (x <= px < x + w && y <= py < y + h)
  {
  }

  /** On the screen, exactly the pixels of the rectangle are covered, each by its own word. */
  lemma CoveredIsIntersection(stride: nat, width: nat, height: nat, x: nat, y: nat, w: nat, h: nat, px: nat, py: nat)
    requires 0 < stride && width <= stride < MOD && height < MOD && x + w <= MOD && y + h <= MOD
    requires px < width && py < height
    ensures Covered(stride, width, height, x, y, w, h, py * stride + px) <==> (x <= px < x + w && y <= py < y + h)
    ensures forall k: nat :: k % stride == px && k / stride == py ==> k == py * stride + px
  {
    hide Inside;
    PixelIndex(stride, px, py);
    InsideIsBetween(x, y, w, h, px, py);
    forall k: nat | k % stride == px && k / stride == py ensures k == py * stride + px {
      DivMod(k, stride);
    }
  }

  /** In general a covered word shows a pixel that some step along each side of the rectangle reaches, going round at 2^32. */
  lemma CoveredIsReached(stride: nat, width: nat, height: nat, x: nat, y: nat, w: nat, h: nat, px: nat, py: nat)
    requires 0 < stride && width <= stride < MOD && height < MOD && x < MOD && y < MOD && w < MOD && h < MOD
    requires px < width && py < height
    ensures Covered(stride, width, height, x, y, w, h, py * stride + px) <==>
      (exists dx: nat :: dx < w && Along(x, dx) == px) && (exists dy: nat :: dy < h && Along(y, dy) == py)
    ensures forall k: nat :: k % stride >= width || k / stride >= height ==> !Covered(stride, width, height, x, y, w, h, k)
    ensures MOD == 4294967296
  {
    hide Past, Along;
    PixelIndex(stride, px, py);
    Reached(x, px, w);
    Reached(y, py, h);
  }

  /** The coordinate d past a. */
  function Along(a: nat, d: nat): (r: nat)
    ensures r < MOD && (r - a - d) % MOD == 0
  {
    (a + d) % MOD
  }

  lemma Reached(a: nat, b: nat, n: nat)
    requires a < MOD && b < MOD && n < MOD
    ensures Past(a, b) < n <==> exists d: nat :: d < n && Along(a, d) == b
  {
    PastNotNegative(a, b);
    StepIsPast(a, Past(a, b), b);
    assert Along(a, Past(a, b)) == b;
    if d: nat :| d < n && Along(a, d) == b { StepIsPast(a, d, b); }
  }

  class Screen {
    const fb: array?<Word>
    const pitch: nat
    const width: nat
    const height: nat

    constructor (fb: array?<Word>, pitch: nat, width: nat, height: nat)
      ensures this.fb == fb && this.pitch == pitch && this.width == width && this.height == height
      ensures Valid() <==>
        && width < MOD && height < MOD && pitch >= 4 && width <= pitch / 4 && height * (pitch / 4) < MOD
        && (fb != null ==> height * (pitch / 4) <= fb.Length)
    {
      this.fb, this.pitch, this.width, this.height := fb, pitch, width, height;
    }

    function Stride(): nat { pitch / 4 }

    /** Rows do not overlap, and the buffer holds them all within the 32-bit index. */
    ghost predicate Valid() {
      && width < MOD && height < MOD && 0 < Stride() && width <= Stride()
      && height * Stride() < MOD
      && (fb != null ==> height * Stride() <= fb.Length)
    }

    function Col(k: nat): nat requires Stride() > 0 { k % Stride() }

    function Row(k: nat): nat requires Stride() > 0 { k / Stride() }

    /** Word k shows pixel (px, py), if that is on the screen. */
    predicate Shows(k: nat, px: nat, py: nat)
      requires Stride() > 0
    {
      px < width && py < height && Col(k) == px && Row(k) == py
    }

    method PutPixel(x: nat, y: nat, color: Word)
      requires Valid() && x < MOD && y < MOD
      modifies fb
      ensures fb != null ==> forall k :: 0 <= k < fb.Length ==> fb[k] == if Shows(k, x, y) then color else old(fb[k])
      ensures fb != null && x < width && y < height ==> y * (pitch / 4) + x < fb.Length && fb[y * (pitch / 4) + x] == color
      ensures fb != null ==> forall k :: 0 <= k < fb.Length && !(x < width && y < height && k == y * (pitch / 4) + x) ==> fb[k] == old(fb[k])
    {
      Bounded();
      hide Valid, Stride, Col, Row;
      if fb == null || x >= width || y >= height { return; }
      OneWord(x, y);
      IndexFits(x, y);
      var offset := (y * Stride() % MOD + x) % MOD;
      fb[offset] := color;
    }

    /** A pixel on the screen is shown by one word. */
    lemma OneWord(x: nat, y: nat)
      requires Valid() && x < width && y < height
      ensures forall k: nat :: Shows(k, x, y) <==> k == y * Stride() + x
    {
      forall k: nat ensures Shows(k, x, y) <==> k == y * Stride() + x {
        DivMod(k, Stride());
        PixelIndex(Stride(), x, y);
        hide Valid, Stride;
      }
    }

    /** Its index needs no more than 32 bits, and lies in the buffer. */
    lemma IndexFits(x: nat, y: nat)
      requires Valid() && x < width && y < height
      ensures (y * Stride() % MOD + x) % MOD == y * Stride() + x
      ensures fb != null ==> y * Stride() + x < fb.Length
    {
      hide Stride;
      PixelInRange(Stride(), height, x, y);
    }

    /** The rows above dy, and dx pixels of row dy, are drawn. */
    predicate Drawn(x: nat, y: nat, w: nat, dy: nat, dx: nat, k: nat)
      requires Stride() > 0
    {
      && Col(k) < width && Row(k) < height
      && (Inside(x, y, w, dy, Col(k), Row(k))
          || (Past(y, Row(k)) == dy && Past(x, Col(k)) < dx))
    }

    /** Colours the rectangle where it meets the screen, and no other word. */
    method FillRect(x: nat, y: nat, w: nat, h: nat, color: Word)
      requires Valid() && x < MOD && y < MOD && w < MOD && h < MOD
      modifies fb
      ensures fb != null ==> forall k :: 0 <= k < fb.Length ==>
        fb[k] == if Covered(pitch / 4, width, height, x, y, w, h, k) then color else old(fb[k])
    {
      hide Past;
      for dy := 0 to h
        invariant fb != null ==> forall k :: 0 <= k < fb.Length ==>
          fb[k] == if Drawn(x, y, w, dy, 0, k) then color else old(fb[k])
      {
        for dx := 0 to w
          invariant fb != null ==> forall k :: 0 <= k < fb.Length ==>
            fb[k] == if Drawn(x, y, w, dy, dx, k) then color else old(fb[k])
        {
          PutPixel((x + dx) % MOD, (y + dy) % MOD, color);
          if fb != null {
            forall k: nat | k < fb.Length
              ensures Drawn(x, y, w, dy, dx + 1, k) <==> Drawn(x, y, w, dy, dx, k) || Shows(k, (x + dx) % MOD, (y + dy) % MOD)
            {
              PixelJoins(x, y, w, dy, dx, k);
            }
          }
        }
        if fb != null {
          forall k: nat | k < fb.Length ensures Drawn(x, y, w, dy + 1, 0, k) <==> Drawn(x, y, w, dy, w, k) {
            RowJoins(x, y, w, dy, k);
          }
        }
      }
    }

    lemma PixelJoins(x: nat, y: nat, w: nat, dy: nat, dx: nat, k: nat)
      requires Valid() && x < MOD && y < MOD && dx < w < MOD && dy < MOD
      ensures Drawn(x, y, w, dy, dx + 1, k) <==> Drawn(x, y, w, dy, dx, k) || Shows(k, (x + dx) % MOD, (y + dy) % MOD)
    {
      hide Past, Inside, Stride, Col, Row, Valid;
      Bounded();
      var px, py := Col(k), Row(k);
      if px < width && py < height {
        PixelJoinsAt(x, y, w, dy, dx, px, py);
      }
    }

    lemma Bounded()
      requires Valid()
      ensures Stride() > 0 && width < MOD && height < MOD
    {
      hide Stride;
    }

    lemma RowJoins(x: nat, y: nat, w: nat, dy: nat, k: nat)
      requires Valid()
      ensures Drawn(x, y, w, dy + 1, 0, k) <==> Drawn(x, y, w, dy, w, k)
    {
      hide Past;
      PastNotNegative(x, Col(k));
    }

    lemma WordCount()
      requires Valid() && fb != null
      ensures Stride() * height % MOD == height * Stride() <= fb.Length
    {
    }

    /** Colours every word of the screen's rows, those past the width included. */
    method Clear(color: Word)
      requires Valid()
      modifies fb
      ensures fb != null ==> forall k :: 0 <= k < fb.Length ==>
        fb[k] == if k < height * (pitch / 4) then color else old(fb[k])
    {
      hide Valid;
      if fb == null { return; }
      WordCount();
      var pixels := Stride() * height % MOD;
      for i := 0 to pixels
        invariant forall k :: 0 <= k < fb.Length ==> fb[k] == if k < i then color else old(fb[k])
      {
        fb[i] := color;
      }
    }
  }

  lemma PixelJoinsAt(x: nat, y: nat, w: nat, dy: nat, dx: nat, px: nat, py: nat)
    requires x < MOD && y < MOD && dx < w < MOD && dy < MOD && px < MOD && py < MOD
    ensures Inside(x, y, w, dy, px, py) || (Past(y, py) == dy && Past(x, px) < dx + 1) <==>
      Inside(x, y, w, dy, px, py) || (Past(y, py) == dy && Past(x, px) < dx) || (px == (x + dx) % MOD && py == (y + dy) % MOD)
  {
    hide Past;
    StepIsPast(x, dx, px);
    StepIsPast(y, dy, py);
  }

  lemma PastNotNegative(a: nat, b: nat)
    ensures Past(a, b) >= 0
  {
  }

}
