/** The image tool's `compressImage`: optional "AI protection" noise written into the RGBA
    pixel buffer in place, then JPEG encoding with a quality that backs off until the file
    is at most 2 MiB.  `Math.random()` is an injected stream of draws in [0, 1); the JPEG
    encoder is a size function of the pixels and the quality, given in hundredths. */
module ImageTool {

  /** `clamp`: the value limited to [0, 255]. */
  function Clamp(v: real): (r: real)
    ensures 0.0 <= r <= 255.0
    ensures 0.0 <= v <= 255.0 ==> r == v
    ensures v < 0.0 ==> r == 0.0
    ensures v > 255.0 ==> r == 255.0
  {
    Max(0.0, Min(255.0, v))
  }

  function Max(a: real, b: real): real
  {
    if a < b then b else a
  }

  function Min(a: real, b: real): real
  {
    if a < b then a else b
  }

  /** Clamping twice is clamping once, and clamping keeps order. */
  lemma ClampIdempotentMonotone(u: real, v: real)
    ensures Clamp(Clamp(v)) == Clamp(v)
    ensures u <= v ==> Clamp(u) <= Clamp(v)
  {
  }

  /** The store into a `Uint8ClampedArray` element: limited to [0, 255], then rounded to
      the nearest integer, halves to the even neighbour. */
  function ToByte(x: real): (b: int)
    ensures 0 <= b <= 255
    ensures x <= 0.0 ==> b == 0
    ensures x >= 255.0 ==> b == 255
    ensures 0.0 <= x <= 255.0 ==> x - 0.5 <= b as real <= x + 0.5
    ensures 0.0 <= x <= 255.0 && (b as real - x == 0.5 || x - b as real == 0.5) ==> b % 2 == 0
  {
    if x <= 0.0 then 0
    else if x >= 255.0 then 255
    else
      var f := x.Floor;
      if f as real + 0.5 < x then f + 1
      else if x < f as real + 0.5 then f
      else if f % 2 == 1 then f + 1
      else f
  }

  /** An integer already in range is stored unchanged. */
  lemma ToByteExact(n: int)
    requires 0 <= n <= 255
    ensures ToByte(n as real) == n
  {
  }

  /** One `Math.random()` result. */
  predicate IsDraw(r: real)
  {
    0.0 <= r < 1.0
  }

  predicate AllDraws(draws: seq<real>)
  {
    forall k :: 0 <= k < |draws| ==> IsDraw(draws[k])
  }

  /** `rand(min, max)` on the draw `r`: `Math.floor(r * (max - min + 1)) + min`. */
  function Rand(min: int, max: int, r: real): (v: int)
    requires IsDraw(r)
    ensures min <= max ==> min <= v <= max
  {
    var span := (max - min + 1) as real;
    assert min <= max ==> 0.0 <= r * span < span by {
      if min <= max {
        SpanProduct(r, span);
      }
    }
    (r * span).Floor + min
  }

  lemma SpanProduct(r: real, span: real)
    requires IsDraw(r) && span >= 1.0
    ensures 0.0 <= r * span < span
  {
  }

  /** Every value of the range is `rand`'s answer to some draw. */
  lemma RandCovers(min: int, max: int, v: int)
    requires min <= v <= max
    ensures exists r :: IsDraw(r) && Rand(min, max, r) == v
  {
    var span := (max - min + 1) as real;
    var r := (v - min) as real / span;
    assert r * span == (v - min) as real;
    assert IsDraw(r);
    assert Rand(min, max, r) == v;
  }

  // ---------------------------------------------------------------------------------------
  // The jitter pass: every R, G and B byte moves by rand(-5, 5), clamped; alpha is kept.

  /** The draw used for byte `j`: three draws per pixel, in R, G, B order. */
  function JitterDraw(j: nat): nat
  {
    3 * (j / 4) + j % 4
  }

  /** `clamp(v + rand(-5, 5))`, stored. */
  function Nudge(v: int, r: real): (b: int)
    requires IsDraw(r)
    ensures 0 <= b <= 255
    ensures 0 <= v <= 255 ==> v - 5 <= b <= v + 5
  {
    ToByte(Clamp((v + Rand(-5, 5, r)) as real))
  }

  /** The buffer after the jitter pass. */
  function Jittered(s: seq<int>, draws: seq<real>): (r: seq<int>)
    requires |s| % 4 == 0 && |draws| == 3 * (|s| / 4) && AllDraws(draws)
    ensures |r| == |s|
  {
    seq(|s|, j requires 0 <= j < |s| =>
      if j % 4 == 3 then s[j] else Nudge(s[j], draws[JitterDraw(j)]))
  }

  /** The jitter pass keeps every alpha byte, leaves R, G and B in [0, 255], and moves each
      of them by at most 5. */
  lemma JitterBounds(s: seq<int>, draws: seq<real>)
    requires |s| % 4 == 0 && |draws| == 3 * (|s| / 4) && AllDraws(draws)
    ensures var r := Jittered(s, draws);
      && (forall j :: 0 <= j < |s| && j % 4 == 3 ==> r[j] == s[j])
      && (forall j :: 0 <= j < |s| && j % 4 < 3 ==> 0 <= r[j] <= 255)
      && (forall j :: 0 <= j < |s| && j % 4 < 3 && 0 <= s[j] <= 255 ==> s[j] - 5 <= r[j] <= s[j] + 5)
  {
  }

  /** The jitter loop, in place: `for (i = 0; i < d.length; i += 4)` over R, G and B. */
  method Jitter(d: array<int>, draws: seq<real>)
    requires d.Length % 4 == 0 && |draws| == 3 * (d.Length / 4) && AllDraws(draws)
    modifies d
    ensures d[..] == Jittered(old(d[..]), draws)
  {
    ghost var before := d[..];
    ghost var target := Jittered(before, draws);
    var i, k := 0, 0;  // the next byte and the next draw
    ghost var p := 0;  // the next pixel
    while i < d.Length
      invariant 0 <= i <= d.Length && i == 4 * p && k == 3 * p
      invariant d[..] == target[..i] + before[i..]
    {
      DrawsFit(d.Length, p);
      ghost var cur := d[..];
      NudgePixel(d, i, draws[k], draws[k + 1], draws[k + 2]);
      JitterStep(before, draws, cur, d[..], p, i, k);
      i, k, p := i + 4, k + 3, p + 1;
    }
    assert target[..i] + before[i..] == target;
  }

  /** The body of the jitter loop: R, G and B of the pixel at byte `i`, one draw each. */
  method NudgePixel(d: array<int>, i: nat, r: real, g: real, b: real)
    requires i + 3 < d.Length && IsDraw(r) && IsDraw(g) && IsDraw(b)
    modifies d
    ensures d[..] == old(d[..])[i := Nudge(old(d[..])[i], r)][i + 1 := Nudge(old(d[..])[i + 1], g)]
                                [i + 2 := Nudge(old(d[..])[i + 2], b)]
  {
    d[i] := Nudge(d[i], r);
    d[i + 1] := Nudge(d[i + 1], g);
    d[i + 2] := Nudge(d[i + 2], b);
  }

  /** One pixel of the jitter loop. */
  lemma JitterStep(s: seq<int>, draws: seq<real>, cur: seq<int>, next: seq<int>, p: nat, i: nat, k: nat)
    requires |s| % 4 == 0 && |draws| == 3 * (|s| / 4) && AllDraws(draws)
    requires i == 4 * p && k == 3 * p
    requires i < |s| && cur == Jittered(s, draws)[..i] + s[i..]
    requires k + 2 < |draws|
    requires next == cur[i := Nudge(cur[i], draws[k])][i + 1 := Nudge(cur[i + 1], draws[k + 1])]
                        [i + 2 := Nudge(cur[i + 2], draws[k + 2])]
    ensures next == Jittered(s, draws)[..i + 4] + s[i + 4..]
  {
    JitterPixel(s, draws, p);
    var target := Jittered(s, draws);
    assert |next| == |s|;
    forall j | 0 <= j < |s|
      ensures next[j] == (target[..i + 4] + s[i + 4..])[j]
    {
      if j < i {
        assert next[j] == cur[j] == target[j];
      } else if j < i + 4 {
        assert cur[j] == s[j];
      } else {
        assert next[j] == cur[j] == s[j];
      }
    }
  }

  /** The four bytes of the pixel starting at `i` after the jitter pass. */
  lemma JitterPixel(s: seq<int>, draws: seq<real>, p: nat)
    requires |s| % 4 == 0 && |draws| == 3 * (|s| / 4) && AllDraws(draws)
    requires 4 * p < |s|
    ensures 3 * p + 2 < |draws|
    ensures var r := Jittered(s, draws); var i, k := 4 * p, 3 * p;
      && r[i] == Nudge(s[i], draws[k]) && r[i + 1] == Nudge(s[i + 1], draws[k + 1])
      && r[i + 2] == Nudge(s[i + 2], draws[k + 2]) && r[i + 3] == s[i + 3]
  {
    ChannelOf(p, 0);
    ChannelOf(p, 1);
    ChannelOf(p, 2);
    ChannelOf(p, 3);
  }

  /** Byte `4 * p + c` is channel `c` of pixel `p`. */
  /** A pixel inside the buffer has its three draws. */
  lemma DrawsFit(n: nat, p: nat)
    requires n % 4 == 0 && 4 * p < n
    ensures 3 * p + 2 < 3 * (n / 4)
  {
  }

  lemma ChannelOf(p: nat, c: nat)
    requires c < 4
    ensures (4 * p + c) / 4 == p && (4 * p + c) % 4 == c
    ensures c < 3 ==> JitterDraw(4 * p + c) == 3 * p + c
  {
  }

  // ---------------------------------------------------------------------------------------
  // The dot pass: on every fifth column of every fifth row, R, G and B are blended 95:5
  // with one rand(0, 255) value per dot.

  const DotSpacing: nat := 5

  /** `(1 - 0.05) * d[idx] + 0.05 * noise`, clamped and stored. */
  function Blend(was: int, noise: int): (r: int)
    ensures 0 <= r <= 255
    ensures 0 <= was <= 255 && 0 <= noise <= 255 ==>
      var mix := 0.95 * (was as real) + 0.05 * (noise as real);
      mix - 0.5 <= r as real <= mix + 0.5
    ensures 0 <= was <= 255 && 0 <= noise <= 255 ==>
      (was <= noise ==> was <= r <= noise) && (noise <= was ==> noise <= r <= was)
  {
    var mix := 0.95 * (was as real) + 0.05 * (noise as real);
    ToByte(Clamp(mix))
  }

  /** Dots per row (x = 0, 5, 10, ... below the width) and per column. */
  function Dots(n: nat): nat
  {
    (n + 4) / 5
  }

  /** The draw of the dot at (x, y): dots are visited row by row. */
  function DotDraw(x: nat, y: nat, w: nat): nat
  {
    (y / 5) * Dots(w) + x / 5
  }

  /** Row and column of byte `j` in a buffer `w` pixels wide. */
  function Row(j: nat, w: nat): nat
    requires w > 0
  {
    (j / 4) / w
  }

  function Col(j: nat, w: nat): nat
    requires w > 0
  {
    (j / 4) % w
  }

  /** Byte `j` is an R, G or B byte of a dot. */
  predicate OnDot(j: nat, w: nat)
    requires w > 0
  {
    j % 4 < 3 && Col(j, w) % 5 == 0 && Row(j, w) % 5 == 0
  }

  /** The buffer after the dot pass. */
  function Dotted(s: seq<int>, w: nat, h: nat, draws: seq<real>): (r: seq<int>)
    requires |s| == w * h * 4 && |draws| == Dots(w) * Dots(h) && AllDraws(draws)
    ensures |r| == |s|
  {
    seq(|s|, j requires 0 <= j < |s| => DottedByte(s, w, h, draws, j))
  }

  /** The dot pass changes only R, G and B bytes of pixels on the 5-pixel grid, and leaves
      those in [0, 255]. */
  lemma DotBounds(s: seq<int>, w: nat, h: nat, draws: seq<real>)
    requires |s| == w * h * 4 && |draws| == Dots(w) * Dots(h) && AllDraws(draws)
    ensures var r := Dotted(s, w, h, draws);
      && (forall j :: 0 <= j < |s| && !OnDot(j, w) ==> r[j] == s[j])
      && (forall j :: 0 <= j < |s| && OnDot(j, w) ==> 0 <= r[j] <= 255)
  {
  }

  function DottedByte(s: seq<int>, w: nat, h: nat, draws: seq<real>, j: nat): (b: int)
    requires |s| == w * h * 4 && |draws| == Dots(w) * Dots(h) && AllDraws(draws)
    requires j < |s|
  {
    if OnDot(j, w) then
      ByteIndex(j, w, h);
      Blend(s[j], Rand(0, 255, draws[DotDraw(Col(j, w), Row(j, w), w)]))
    else s[j]
  }

  /** The dot loops, in place: rows `y = 0, 5, ...` below the height, and in each row the
      columns `x = 0, 5, ...` below the width; one draw per dot, shared by R, G and B. */
  method Dot(d: array<int>, w: nat, h: nat, draws: seq<real>)
    requires d.Length == w * h * 4 && |draws| == Dots(w) * Dots(h) && AllDraws(draws)
    modifies d
    ensures d[..] == Dotted(old(d[..]), w, h, draws)
  {
    ghost var before := d[..];
    ghost var target := Dotted(before, w, h, draws);
    var y := 0;
    while y < h
      invariant y % 5 == 0 && y <= h + 4
      invariant w > 0 ==> Progress(d[..], before, target, w, y, 0)
    {
      if w > 0 {
        DotRow(d, w, h, draws, y, before);
        RowStep(before, draws, w, h, d[..], w, y);
      }
      y := y + 5;
    }
    if w > 0 {
      Finished(before, draws, w, h, d[..], y);
    }
  }

  /** The inner loop: the dots of row `y`, from column 0 while below the width. */
  method DotRow(d: array<int>, w: nat, h: nat, draws: seq<real>, y: nat, ghost before: seq<int>)
    requires d.Length == w * h * 4 && |draws| == Dots(w) * Dots(h) && AllDraws(draws)
    requires 0 < w && y < h && y % 5 == 0 && |before| == d.Length
    requires Progress(d[..], before, Dotted(before, w, h, draws), w, y, 0)
    modifies d
    ensures Progress(d[..], before, Dotted(before, w, h, draws), w, y, w)
  {
    var x, k := 0, (y / 5) * Dots(w);  // the column and the next draw
    ghost var col := 0;  // dots done in this row
    while x < w
      invariant x == 5 * col && x <= w + 4 && k == (y / 5) * Dots(w) + col
      invariant Progress(d[..], before, Dotted(before, w, h, draws), w, y, x)
    {
      var idx := (y * w + x) * 4;
      DotPixel(w, h, x, y);
      assert DotDraw(x, y, w) == k;
      ghost var cur := d[..];
      var noise := Rand(0, 255, draws[k]);
      BlendPixel(d, idx, noise);
      DotStep(before, draws, w, h, cur, d[..], x, y, noise, idx);
      x, k, col := x + 5, k + 1, col + 1;
    }
    MoreColumns(before, Dotted(before, w, h, draws), d[..], w, y, x);
  }

  /** Progress past the last column is progress up to it. */
  lemma MoreColumns(before: seq<int>, target: seq<int>, cur: seq<int>, w: nat, y: nat, x: nat)
    requires w > 0 && w <= x && Progress(cur, before, target, w, y, x)
    ensures Progress(cur, before, target, w, y, w)
  {
    forall j | 0 <= j < |cur|
      ensures Col(j, w) < w
    {
    }
  }

  /** Bytes of rows above `y`, and of row `y` left of column `x`, are done; the rest are as
      they were. */
  predicate Progress(cur: seq<int>, before: seq<int>, target: seq<int>, w: nat, y: nat, x: nat)
    requires w > 0
  {
    |cur| == |before| == |target| &&
    forall j :: 0 <= j < |cur| ==>
      cur[j] == (if Row(j, w) < y || (Row(j, w) == y && Col(j, w) < x) then target[j] else before[j])
  }

  /** One dot of the inner loop. */
  lemma DotStep(before: seq<int>, draws: seq<real>, w: nat, h: nat, cur: seq<int>, next: seq<int>,
                 x: nat, y: nat, noise: int, i: nat)
    requires |before| == w * h * 4 && |draws| == Dots(w) * Dots(h) && AllDraws(draws)
    requires x < w && y < h && x % 5 == 0 && y % 5 == 0
    requires Progress(cur, before, Dotted(before, w, h, draws), w, y, x)
    requires DotDraw(x, y, w) < |draws| && noise == Rand(0, 255, draws[DotDraw(x, y, w)])
    requires i == (y * w + x) * 4 && i + 3 < |cur|
    requires next == cur[i := Blend(cur[i], noise)][i + 1 := Blend(cur[i + 1], noise)][i + 2 := Blend(cur[i + 2], noise)]
    ensures Progress(next, before, Dotted(before, w, h, draws), w, y, x + 5)
  {
    DotPixel(w, h, x, y);
    var target := Dotted(before, w, h, draws);
    forall j | 0 <= j < |next|
      ensures next[j] == (if Row(j, w) < y || (Row(j, w) == y && Col(j, w) < x + 5) then target[j] else before[j])
    {
      if i <= j < i + 4 {
        assert Row(j, w) == y && Col(j, w) == x;
        assert target[j] == DottedByte(before, w, h, draws, j);
      } else {
        OutsidePixel(j, w, x, y);
        if Row(j, w) == y && x < Col(j, w) < x + 5 {
          OffGrid(j, w, x);
        }
      }
    }
  }

  /** The end of a row of dots: the next four rows hold no dot. */
  lemma RowStep(before: seq<int>, draws: seq<real>, w: nat, h: nat, cur: seq<int>, x: nat, y: nat)
    requires |before| == w * h * 4 && |draws| == Dots(w) * Dots(h) && AllDraws(draws)
    requires w > 0 && w <= x && y % 5 == 0
    requires Progress(cur, before, Dotted(before, w, h, draws), w, y, x)
    ensures Progress(cur, before, Dotted(before, w, h, draws), w, y + 5, 0)
  {
    var target := Dotted(before, w, h, draws);
    forall j | 0 <= j < |cur|
      ensures cur[j] == (if Row(j, w) < y + 5 then target[j] else before[j])
    {
      ColumnBelow(j, w);
      if y < Row(j, w) < y + 5 {
        OffRows(j, w, y);
        assert target[j] == DottedByte(before, w, h, draws, j);
      }
    }
  }

  /** Past the last row, every byte is done. */
  lemma Finished(before: seq<int>, draws: seq<real>, w: nat, h: nat, cur: seq<int>, y: nat)
    requires |before| == w * h * 4 && |draws| == Dots(w) * Dots(h) && AllDraws(draws)
    requires w > 0 && h <= y
    requires Progress(cur, before, Dotted(before, w, h, draws), w, y, 0)
    ensures cur == Dotted(before, w, h, draws)
  {
    forall j | 0 <= j < |cur|
      ensures cur[j] == Dotted(before, w, h, draws)[j]
    {
      ByteIndex(j, w, h);
    }
  }

  /** The body of the inner dot loop: R, G and B of the pixel at byte `idx`, one noise
      value for all three. */
  method BlendPixel(d: array<int>, idx: nat, noise: int)
    requires idx + 3 < d.Length
    modifies d
    ensures d[..] == old(d[..])[idx := Blend(old(d[..])[idx], noise)][idx + 1 := Blend(old(d[..])[idx + 1], noise)]
                                [idx + 2 := Blend(old(d[..])[idx + 2], noise)]
  {
    d[idx] := Blend(d[idx], noise);
    d[idx + 1] := Blend(d[idx + 1], noise);
    d[idx + 2] := Blend(d[idx + 2], noise);
  }

  /** The four bytes of the dot at (x, y) lie inside the buffer, in row y and column x, and
      the dot has a draw. */
  lemma DotPixel(w: nat, h: nat, x: nat, y: nat)
    requires x < w && y < h && x % 5 == 0 && y % 5 == 0
    ensures (y * w + x) * 4 + 3 < w * h * 4 && DotDraw(x, y, w) < Dots(w) * Dots(h)
    ensures var i := (y * w + x) * 4;
      && (forall j :: i <= j < i + 4 ==> Row(j, w) == y && Col(j, w) == x)
      && OnDot(i, w) && OnDot(i + 1, w) && OnDot(i + 2, w) && !OnDot(i + 3, w)
  {
    PixelInside(w, h, x, y);
    PixelBytes(x, y, w);
    DotBelow(x, y, w, h);
    GridBytes((y * w + x) * 4, y * w + x, w, x, y);
  }

  lemma GridBytes(i: nat, p: nat, w: nat, x: nat, y: nat)
    requires w > 0 && i == p * 4 && x % 5 == 0 && y % 5 == 0
    requires forall j :: i <= j < i + 4 ==> Row(j, w) == y && Col(j, w) == x
    ensures OnDot(i, w) && OnDot(i + 1, w) && OnDot(i + 2, w) && !OnDot(i + 3, w)
  {
    assert Row(i, w) == y && Row(i + 1, w) == y && Row(i + 2, w) == y;
    assert Col(i, w) == x && Col(i + 1, w) == x && Col(i + 2, w) == x;
  }

  lemma PixelInside(w: nat, h: nat, x: nat, y: nat)
    requires x < w && y < h
    ensures (y * w + x) * 4 + 3 < w * h * 4
  {
    MulMono(y + 1, h, w);
    assert (y + 1) * w == y * w + w;
    assert h * w == w * h;
  }

  // ---------------------------------------------------------------------------------------
  // Both passes, as `compressImage` runs them when the option is on.

  /** Draws the two passes take: three per pixel, then one per dot. */
  function NoiseDraws(w: nat, h: nat): nat
  {
    3 * (w * h) + Dots(w) * Dots(h)
  }

  /** The buffer after the jitter pass and then the dot pass, which reads the jittered
      bytes. */
  function Noised(s: seq<int>, w: nat, h: nat, draws: seq<real>): (r: seq<int>)
    requires |s| == w * h * 4 && |draws| == NoiseDraws(w, h) && AllDraws(draws)
    ensures |r| == |s|
  {
    var n := 3 * (w * h);
    SplitDraws(|s|, w, h, draws);
    Dotted(Jittered(s, draws[..n]), w, h, draws[n..])
  }

  /** The first `3 * w * h` draws feed the jitter pass, the rest the dot pass. */
  lemma SplitDraws(len: nat, w: nat, h: nat, draws: seq<real>)
    requires len == w * h * 4 && |draws| == NoiseDraws(w, h) && AllDraws(draws)
    ensures var n := 3 * (w * h);
      && n <= |draws| && len % 4 == 0 && |draws[..n]| == 3 * (len / 4) && AllDraws(draws[..n])
      && |draws[n..]| == Dots(w) * Dots(h) && AllDraws(draws[n..])
  {
    var n := 3 * (w * h);
    assert len / 4 == w * h;
    forall k | 0 <= k < |draws[n..]| ensures IsDraw(draws[n..][k]) {
      assert draws[n..][k] == draws[n + k];
    }
  }

  /** Alpha is never touched, R, G and B end in [0, 255], and a byte off the dot grid moves
      by at most 5. */
  lemma NoisedBounds(s: seq<int>, w: nat, h: nat, draws: seq<real>)
    requires |s| == w * h * 4 && |draws| == NoiseDraws(w, h) && AllDraws(draws)
    ensures var r := Noised(s, w, h, draws);
      && (forall j :: 0 <= j < |s| && j % 4 == 3 ==> r[j] == s[j])
      && (forall j :: 0 <= j < |s| && j % 4 < 3 ==> 0 <= r[j] <= 255)
      && (forall j :: 0 <= j < |s| && j % 4 < 3 && !OnDot(j, w) && 0 <= s[j] <= 255 ==> s[j] - 5 <= r[j] <= s[j] + 5)
  {
    var n := 3 * (w * h);
    var jittered := Jittered(s, draws[..n]);
    JitterBounds(s, draws[..n]);
    DotBounds(jittered, w, h, draws[n..]);
    var r := Noised(s, w, h, draws);
    assert r == Dotted(jittered, w, h, draws[n..]);
    forall j | 0 <= j < |s|
      ensures j % 4 == 3 ==> !OnDot(j, w)
    {
    }
  }

  /** A dot blends its three channels, as the dot pass finds them, with one and the same
      noise value. */
  lemma OneNoisePerDot(s: seq<int>, w: nat, h: nat, draws: seq<real>, x: nat, y: nat)
    requires |s| == w * h * 4 && |draws| == Dots(w) * Dots(h) && AllDraws(draws)
    requires x < w && y < h && x % 5 == 0 && y % 5 == 0
    ensures (y * w + x) * 4 + 3 < |s|
    ensures var i, r := (y * w + x) * 4, Dotted(s, w, h, draws);
      exists noise :: 0 <= noise <= 255 && r[i] == Blend(s[i], noise)
        && r[i + 1] == Blend(s[i + 1], noise) && r[i + 2] == Blend(s[i + 2], noise)
  {
    var i := (y * w + x) * 4;
    DotPixel(w, h, x, y);
    var noise := Rand(0, 255, draws[DotDraw(x, y, w)]);
    var r := Dotted(s, w, h, draws);
    assert r[i] == DottedByte(s, w, h, draws, i);
    assert r[i + 1] == DottedByte(s, w, h, draws, i + 1);
    assert r[i + 2] == DottedByte(s, w, h, draws, i + 2);
  }

  // ---------------------------------------------------------------------------------------
  // The quality back-off: encode at 0.92; while the file exceeds 2 MiB and the quality is
  // above 0.3, lower the quality by 0.05 and encode again.

  const SizeLimit: nat := 2 * 1024 * 1024
  const FirstQuality: int := 92
  const QualityFloor: int := 30
  const QualityStep: int := 5

  /** A JPEG file: the quality it was encoded at and its size in bytes. */
  datatype Blob = Blob(quality: int, size: nat)

  /** The qualities encoded at, in order, starting from `q`. */
  function Attempts(encode: (seq<int>, int) -> nat, pixels: seq<int>, q: int): (tried: seq<int>)
    decreases q
    ensures |tried| >= 1 && tried[0] == q
  {
    if encode(pixels, q) > SizeLimit && q > QualityFloor then [q] + Attempts(encode, pixels, q - QualityStep)
    else [q]
  }

  /** The qualities step down by 5; every one before the last was too large at a quality
      above 0.3; the last fits or is at most 0.3, and is above 0.25 when `q` is above 0.3. */
  lemma {:induction false} AttemptsShape(encode: (seq<int>, int) -> nat, pixels: seq<int>, q: int)
    ensures var t := Attempts(encode, pixels, q);
      && (forall k :: 0 <= k < |t| ==> t[k] == q - 5 * k)
      && (forall k :: 0 <= k < |t| - 1 ==> encode(pixels, t[k]) > SizeLimit && t[k] > QualityFloor)
      && (encode(pixels, t[|t| - 1]) <= SizeLimit || t[|t| - 1] <= QualityFloor)
      && (q > QualityFloor ==> t[|t| - 1] > QualityFloor - QualityStep)
    decreases q
  {
    if encode(pixels, q) > SizeLimit && q > QualityFloor {
      AttemptsShape(encode, pixels, q - QualityStep);
      var rest := Attempts(encode, pixels, q - QualityStep);
      assert Attempts(encode, pixels, q) == [q] + rest;
    }
  }

  /** From 0.92 there are at most 14 encodings and the last quality is at least 0.27. */
  lemma AtMostFourteen(encode: (seq<int>, int) -> nat, pixels: seq<int>)
    ensures var t := Attempts(encode, pixels, FirstQuality);
      |t| <= 14 && t[|t| - 1] >= 27
  {
    AttemptsShape(encode, pixels, FirstQuality);
  }

  /** Exactly one encoding happens if and only if the first one fits. */
  lemma OneEncodeIffFits(encode: (seq<int>, int) -> nat, pixels: seq<int>)
    ensures |Attempts(encode, pixels, FirstQuality)| == 1 <==> encode(pixels, FirstQuality) <= SizeLimit
  {
    AttemptsShape(encode, pixels, FirstQuality);
  }

  /** When no quality fits, all fourteen qualities 0.92, 0.87, ..., 0.27 are tried. */
  lemma NothingFits(encode: (seq<int>, int) -> nat, pixels: seq<int>)
    requires forall q :: encode(pixels, q) > SizeLimit
    ensures var t := Attempts(encode, pixels, FirstQuality);
      |t| == 14 && t[13] == 27
  {
    AttemptsShape(encode, pixels, FirstQuality);
    var t := Attempts(encode, pixels, FirstQuality);
    assert t[|t| - 1] <= QualityFloor;
  }

  /** The back-off loop: returns the last encoding, with the qualities it encoded at. */
  method BackOff(encode: (seq<int>, int) -> nat, pixels: seq<int>) returns (blob: Blob, tried: seq<int>)
    ensures tried == Attempts(encode, pixels, FirstQuality)
    ensures blob == Blob(tried[|tried| - 1], encode(pixels, tried[|tried| - 1]))
  {
    var quality := FirstQuality;
    blob := Blob(quality, encode(pixels, quality));
    tried := [quality];
    while blob.size > SizeLimit && quality > QualityFloor
      invariant |tried| >= 1 && tried[|tried| - 1] == quality
      invariant blob == Blob(quality, encode(pixels, quality))
      invariant tried + Attempts(encode, pixels, quality)[1..] == Attempts(encode, pixels, FirstQuality)
      decreases quality
    {
      BackOffStep(encode, pixels, tried, quality);
      quality := quality - QualityStep;
      blob := Blob(quality, encode(pixels, quality));
      tried := tried + [quality];
    }
    assert Attempts(encode, pixels, quality)[1..] == [];
  }

  /** One more encoding keeps the qualities tried a prefix of the schedule. */
  lemma BackOffStep(encode: (seq<int>, int) -> nat, pixels: seq<int>, tried: seq<int>, q: int)
    requires encode(pixels, q) > SizeLimit && q > QualityFloor
    ensures (tried + [q - QualityStep]) + Attempts(encode, pixels, q - QualityStep)[1..]
         == tried + Attempts(encode, pixels, q)[1..]
  {
    var rest := Attempts(encode, pixels, q - QualityStep);
    assert Attempts(encode, pixels, q)[1..] == rest == [q - QualityStep] + rest[1..];
  }

  /** `compressImage` after the picture is drawn: with the option on, both noise passes
      rewrite the canvas pixels in place; then the back-off loop encodes them. */
  method CompressImage(d: array<int>, w: nat, h: nat, ai: bool, draws: seq<real>,
                       encode: (seq<int>, int) -> nat)
    returns (blob: Blob, tried: seq<int>)
    requires d.Length == w * h * 4
    requires ai ==> |draws| == NoiseDraws(w, h) && AllDraws(draws)
    modifies d
    ensures !ai ==> d[..] == old(d[..])
    ensures ai ==> d[..] == Noised(old(d[..]), w, h, draws)
    ensures tried == Attempts(encode, d[..], FirstQuality)
    ensures blob == Blob(tried[|tried| - 1], encode(d[..], tried[|tried| - 1]))
  {
    if ai {
      var n := 3 * (w * h);
      Jitter(d, draws[..n]);
      Dot(d, w, h, draws[n..]);
    }
    blob, tried := BackOff(encode, d[..]);
  }

  /** The pixel of byte `j` lies inside the picture, so its dot has a draw. */
  lemma ByteIndex(j: nat, w: nat, h: nat)
    requires j < w * h * 4
    ensures w > 0 && Row(j, w) < h && Col(j, w) < w
    ensures DotDraw(Col(j, w), Row(j, w), w) < Dots(w) * Dots(h)
  {
    var p := j / 4;
    assert p < w * h;
    assert w > 0;
    var y := p / w;
    assert y * w <= p;
    RowBelow(y, w, h, p);
    DotBelow(Col(j, w), y, w, h);
  }

  lemma RowBelow(y: nat, w: nat, h: nat, p: nat)
    requires w > 0 && y * w <= p < w * h
    ensures y < h
  {
    if h <= y {
      MulMono(h, y, w);
    }
  }

  lemma MulMono(a: nat, b: nat, c: nat)
    requires a <= b
    ensures a * c <= b * c
  {
  }

  lemma DotBelow(x: nat, y: nat, w: nat, h: nat)
    requires x < w && y < h
    ensures DotDraw(x, y, w) < Dots(w) * Dots(h)
  {
    var a := y / 5;
    assert a + 1 <= Dots(h);
    MulMono(a + 1, Dots(h), Dots(w));
    assert a * Dots(w) + Dots(w) == (a + 1) * Dots(w);
  }

  /** Pixel (x, y) starts at byte `(y * w + x) * 4`. */
  lemma PixelAt(x: nat, y: nat, w: nat)
    requires x < w
    ensures ((y * w + x) * 4) / 4 == y * w + x
    ensures Row((y * w + x) * 4, w) == y && Col((y * w + x) * 4, w) == x
  {
    DivMod(y * w + x, y, x, w);
  }

  /** The four bytes of pixel (x, y) lie in row y and column x. */
  lemma PixelBytes(x: nat, y: nat, w: nat)
    requires x < w
    ensures var i := (y * w + x) * 4;
      forall j :: i <= j < i + 4 ==> Row(j, w) == y && Col(j, w) == x
  {
    var i := (y * w + x) * 4;
    PixelAt(x, y, w);
    forall j | i <= j < i + 4
      ensures j / 4 == i / 4
    {
    }
  }

  /** A byte outside pixel (x, y) is not in both its row and its column. */
  lemma OutsidePixel(j: nat, w: nat, x: nat, y: nat)
    requires x < w && !((y * w + x) * 4 <= j < (y * w + x) * 4 + 4)
    ensures Row(j, w) != y || Col(j, w) != x
  {
    PixelOfByte(j, w);
  }

  lemma ColumnBelow(j: nat, w: nat)
    requires w > 0
    ensures Col(j, w) < w
  {
  }

  /** Rows strictly between two grid rows hold no dot. */
  lemma OffRows(j: nat, w: nat, y: nat)
    requires w > 0 && y % 5 == 0 && y < Row(j, w) < y + 5
    ensures !OnDot(j, w)
  {
  }

  /** Columns strictly between two grid columns hold no dot. */
  lemma OffGrid(j: nat, w: nat, x: nat)
    requires w > 0 && x % 5 == 0 && x < Col(j, w) < x + 5
    ensures !OnDot(j, w)
  {
  }

  /** Byte `j` belongs to the pixel at its row and column. */
  lemma PixelOfByte(j: nat, w: nat)
    requires w > 0
    ensures var p := Row(j, w) * w + Col(j, w); p * 4 <= j < p * 4 + 4
  {
    var p := j / 4;
    assert p == (p / w) * w + p % w;
  }

  lemma DivMod(p: nat, q: nat, r: nat, w: nat)
    requires r < w && p == q * w + r
    ensures p / w == q && p % w == r
  {
    var q', r' := p / w, p % w;
    assert p == q' * w + r';
    assert (q' - q) * w == r - r';
    assert w > 0;
    MulSmall(w, q' - q);
  }

  /** A multiple of `w` strictly between `-w` and `w` is zero. */
  lemma MulSmall(w: int, k: int)
    requires w > 0 && -w < k * w < w
    ensures k == 0
  {
  }
}
