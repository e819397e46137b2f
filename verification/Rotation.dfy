/** Rotation of an image by a multiple of 90 degrees. */
module Rotation {
  import opened Numbers

  /** An image by rows, `rows[y][x]`; the width is kept for images without rows. */
  datatype Img<P> = Img(w: nat, h: nat, rows: seq<seq<P>>) {
    ghost predicate Valid() {
      |rows| == h && forall y :: 0 <= y < h ==> |rows[y]| == w
    }

    function At(x: nat, y: nat): P
      requires Valid() && x < w && y < h
    {
      rows[y][x]
    }
  }

  lemma SameImg<P>(a: Img<P>, b: Img<P>)
    requires a.Valid() && b.Valid() && a.w == b.w && a.h == b.h
    requires forall x, y :: 0 <= x < a.w && 0 <= y < a.h ==> a.At(x, y) == b.At(x, y)
    ensures a == b
  {
    forall y | 0 <= y < a.h
      ensures a.rows[y] == b.rows[y]
    {
      forall x | 0 <= x < a.w
        ensures a.rows[y][x] == b.rows[y][x]
      {
        assert a.At(x, y) == b.At(x, y);
      }
    }
  }

  function Normalize(degrees: int): int {
    Remainder(Remainder(degrees, 360) + 360, 360)
  }

  /** Where the pixel (x, y) of a w by h image goes. */
  function Destination(degrees: int, w: int, h: int, x: int, y: int): (int, int) {
    if degrees == 90 then (h - 1 - y, x)
    else if degrees == 180 then (w - 1 - x, h - 1 - y)
    else if degrees == 270 then (y, w - 1 - x)
    else (x, y)
  }

  predicate Quarter(degrees: int) {
    degrees == 0 || degrees == 90 || degrees == 180 || degrees == 270
  }

  predicate Swaps(degrees: int) {
    degrees == 90 || degrees == 270
  }

  function Width(degrees: int, w: nat, h: nat): nat {
    if Swaps(degrees) then h else w
  }

  /** Where the pixel (dx, dy) of a rotated image comes from: the opposite rotation of
      the rotated image takes it back. */
  function Source(degrees: int, w: int, h: int, dx: int, dy: int): (int, int) {
    var (w', h') := if Swaps(degrees) then (h, w) else (w, h);
    Destination((360 - degrees) % 360, w', h', dx, dy)
  }

  /** Rotation moves the pixels one to one onto the rotated image. */
  lemma DestinationBijective(degrees: int, w: nat, h: nat, x: int, y: int)
    requires Quarter(degrees)
    ensures 0 <= x < w && 0 <= y < h ==>
      var (dx, dy) := Destination(degrees, w, h, x, y);
      0 <= dx < Width(degrees, w, h) && 0 <= dy < Width(degrees, h, w) && Source(degrees, w, h, dx, dy) == (x, y)
    ensures 0 <= x < Width(degrees, w, h) && 0 <= y < Width(degrees, h, w) ==>
      var (sx, sy) := Source(degrees, w, h, x, y);
      0 <= sx < w && 0 <= sy < h && Destination(degrees, w, h, sx, sy) == (x, y)
  {
  }

  /** The rotated image. */
  ghost function Rotate<P>(m: Img<P>, degrees: int): (r: Img<P>)
    requires m.Valid() && degrees % 90 == 0
    ensures r.Valid() && r.w == Width(degrees % 360, m.w, m.h) && r.h == Width(degrees % 360, m.h, m.w)
  {
    var d := degrees % 360;
    var w, h := Width(d, m.w, m.h), Width(d, m.h, m.w);
    Img(w, h, seq(h, y requires 0 <= y < h => seq(w, x requires 0 <= x < w => Rotated(m, d, x, y))))
  }

  function Rotated<P>(m: Img<P>, d: int, x: int, y: int): P
    requires m.Valid() && Quarter(d) && 0 <= x < Width(d, m.w, m.h) && 0 <= y < Width(d, m.h, m.w)
  {
    DestinationBijective(d, m.w, m.h, x, y);
    var (sx, sy) := Source(d, m.w, m.h, x, y);
    m.At(sx, sy)
  }

  ghost function OfArray<P>(a: array2<P>): (m: Img<P>)
    reads a
    ensures m.Valid() && m.w == a.Length1 && m.h == a.Length0
  {
    var w, h := a.Length1, a.Length0;
    Img(w, h, seq(h, y requires 0 <= y < h reads a => seq(w, x requires 0 <= x < w reads a => a[y, x])))
  }

  /** `rotateImage`: two loops over the source that set one destination pixel each. */
  method RotateImage<P(0)>(src: array2<P>, degrees: int) returns (dst: array2<P>)
    requires degrees % 90 == 0
    ensures OfArray(dst) == Rotate(OfArray(src), degrees)
    ensures Normalize(degrees) == 0 ==> dst == src
    ensures Normalize(degrees) != 0 ==> fresh(dst)
  {
    var d := Normalize(degrees);
    NormalizeQuarter(degrees);
    if d == 0 {
      SameImg(OfArray(src), Rotate(OfArray(src), degrees));
      return src;
    }
    var w, h := src.Length1, src.Length0;
    var width, height := w, h;
    if d == 90 || d == 270 {
      width, height := height, width;
    }
    dst := new P[height, width];
    for y := 0 to h
      invariant forall j, i :: 0 <= j < y && 0 <= i < w ==>
          var (dx, dy) := Destination(d, w, h, i, j); dst[dy, dx] == src[j, i]
    {
      for x := 0 to w
        invariant forall j, i :: 0 <= j < y && 0 <= i < w ==>
            var (dx, dy) := Destination(d, w, h, i, j); dst[dy, dx] == src[j, i]
        invariant forall i :: 0 <= i < x ==>
            var (dx, dy) := Destination(d, w, h, i, y); dst[dy, dx] == src[y, i]
      {
        var dx, dy := x, y;
        if d == 90 {
          dx, dy := h - 1 - y, x;
        } else if d == 180 {
          dx, dy := w - 1 - x, h - 1 - y;
        } else if d == 270 {
          dx, dy := y, w - 1 - x;
        }
        dst[dy, dx] := src[y, x];
      }
    }
    AllWritten(src, dst, degrees);
  }

  lemma NormalizeQuarter(degrees: int)
    requires degrees % 90 == 0
    ensures Quarter(Normalize(degrees)) && Normalize(degrees) == degrees % 360
  {
    NormalizeMod(degrees);
    QuarterOf(degrees);
  }

  lemma NormalizeMod(degrees: int)
    ensures Normalize(degrees) == degrees % 360
  {
  }

  /** The destination of every source pixel holds it. */
  predicate Written<P(==)>(src: array2<P>, dst: array2<P>, d: int)
    requires Quarter(d)
    reads src, dst
  {
    var w, h := src.Length1, src.Length0;
    && dst.Length1 == Width(d, w, h) && dst.Length0 == Width(d, h, w)
    && forall j, i :: 0 <= j < h && 0 <= i < w ==>
         var (dx, dy) := Destination(d, w, h, i, j);
         0 <= dx < dst.Length1 && 0 <= dy < dst.Length0 && dst[dy, dx] == src[j, i]
  }

  lemma WrittenAt<P>(src: array2<P>, dst: array2<P>, d: int, x: nat, y: nat)
    requires Quarter(d) && Written(src, dst, d) && x < dst.Length1 && y < dst.Length0
    ensures dst[y, x] == Rotated(OfArray(src), d, x, y)
  {
    var w, h := src.Length1, src.Length0;
    DestinationBijective(d, w, h, x, y);
    var (sx, sy) := Source(d, w, h, x, y);
    assert OfArray(src).At(sx, sy) == src[sy, sx];
  }

  lemma AllWritten<P>(src: array2<P>, dst: array2<P>, degrees: int)
    requires degrees % 90 == 0 && Quarter(degrees % 360) && Written(src, dst, degrees % 360)
    ensures OfArray(dst) == Rotate(OfArray(src), degrees)
  {
    var m := OfArray(src);
    forall x, y | 0 <= x < dst.Length1 && 0 <= y < dst.Length0
      ensures OfArray(dst).At(x, y) == Rotate(m, degrees).At(x, y)
    {
      WrittenAt(src, dst, degrees % 360, x, y);
      RotateAt(m, degrees, x, y);
    }
    SameImg(OfArray(dst), Rotate(m, degrees));
  }

  // ----- rotations compose

  lemma RotateAt<P>(m: Img<P>, degrees: int, x: nat, y: nat)
    requires m.Valid() && degrees % 90 == 0
    requires x < Width(degrees % 360, m.w, m.h) && y < Width(degrees % 360, m.h, m.w)
    ensures Rotate(m, degrees).At(x, y) == Rotated(m, degrees % 360, x, y)
  {
  }

  lemma SourcesCompose(a: int, b: int, w: nat, h: nat, x: int, y: int)
    requires Quarter(a) && Quarter(b)
    ensures var c := (a + b) % 360;
      && Quarter(c) && Width(b, Width(a, w, h), Width(a, h, w)) == Width(c, w, h)
      && var (mx, my) := Source(b, Width(a, w, h), Width(a, h, w), x, y);
         Source(a, w, h, mx, my) == Source(c, w, h, x, y)
  {
  }

  lemma QuarterOf(a: int)
    requires a % 90 == 0
    ensures Quarter(a % 360)
  {
  }

  lemma ModSum(a: int, b: int)
    ensures (a + b) % 360 == (a % 360 + b % 360) % 360
  {
  }

  lemma SumQuarter(a: int, b: int)
    requires a % 90 == 0 && b % 90 == 0
    ensures (a + b) % 90 == 0
  {
  }

  lemma ComposeAt<P>(m: Img<P>, a: int, b: int, x: nat, y: nat)
    requires m.Valid() && a % 90 == 0 && b % 90 == 0 && (a + b) % 90 == 0
    requires Quarter(a % 360) && Quarter(b % 360) && (a + b) % 360 == (a % 360 + b % 360) % 360
    requires x < Rotate(Rotate(m, a), b).w && y < Rotate(Rotate(m, a), b).h
    ensures x < Rotate(m, a + b).w && y < Rotate(m, a + b).h
    ensures Rotate(Rotate(m, a), b).At(x, y) == Rotate(m, a + b).At(x, y)
  {
    var p, q := a % 360, b % 360;
    var once := Rotate(m, a);
    SourcesCompose(p, q, m.w, m.h, x, y);
    SourcesCompose(p, q, m.h, m.w, x, y);
    RotateAt(once, b, x, y);
    DestinationBijective(q, once.w, once.h, x, y);
    var (mx, my) := Source(q, once.w, once.h, x, y);
    RotateAt(m, a, mx, my);
    RotateAt(m, a + b, x, y);
  }

  /** Rotating by a and then by b is rotating by a + b, for all multiples of 90. */
  lemma RotationsCompose<P>(m: Img<P>, a: int, b: int)
    requires m.Valid() && a % 90 == 0 && b % 90 == 0
    ensures (a + b) % 90 == 0
    ensures Rotate(Rotate(m, a), b) == Rotate(m, a + b)
  {
    SumQuarter(a, b);
    ModSum(a, b);
    QuarterOf(a);
    QuarterOf(b);
    var twice := Rotate(Rotate(m, a), b);
    SourcesCompose(a % 360, b % 360, m.w, m.h, 0, 0);
    SourcesCompose(a % 360, b % 360, m.h, m.w, 0, 0);
    forall x, y | 0 <= x < twice.w && 0 <= y < twice.h
      ensures twice.At(x, y) == Rotate(m, a + b).At(x, y)
    {
      ComposeAt(m, a, b, x, y);
    }
    SameImg(twice, Rotate(m, a + b));
  }

  /** A rotation is undone by the opposite one. */
  lemma RotationUndone<P>(m: Img<P>, a: int)
    requires m.Valid() && a % 90 == 0
    ensures (-a) % 90 == 0
    ensures Rotate(Rotate(m, a), -a) == m
  {
    Opposite(a);
    RotationsCompose(m, a, -a);
    RotateNothing(m, a + -a);
  }

  lemma Opposite(a: int)
    requires a % 90 == 0
    ensures (-a) % 90 == 0
  {
  }

  lemma RotateNothing<P>(m: Img<P>, degrees: int)
    requires m.Valid() && degrees == 0
    ensures Rotate(m, degrees) == m
  {
    SameImg(Rotate(m, 0), m);
  }

  // ----- the direction

  /** A turn by 90 is clockwise: the pixel x of row y comes to row x of the y-th column from the right. */
  lemma QuarterTurn<P>(m: Img<P>, x: nat, y: nat)
    requires m.Valid() && x < m.w && y < m.h
    ensures m.h - 1 - y < Rotate(m, 90).w == m.h && x < Rotate(m, 90).h == m.w
    ensures Rotate(m, 90).At(m.h - 1 - y, x) == m.At(x, y)
  {
    RotateAt(m, 90, m.h - 1 - y, x);
  }

  /** So the first row becomes the last column, from top to bottom. */
  lemma FirstRowTurns<P>(m: Img<P>)
    requires m.Valid() && m.h > 0
    ensures forall x :: 0 <= x < m.w ==> Rotate(m, 90).At(m.h - 1, x) == m.At(x, 0)
  {
    forall x | 0 <= x < m.w
      ensures Rotate(m, 90).At(m.h - 1, x) == m.At(x, 0)
    {
      QuarterTurn(m, x, 0);
    }
  }
}
