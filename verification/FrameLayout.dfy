/** How 4:2:0 frames lie in memory: the addressing of V4L2FrameBuffer::ToI420
    (src/common/v4l2_frame_buffer.cpp) and the repacking of V4L2Codec
    (src/codecs/v4l2/v4l2_codec.cpp). */
module FrameLayout {
  import opened Common

  /** `rows * stride`, as repeated addition. */
  function Times(rows: nat, stride: nat): nat {
    if rows == 0 then 0 else Times(rows - 1, stride) + stride
  }

  lemma {:induction false} TimesIsProduct(rows: nat, stride: nat)
    ensures Times(rows, stride) == rows * stride
  {
    if rows > 0 {
      TimesIsProduct(rows - 1, stride);
    }
  }

  datatype Format = YUV420 | NV12

  /** Bytes per luma row and rows per luma plane, padding included. */
  datatype Layout = Layout(stride: nat, planeHeight: nat) {
    function Chroma(): nat { Times(planeHeight, stride) }

    function Size(format: Format): nat {
      match format
      case YUV420 => Chroma() + 2 * Times(planeHeight / 2, stride / 2)
      case NV12 => Chroma() + Times(planeHeight / 2, stride)
    }

    /** A picture of this size, its chroma rounded up as ToI420 does, fits the planes. */
    predicate Holds(width: nat, height: nat) {
      && width <= stride && (width + 1) / 2 <= stride / 2
      && height <= planeHeight && (height + 1) / 2 <= planeHeight / 2
    }
  }

  datatype Plane = Y | U | V

  /** A sample of an I420 picture. */
  predicate InPicture(plane: Plane, i: nat, j: nat, width: nat, height: nat) {
    if plane.Y? then i < height && j < width else i < (height + 1) / 2 && j < (width + 1) / 2
  }

  /** `rows` rows of `bytes` bytes, `stride` apart, from `start`. */
  datatype Rows = Rows(start: nat, stride: nat) {
    function At(i: nat): nat { start + Times(i, stride) }
    predicate Fit(bytes: nat, rows: nat, length: nat) {
      forall i: nat | i < rows :: At(i) + bytes <= length
    }
    /** Position `p` lies in none of the rows. */
    predicate Misses(p: nat, bytes: nat, rows: nat) {
      forall i: nat | i < rows :: p < At(i) || At(i) + bytes <= p
    }
  }

  /** The rows of memory that hold a plane; NV12 has both chroma planes in the same rows. */
  function PlaneRows(l: Layout, format: Format, plane: Plane): Rows {
    match (format, plane)
    case (_, Y) => Rows(0, l.stride)
    case (YUV420, U) => Rows(l.Chroma(), l.stride / 2)
    case (YUV420, V) => Rows(l.Chroma() + Times(l.planeHeight / 2, l.stride / 2), l.stride / 2)
    case (NV12, _) => Rows(l.Chroma(), l.stride)
  }

  function RowCount(l: Layout, plane: Plane): nat {
    if plane.Y? then l.planeHeight else l.planeHeight / 2
  }

  function Column(format: Format, plane: Plane, j: nat): nat {
    if format.YUV420? || plane.Y? then j else if plane.U? then 2 * j else 2 * j + 1
  }

  /** Where ToI420 reads a sample. */
  function Address(l: Layout, format: Format, plane: Plane, i: nat, j: nat): nat {
    PlaneRows(l, format, plane).At(i) + Column(format, plane, j)
  }

  /** Row `i` ends before row `k` starts. */
  lemma {:induction false} RowEnd(d: Rows, i: nat, k: nat)
    requires i < k
    ensures d.At(i) + d.stride <= d.At(k)
  {
    if i < k - 1 {
      RowEnd(d, i, k - 1);
    }
  }

  /** The planes follow one another up to the end of the frame. */
  lemma PlaneEnd(l: Layout, format: Format, plane: Plane)
    ensures var d := PlaneRows(l, format, plane);
      && d.At(RowCount(l, plane)) <= l.Size(format)
      && (plane.Y? ==> d.At(RowCount(l, plane)) == l.Chroma())
      && (plane.U? && format.YUV420? ==>
           d.At(RowCount(l, plane)) == PlaneRows(l, format, V).start)
  {}

  /** Every sample of a picture that the layout holds lies inside its plane. */
  lemma AddressInFrame(l: Layout, format: Format, width: nat, height: nat, plane: Plane, i: nat, j: nat)
    requires l.Holds(width, height) && InPicture(plane, i, j, width, height)
    ensures i < RowCount(l, plane) && Column(format, plane, j) < PlaneRows(l, format, plane).stride
    ensures Address(l, format, plane, i, j) < l.Size(format)
  {
    PlaneEnd(l, format, plane);
    RowEnd(PlaneRows(l, format, plane), i, RowCount(l, plane));
  }

  /** Two frames give the same I420 picture. */
  ghost predicate SamePicture(a: seq<Byte>, la: Layout, b: seq<Byte>, lb: Layout,
                              format: Format, width: nat, height: nat)
  {
    forall plane: Plane, i: nat, j: nat | InPicture(plane, i, j, width, height) ::
      SameSample(a, la, b, lb, format, plane, i, j)
  }

  predicate SameSample(a: seq<Byte>, la: Layout, b: seq<Byte>, lb: Layout,
                       format: Format, plane: Plane, i: nat, j: nat)
  {
    && Address(la, format, plane, i, j) < |a| && Address(lb, format, plane, i, j) < |b|
    && a[Address(la, format, plane, i, j)] == b[Address(lb, format, plane, i, j)]
  }

  // ----- Copying rows -----

  function CopyRows(dst: seq<Byte>, d: Rows, src: seq<Byte>, s: Rows, bytes: nat, rows: nat): (r: seq<Byte>)
    requires d.Fit(bytes, rows, |dst|) && s.Fit(bytes, rows, |src|)
    ensures |r| == |dst|
  {
    if rows == 0 then dst else
      var i := rows - 1;
      Overwrite(CopyRows(dst, d, src, s, bytes, i), d.At(i), src[s.At(i)..s.At(i) + bytes])
  }

  lemma {:induction false} CopyRowsMisses(dst: seq<Byte>, d: Rows, src: seq<Byte>, s: Rows,
                                          bytes: nat, rows: nat, p: nat)
    requires d.Fit(bytes, rows, |dst|) && s.Fit(bytes, rows, |src|)
    requires p < |dst| && d.Misses(p, bytes, rows)
    ensures CopyRows(dst, d, src, s, bytes, rows)[p] == dst[p]
  {
    if rows > 0 {
      CopyRowsMisses(dst, d, src, s, bytes, rows - 1, p);
      assert p < d.At(rows - 1) || d.At(rows - 1) + bytes <= p;
    }
  }

  lemma FewerRowsFit(d: Rows, bytes: nat, i: nat, rows: nat, length: nat)
    requires d.Fit(bytes, rows, length) && i <= rows
    ensures d.Fit(bytes, i, length)
    ensures i < rows ==> d.At(i) + bytes <= length
  {}

  lemma LastRowCopied(dst: seq<Byte>, d: Rows, src: seq<Byte>, s: Rows, bytes: nat, rows: nat)
    requires d.Fit(bytes, rows, |dst|) && s.Fit(bytes, rows, |src|) && rows > 0
    ensures var k := rows - 1;
      && d.At(k) + bytes <= |dst| && s.At(k) + bytes <= |src|
      && d.Fit(bytes, k, |dst|) && s.Fit(bytes, k, |src|)
      && CopyRows(dst, d, src, s, bytes, rows)
         == Overwrite(CopyRows(dst, d, src, s, bytes, k), d.At(k), src[s.At(k)..s.At(k) + bytes])
  {
    assert d.At(rows - 1) + bytes <= |dst| && s.At(rows - 1) + bytes <= |src|;
  }

  lemma LastRowHits(dst: seq<Byte>, d: Rows, src: seq<Byte>, s: Rows, bytes: nat, k: nat, j: nat)
    requires d.Fit(bytes, k + 1, |dst|) && s.Fit(bytes, k + 1, |src|) && j < bytes
    ensures d.At(k) + j < |dst| && s.At(k) + j < |src|
    ensures CopyRows(dst, d, src, s, bytes, k + 1)[d.At(k) + j] == src[s.At(k) + j]
  {
    LastRowCopied(dst, d, src, s, bytes, k + 1);
  }

  lemma EarlierRowStays(dst: seq<Byte>, d: Rows, src: seq<Byte>, s: Rows, bytes: nat, k: nat, i: nat, j: nat)
    requires d.Fit(bytes, k + 1, |dst|) && s.Fit(bytes, k + 1, |src|)
    requires d.Fit(bytes, k, |dst|) && s.Fit(bytes, k, |src|)
    requires bytes <= d.stride && i < k && j < bytes
    ensures d.At(i) + j < |dst|
    ensures CopyRows(dst, d, src, s, bytes, k + 1)[d.At(i) + j] == CopyRows(dst, d, src, s, bytes, k)[d.At(i) + j]
  {
    RowEnd(d, i, k);
    LastRowCopied(dst, d, src, s, bytes, k + 1);
  }

  /** Rows no longer than their distance do not overwrite one another. */
  lemma {:induction false} CopyRowsHits(dst: seq<Byte>, d: Rows, src: seq<Byte>, s: Rows,
                                        bytes: nat, rows: nat, i: nat, j: nat)
    requires d.Fit(bytes, rows, |dst|) && s.Fit(bytes, rows, |src|)
    requires bytes <= d.stride && i < rows && j < bytes
    ensures d.At(i) + j < |dst| && s.At(i) + j < |src|
    ensures CopyRows(dst, d, src, s, bytes, rows)[d.At(i) + j] == src[s.At(i) + j]
  {
    var k := rows - 1;
    if i == k {
      LastRowHits(dst, d, src, s, bytes, k, j);
    } else {
      FewerRowsFit(d, bytes, k, rows, |dst|);
      FewerRowsFit(s, bytes, k, rows, |src|);
      CopyRowsHits(dst, d, src, s, bytes, k, i, j);
      EarlierRowStays(dst, d, src, s, bytes, k, i, j);
    }
  }

  /** Rows inside a plane miss every position outside of it. */
  lemma PlaneMisses(d: Rows, bytes: nat, rows: nat, planeRows: nat, p: nat)
    requires bytes <= d.stride && rows <= planeRows
    requires p < d.start || d.At(planeRows) <= p
    ensures d.Misses(p, bytes, rows)
  {
    forall i: nat | i < rows ensures p < d.At(i) || d.At(i) + bytes <= p {
      RowEnd(d, i, planeRows);
    }
  }

  lemma PlaneFits(d: Rows, bytes: nat, rows: nat, planeRows: nat, length: nat)
    requires bytes <= d.stride && rows <= planeRows
    requires d.At(planeRows) <= length
    ensures d.Fit(bytes, rows, length)
  {
    forall i: nat | i < rows ensures d.At(i) + bytes <= length {
      RowEnd(d, i, planeRows);
    }
  }

  // ----- Repacking -----

  /** The frames hold their layouts, and the picture is no larger than either. */
  predicate CanRepack(src: seq<Byte>, from: Layout, dst: seq<Byte>, to: Layout,
                      format: Format, width: nat, height: nat)
  {
    && from.Size(format) <= |src| && width <= from.stride && height <= from.planeHeight
    && to.Size(format) <= |dst| && width <= to.stride && height <= to.planeHeight
  }

  lemma PlaneRowsFit(l: Layout, format: Format, plane: Plane, bytes: nat, rows: nat, length: nat)
    requires l.Size(format) <= length
    requires bytes <= PlaneRows(l, format, plane).stride && rows <= RowCount(l, plane)
    ensures PlaneRows(l, format, plane).Fit(bytes, rows, length)
  {
    PlaneEnd(l, format, plane);
    PlaneFits(PlaneRows(l, format, plane), bytes, rows, RowCount(l, plane), length);
  }

  /** Bytes of a chroma row that are copied. */
  function ChromaBytes(format: Format, width: nat): nat { if format.NV12? then width else width / 2 }

  predicate CanCopyPlane(src: seq<Byte>, from: Layout, dst: seq<Byte>, to: Layout, format: Format,
                         plane: Plane, bytes: nat, rows: nat)
  {
    && from.Size(format) <= |src| && to.Size(format) <= |dst|
    && bytes <= PlaneRows(from, format, plane).stride && rows <= RowCount(from, plane)
    && bytes <= PlaneRows(to, format, plane).stride && rows <= RowCount(to, plane)
  }

  /** One plane copied from one layout into another. */
  function CopyPlane(src: seq<Byte>, from: Layout, dst: seq<Byte>, to: Layout, format: Format,
                     plane: Plane, bytes: nat, rows: nat): (r: seq<Byte>)
    requires CanCopyPlane(src, from, dst, to, format, plane, bytes, rows)
    ensures |r| == |dst|
  {
    PlaneRowsFit(from, format, plane, bytes, rows, |src|);
    PlaneRowsFit(to, format, plane, bytes, rows, |dst|);
    CopyRows(dst, PlaneRows(to, format, plane), src, PlaneRows(from, format, plane), bytes, rows)
  }

  function CopyPlanes(src: seq<Byte>, from: Layout, dst: seq<Byte>, to: Layout,
                      format: Format, width: nat, height: nat): (r: seq<Byte>)
    requires CanRepack(src, from, dst, to, format, width, height)
    ensures |r| == |dst|
  {
    var u := LumaAndU(src, from, dst, to, format, width, height);
    if format.NV12? then u
    else CopyPlane(src, from, u, to, format, V, width / 2, height / 2)
  }

  lemma CopyPlaneHits(src: seq<Byte>, from: Layout, dst: seq<Byte>, to: Layout, format: Format,
                      plane: Plane, bytes: nat, rows: nat, i: nat, column: nat)
    requires CanCopyPlane(src, from, dst, to, format, plane, bytes, rows)
    requires i < rows && column < bytes
    ensures var a, b := PlaneRows(from, format, plane).At(i) + column, PlaneRows(to, format, plane).At(i) + column;
      && a < |src| && b < |dst|
      && CopyPlane(src, from, dst, to, format, plane, bytes, rows)[b] == src[a]
  {
    PlaneRowsFit(from, format, plane, bytes, rows, |src|);
    PlaneRowsFit(to, format, plane, bytes, rows, |dst|);
    CopyRowsHits(dst, PlaneRows(to, format, plane), src, PlaneRows(from, format, plane), bytes, rows, i, column);
  }

  /** Copying a plane changes nothing outside of it. */
  lemma CopyPlaneMisses(src: seq<Byte>, from: Layout, dst: seq<Byte>, to: Layout, format: Format,
                        plane: Plane, bytes: nat, rows: nat, p: nat)
    requires CanCopyPlane(src, from, dst, to, format, plane, bytes, rows) && p < |dst|
    requires var d := PlaneRows(to, format, plane);
      p < d.start || d.At(RowCount(to, plane)) <= p || d.Misses(p, bytes, rows)
    ensures CopyPlane(src, from, dst, to, format, plane, bytes, rows)[p] == dst[p]
  {
    PlaneRowsFit(from, format, plane, bytes, rows, |src|);
    PlaneRowsFit(to, format, plane, bytes, rows, |dst|);
    var d := PlaneRows(to, format, plane);
    if !d.Misses(p, bytes, rows) {
      PlaneMisses(d, bytes, rows, RowCount(to, plane), p);
    }
    CopyRowsMisses(dst, d, src, PlaneRows(from, format, plane), bytes, rows, p);
  }

  /** The intermediate results of CopyPlanes. */
  function Luma(src: seq<Byte>, from: Layout, dst: seq<Byte>, to: Layout,
                format: Format, width: nat, height: nat): (r: seq<Byte>)
    requires CanRepack(src, from, dst, to, format, width, height)
    ensures |r| == |dst|
  {
    CopyPlane(src, from, dst, to, format, Y, width, height)
  }

  function LumaAndU(src: seq<Byte>, from: Layout, dst: seq<Byte>, to: Layout,
                    format: Format, width: nat, height: nat): (r: seq<Byte>)
    requires CanRepack(src, from, dst, to, format, width, height)
    ensures |r| == |dst|
  {
    CopyPlane(src, from, Luma(src, from, dst, to, format, width, height), to, format, U,
              ChromaBytes(format, width), height / 2)
  }

  /** The V plane comes after the U plane, and leaves it and what precedes it alone. */
  lemma VAfterU(src: seq<Byte>, from: Layout, dst: seq<Byte>, to: Layout,
                format: Format, width: nat, height: nat, p: nat)
    requires CanRepack(src, from, dst, to, format, width, height)
    requires p < |dst| && (format.NV12? || p < PlaneRows(to, format, V).start)
    ensures CopyPlanes(src, from, dst, to, format, width, height)[p]
         == LumaAndU(src, from, dst, to, format, width, height)[p]
  {
    if format.YUV420? {
      var u := LumaAndU(src, from, dst, to, format, width, height);
      CopyPlaneMisses(src, from, u, to, format, V, width / 2, height / 2, p);
    }
  }

  /** The chroma planes leave the luma plane alone. */
  lemma ChromaAfterLuma(src: seq<Byte>, from: Layout, dst: seq<Byte>, to: Layout,
                        format: Format, width: nat, height: nat, p: nat)
    requires CanRepack(src, from, dst, to, format, width, height)
    requires p < |dst| && p < to.Chroma()
    ensures CopyPlanes(src, from, dst, to, format, width, height)[p]
         == Luma(src, from, dst, to, format, width, height)[p]
  {
    PlaneEnd(to, format, U);
    VAfterU(src, from, dst, to, format, width, height, p);
    CopyPlaneMisses(src, from, Luma(src, from, dst, to, format, width, height), to, format, U,
                    ChromaBytes(format, width), height / 2, p);
  }

  /** The byte at row `i` and this column of a plane arrives where the other layout has it. */
  predicate Arrives(src: seq<Byte>, from: Layout, dst: seq<Byte>, to: Layout, format: Format,
                    width: nat, height: nat, plane: Plane, i: nat, column: nat)
    requires CanRepack(src, from, dst, to, format, width, height)
  {
    var a, b := PlaneRows(from, format, plane).At(i) + column, PlaneRows(to, format, plane).At(i) + column;
    && a < |src| && b < |dst|
    && CopyPlanes(src, from, dst, to, format, width, height)[b] == src[a]
  }

  lemma LumaArrives(src: seq<Byte>, from: Layout, dst: seq<Byte>, to: Layout, format: Format,
                    width: nat, height: nat, i: nat, column: nat)
    requires CanRepack(src, from, dst, to, format, width, height)
    requires i < height && column < width
    ensures Arrives(src, from, dst, to, format, width, height, Y, i, column)
  {
    RowEnd(PlaneRows(to, format, Y), i, RowCount(to, Y));
    CopyPlaneHits(src, from, dst, to, format, Y, width, height, i, column);
    ChromaAfterLuma(src, from, dst, to, format, width, height, PlaneRows(to, format, Y).At(i) + column);
  }

  /** The U plane, or the interleaved chroma plane. */
  lemma UArrives(src: seq<Byte>, from: Layout, dst: seq<Byte>, to: Layout, format: Format,
                 width: nat, height: nat, i: nat, column: nat)
    requires CanRepack(src, from, dst, to, format, width, height)
    requires i < height / 2 && column < ChromaBytes(format, width)
    ensures Arrives(src, from, dst, to, format, width, height, U, i, column)
  {
    var bytes := ChromaBytes(format, width);
    var luma := Luma(src, from, dst, to, format, width, height);
    var b := PlaneRows(to, format, U).At(i) + column;
    assert format.NV12? || b < PlaneRows(to, format, V).start by {
      PlaneEnd(to, format, U);
      RowEnd(PlaneRows(to, format, U), i, RowCount(to, U));
    }
    CopyPlaneHits(src, from, luma, to, format, U, bytes, height / 2, i, column);
    VAfterU(src, from, dst, to, format, width, height, b);
  }

  lemma VArrives(src: seq<Byte>, from: Layout, dst: seq<Byte>, to: Layout,
                 width: nat, height: nat, i: nat, column: nat)
    requires CanRepack(src, from, dst, to, YUV420, width, height)
    requires i < height / 2 && column < width / 2
    ensures Arrives(src, from, dst, to, YUV420, width, height, V, i, column)
  {
    CopyPlaneHits(src, from, LumaAndU(src, from, dst, to, YUV420, width, height), to, YUV420, V,
                  width / 2, height / 2, i, column);
  }

  lemma EvenSampleArrives(src: seq<Byte>, from: Layout, dst: seq<Byte>, to: Layout,
                          format: Format, width: nat, height: nat, plane: Plane, i: nat, j: nat)
    requires CanRepack(src, from, dst, to, format, width, height)
    requires width % 2 == 0 && height % 2 == 0 && InPicture(plane, i, j, width, height)
    ensures Arrives(src, from, dst, to, format, width, height,
                    if plane.V? && format.NV12? then U else plane, i, Column(format, plane, j))
  {
    var column := Column(format, plane, j);
    if plane.Y? {
      LumaArrives(src, from, dst, to, format, width, height, i, column);
    } else if plane.U? || format.NV12? {
      UArrives(src, from, dst, to, format, width, height, i, column);
    } else {
      VArrives(src, from, dst, to, width, height, i, column);
    }
  }

  /** Repacking an even-sized picture keeps it, whatever the two layouts. */
  lemma RepackKeepsPicture(src: seq<Byte>, from: Layout, dst: seq<Byte>, to: Layout,
                           format: Format, width: nat, height: nat)
    requires CanRepack(src, from, dst, to, format, width, height)
    requires width % 2 == 0 && height % 2 == 0
    ensures SamePicture(src, from, CopyPlanes(src, from, dst, to, format, width, height), to,
                        format, width, height)
  {
    forall plane: Plane, i: nat, j: nat | InPicture(plane, i, j, width, height)
      ensures SameSample(src, from, CopyPlanes(src, from, dst, to, format, width, height), to,
                         format, plane, i, j)
    {
      EvenSampleArrives(src, from, dst, to, format, width, height, plane, i, j);
    }
  }

  /** A byte of the destination behind the luma plane that no copied chroma row reaches. */
  lemma CopyPlanesMisses(src: seq<Byte>, from: Layout, dst: seq<Byte>, to: Layout, format: Format,
                         width: nat, height: nat, p: nat)
    requires CanRepack(src, from, dst, to, format, width, height)
    requires to.Chroma() <= p < |dst|
    requires forall plane <- {U, V} :: PlaneRows(to, format, plane).Misses(p, ChromaBytes(format, width), height / 2)
    ensures CopyPlanes(src, from, dst, to, format, width, height)[p] == dst[p]
  {
    PlaneEnd(to, format, Y);
    CopyPlaneMisses(src, from, dst, to, format, Y, width, height, p);
    CopyPlaneMisses(src, from, Luma(src, from, dst, to, format, width, height), to, format, U,
                    ChromaBytes(format, width), height / 2, p);
    if format.YUV420? {
      CopyPlaneMisses(src, from, LumaAndU(src, from, dst, to, format, width, height), to, format, V,
                      width / 2, height / 2, p);
    }
  }

  /** Repacking keeps the picture, whatever the bytes of the two frames. */
  ghost predicate AlwaysKeepsPicture(from: Layout, to: Layout, format: Format, width: nat, height: nat) {
    forall src: seq<Byte>, dst: seq<Byte> | CanRepack(src, from, dst, to, format, width, height) ::
      SamePicture(src, from, CopyPlanes(src, from, dst, to, format, width, height), to,
                  format, width, height)
  }

  /** Repacking keeps a picture for certain if and only if its size is even: otherwise the last
      chroma column or row is not copied. */
  lemma AlwaysKeepsPictureIffEven(from: Layout, to: Layout, format: Format, width: nat, height: nat)
    requires width <= from.stride && height <= from.planeHeight
    requires width <= to.stride && height <= to.planeHeight
    requires width > 0 && height > 0
    ensures AlwaysKeepsPicture(from, to, format, width, height) <==> width % 2 == 0 && height % 2 == 0
  {
    if width % 2 == 0 && height % 2 == 0 {
      forall src: seq<Byte>, dst: seq<Byte> | CanRepack(src, from, dst, to, format, width, height)
        ensures SamePicture(src, from, CopyPlanes(src, from, dst, to, format, width, height), to,
                            format, width, height)
      {
        RepackKeepsPicture(src, from, dst, to, format, width, height);
      }
    } else {
      OddSizeLosesChroma(from, to, format, width, height);
    }
  }

  /** The last sample of the V plane is behind everything that is copied when the size is odd. */
  lemma LastChromaIsMissed(to: Layout, format: Format, width: nat, height: nat)
    requires width <= to.stride && height <= to.planeHeight && width > 0 && height > 0
    requires width % 2 == 1 || height % 2 == 1
    ensures var i, j := (height + 1) / 2 - 1, (width + 1) / 2 - 1;
      var p := Address(to, format, V, i, j);
      && InPicture(V, i, j, width, height)
      && to.Chroma() <= p
      && forall plane <- {U, V} :: PlaneRows(to, format, plane).Misses(p, ChromaBytes(format, width), height / 2)
  {
    var i, j := (height + 1) / 2 - 1, (width + 1) / 2 - 1;
    var p, bytes := Address(to, format, V, i, j), ChromaBytes(format, width);
    var v := PlaneRows(to, format, V);
    forall k: nat | k < height / 2 ensures v.At(k) + bytes <= p {
      if k < i { RowEnd(v, k, i); }
    }
    if format.YUV420? {
      var u := PlaneRows(to, format, U);
      PlaneEnd(to, format, U);
      forall k: nat | k < height / 2 ensures u.At(k) + bytes <= p {
        RowEnd(u, k, RowCount(to, U));
      }
    }
  }

  /** Two frames that differ in every byte show it. */
  lemma LastChromaDiffers(src: seq<Byte>, from: Layout, dst: seq<Byte>, to: Layout, format: Format,
                          width: nat, height: nat)
    requires CanRepack(src, from, dst, to, format, width, height) && width > 0 && height > 0
    requires width % 2 == 1 || height % 2 == 1
    requires (forall i :: 0 <= i < |src| ==> src[i] == 0) && (forall i :: 0 <= i < |dst| ==> dst[i] == 1)
    ensures var i, j := (height + 1) / 2 - 1, (width + 1) / 2 - 1;
      !SameSample(src, from, CopyPlanes(src, from, dst, to, format, width, height), to, format, V, i, j)
  {
    var p := Address(to, format, V, (height + 1) / 2 - 1, (width + 1) / 2 - 1);
    LastChromaIsMissed(to, format, width, height);
    if p < |dst| {
      CopyPlanesMisses(src, from, dst, to, format, width, height, p);
    }
  }

  /** Of every odd size there are frames whose last chroma sample is lost. */
  lemma OddSizeLosesChroma(from: Layout, to: Layout, format: Format, width: nat, height: nat)
    requires width <= from.stride && height <= from.planeHeight
    requires width <= to.stride && height <= to.planeHeight
    requires width > 0 && height > 0
    requires width % 2 == 1 || height % 2 == 1
    ensures !AlwaysKeepsPicture(from, to, format, width, height)
  {
    var src: seq<Byte> := seq(from.Size(format), _ => 0);
    var dst: seq<Byte> := seq(to.Size(format), _ => 1);
    assert CanRepack(src, from, dst, to, format, width, height);
    LastChromaDiffers(src, from, dst, to, format, width, height);
    LastChromaIsMissed(to, format, width, height);
    assert !SamePicture(src, from, CopyPlanes(src, from, dst, to, format, width, height), to, format, width, height);
  }

  // ----- The codec's input buffer -----

  method Memcpy(dst: array<Byte>, offset: nat, data: seq<Byte>)
    requires offset + |data| <= dst.Length
    modifies dst
    ensures dst[..] == Overwrite(old(dst[..]), offset, data)
  {
    for k := 0 to |data|
      invariant forall i :: 0 <= i < dst.Length ==>
        dst[i] == if offset <= i < offset + k then data[i - offset] else old(dst[i])
    {
      dst[offset + k] := data[k];
    }
  }

  /** One more row. */
  method CopyRow(dst: array<Byte>, ghost before: seq<Byte>, d: Rows, src: seq<Byte>, s: Rows, bytes: nat, i: nat)
    requires d.Fit(bytes, i, |before|) && s.Fit(bytes, i, |src|)
    requires d.At(i) + bytes <= |before| == dst.Length && s.At(i) + bytes <= |src|
    requires dst[..] == CopyRows(before, d, src, s, bytes, i)
    modifies dst
    ensures d.Fit(bytes, i + 1, |before|) && s.Fit(bytes, i + 1, |src|)
    ensures dst[..] == CopyRows(before, d, src, s, bytes, i + 1)
  {
    Memcpy(dst, d.At(i), src[s.At(i)..s.At(i) + bytes]);
  }

  method CopyRowsInto(dst: array<Byte>, d: Rows, src: seq<Byte>, s: Rows, bytes: nat, rows: nat)
    requires d.Fit(bytes, rows, dst.Length) && s.Fit(bytes, rows, |src|)
    modifies dst
    ensures dst[..] == CopyRows(old(dst[..]), d, src, s, bytes, rows)
  {
    ghost var before := dst[..];
    var i := 0;
    while i < rows
      invariant i <= rows && d.Fit(bytes, i, |before|) && s.Fit(bytes, i, |src|)
      invariant dst[..] == CopyRows(before, d, src, s, bytes, i)
    {
      FewerRowsFit(d, bytes, i, rows, |before|);
      FewerRowsFit(s, bytes, i, rows, |src|);
      CopyRow(dst, before, d, src, s, bytes, i);
      i := i + 1;
    }
  }

  class V4L2Codec {
    const layout: Layout  // bytesperline and height of the queue

    constructor (layout: Layout)
      ensures this.layout == layout
    {
      this.layout := layout;
    }

    predicate NeedsRepack(from: Layout) { from.stride != layout.stride || from.planeHeight != layout.planeHeight }

    method CopyPlanesInto(src: seq<Byte>, from: Layout, format: Format, width: nat, height: nat, dst: array<Byte>)
      requires CanRepack(src, from, dst[..], layout, format, width, height)
      modifies dst
      ensures dst[..] == CopyPlanes(src, from, old(dst[..]), layout, format, width, height)
    {
      PlaneRowsFit(from, format, Y, width, height, |src|);
      PlaneRowsFit(layout, format, Y, width, height, dst.Length);
      CopyRowsInto(dst, PlaneRows(layout, format, Y), src, PlaneRows(from, format, Y), width, height);
      var bytes := ChromaBytes(format, width);
      PlaneRowsFit(from, format, U, bytes, height / 2, |src|);
      PlaneRowsFit(layout, format, U, bytes, height / 2, dst.Length);
      CopyRowsInto(dst, PlaneRows(layout, format, U), src, PlaneRows(from, format, U), bytes, height / 2);
      if format.NV12? {
        return;
      }
      PlaneRowsFit(from, format, V, bytes, height / 2, |src|);
      PlaneRowsFit(layout, format, V, bytes, height / 2, dst.Length);
      CopyRowsInto(dst, PlaneRows(layout, format, V), src, PlaneRows(from, format, V), bytes, height / 2);
    }

    /** How EmplaceBuffer fills an input buffer from CPU memory. Read with the queue's layout, the
        buffer then gives the frame's picture, unless an odd-sized one had to be repacked. */
    method FillInput(src: seq<Byte>, from: Layout, format: Format, width: nat, height: nat, dst: array<Byte>)
      returns (filled: bool)
      requires NeedsRepack(from) ==> CanRepack(src, from, dst[..], layout, format, width, height)
      modifies dst
      ensures filled <==> NeedsRepack(from) || |src| <= dst.Length
      ensures !filled ==> dst[..] == old(dst[..])
      ensures filled && NeedsRepack(from) && width % 2 == 0 && height % 2 == 0 ==>
        SamePicture(src, from, dst[..], layout, format, width, height)
      ensures filled && !NeedsRepack(from) ==> dst[..] == Overwrite(old(dst[..]), 0, src)
      ensures filled && !NeedsRepack(from) && from.Holds(width, height) && from.Size(format) <= |src| ==>
        SamePicture(src, from, dst[..], layout, format, width, height)
    {
      if NeedsRepack(from) {
        CopyPlanesInto(src, from, format, width, height, dst);
        if width % 2 == 0 && height % 2 == 0 {
          RepackKeepsPicture(src, from, old(dst[..]), layout, format, width, height);
        }
        return true;
      }
      if |src| > dst.Length {
        return false;
      }
      Memcpy(dst, 0, src);
      assert from == layout && dst[..|src|] == src;
      if from.Holds(width, height) && from.Size(format) <= |src| {
        SameBytesSamePicture(src, dst[..], layout, format, width, height);
      }
      return true;
    }
  }

  /** A plain copy shows the picture that the layout holds, of whatever size. */
  lemma SameBytesSamePicture(a: seq<Byte>, b: seq<Byte>, l: Layout, format: Format, width: nat, height: nat)
    requires l.Holds(width, height)
    requires l.Size(format) <= |a| && a <= b
    ensures SamePicture(a, l, b, l, format, width, height)
  {
    forall plane: Plane, i: nat, j: nat | InPicture(plane, i, j, width, height)
      ensures SameSample(a, l, b, l, format, plane, i, j)
    {
      AddressInFrame(l, format, width, height, plane, i, j);
    }
  }
}
