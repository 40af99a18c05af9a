/** Copying a decoded NV12 picture into a video frame without row padding. */
module Nv12 {
  import opened Strings
  import opened Bytes

  /** Where row `i` starts: `i * stride`, see `StartIsProduct`. */
  function Start(stride: nat, i: nat): (at: nat)
    ensures i > 0 ==> at >= stride
  {
    if i == 0 then 0 else Start(stride, i - 1) + stride
  }

  lemma {:induction false} StartIsProduct(stride: nat, i: nat)
    ensures Start(stride, i) == i * stride
  {
    if i > 0 {
      StartIsProduct(stride, i - 1);
    }
  }

  lemma {:induction false} StartGrows(stride: nat, i: nat, j: nat)
    requires i <= j
    ensures Start(stride, i) <= Start(stride, j)
    ensures i < j ==> Start(stride, i) + stride <= Start(stride, j)
    decreases j
  {
    if i < j {
      StartGrows(stride, i, j - 1);
    }
  }

  /** The plane holds `n` rows; behind the last one there may be no padding. */
  predicate PlaneFits(src: seq<byte>, stride: nat, w: nat, n: nat) {
    w <= stride && (n == 0 || Start(stride, n - 1) + w <= |src|)
  }

  lemma FewerFit(src: seq<byte>, stride: nat, w: nat, n: nat, i: nat)
    requires PlaneFits(src, stride, w, n) && i <= n
    ensures PlaneFits(src, stride, w, i)
  {
    if 0 < i {
      StartGrows(stride, i - 1, n - 1);
    }
  }

  /** The first `n` rows of a plane, each cut to `w` bytes. */
  function Rows(src: seq<byte>, stride: nat, w: nat, n: nat): (s: seq<byte>)
    requires PlaneFits(src, stride, w, n)
    ensures |s| == Start(w, n)
    decreases n
  {
    if n == 0 then [] else
    FewerFit(src, stride, w, n, n - 1);
    var at := Start(stride, n - 1);
    Rows(src, stride, w, n - 1) + src[at..at + w]
  }

  /** Byte `j` of row `i` is where the source has it; nothing of the padding is copied. */
  lemma {:induction false} RowsAt(src: seq<byte>, stride: nat, w: nat, n: nat, i: nat, j: nat)
    requires PlaneFits(src, stride, w, n) && i < n && j < w
    ensures i * w + j < |Rows(src, stride, w, n)| == n * w && i * stride + j < |src|
    ensures Rows(src, stride, w, n)[i * w + j] == src[i * stride + j]
  {
    RowsAtStart(src, stride, w, n, i, j);
    StartIsProduct(w, i);
    StartIsProduct(w, n);
    StartIsProduct(stride, i);
  }

  lemma {:induction false} RowsAtStart(src: seq<byte>, stride: nat, w: nat, n: nat, i: nat, j: nat)
    requires PlaneFits(src, stride, w, n) && i < n && j < w
    ensures Start(w, i) + j < Start(w, n) && Start(stride, i) + j < |src|
    ensures Rows(src, stride, w, n)[Start(w, i) + j] == src[Start(stride, i) + j]
    decreases n
  {
    FewerFit(src, stride, w, n, n - 1);
    var at := Start(stride, n - 1);
    assert Rows(src, stride, w, n) == Rows(src, stride, w, n - 1) + src[at..at + w];
    if i < n - 1 {
      RowsAtStart(src, stride, w, n - 1, i, j);
    }
  }

  /** Without padding, the rows are a prefix of the source. */
  lemma {:induction false} RowsUnpadded(src: seq<byte>, w: nat, n: nat)
    requires Start(w, n) <= |src|
    ensures PlaneFits(src, w, w, n)
    ensures Rows(src, w, w, n) == src[..Start(w, n)]
    decreases n
  {
    if n > 0 {
      RowsUnpadded(src, w, n - 1);
      var at := Start(w, n - 1);
      assert src[..at + w] == src[..at] + src[at..at + w];
    }
  }

  /** The bytes one plane gets: all of `size` at once when the rows are not padded, else row by row. */
  function Written(src: seq<byte>, stride: nat, w: nat, n: nat, size: nat): (s: seq<byte>)
    requires PlaneFits(src, stride, w, n) && (stride == w ==> size <= |src|)
  {
    if stride == w then src[..size] else Rows(src, stride, w, n)
  }

  lemma AtOnceIsRowsIff(src: seq<byte>, w: nat, n: nat, size: nat)
    requires Start(w, n) <= size <= |src|
    ensures PlaneFits(src, w, w, n)
    ensures Written(src, w, w, n, size)[..Start(w, n)] == Rows(src, w, w, n)
    ensures Written(src, w, w, n, size) == Rows(src, w, w, n) <==> size == Start(w, n)
  {
    RowsUnpadded(src, w, n);
  }

  /** The luma plane gets its rows whichever way it is copied. */
  lemma LumaIsRows(src: seq<byte>, stride: nat, w: nat, h: nat)
    requires PlaneFits(src, stride, w, h) && h > 0
    ensures stride == w ==> Start(w, h) <= |src|
    ensures Written(src, stride, w, h, Start(w, h)) == Rows(src, stride, w, h)
  {
    if stride == w {
      RowsUnpadded(src, w, h);
    }
  }

  /** The chroma bytes of a picture as the copy at once counts them, and its chroma rows as the loop does. */
  function ChromaSize(w: nat, h: nat): nat {
    w * h / 2
  }

  function ChromaRows(h: nat): nat {
    h / 2
  }

  function ChromaRowsUp(h: nat): nat {
    (h + 1) / 2
  }

  lemma Halved(w: nat, k: nat)
    ensures w * (2 * k) / 2 == w * k
    ensures w * (2 * k + 1) / 2 == w * k + w / 2
    ensures w * (k + 1) == w * k + w
  {
    assert w * (2 * k) == 2 * (w * k);
    assert w * (2 * k + 1) == 2 * (w * k) + w;
  }

  lemma HalfRows(w: nat, h: nat)
    ensures Start(w, ChromaRows(h)) <= ChromaSize(w, h) <= Start(w, ChromaRowsUp(h))
    ensures ChromaSize(w, h) == Start(w, ChromaRows(h)) <==> h % 2 == 0 || w < 2
  {
    var k := h / 2;
    Halved(w, k);
    StartIsProduct(w, k);
    StartIsProduct(w, k + 1);
    if h % 2 == 0 {
      assert h == 2 * k;
    } else {
      assert h == 2 * k + 1;
    }
  }

  /** The chroma plane copied at once has the same bytes as copied row by row if and only if the height is even
      (or a row has fewer than two bytes); else half a row too much is copied. */
  lemma ChromaIsRowsIff(src: seq<byte>, w: nat, h: nat)
    requires Start(w, ChromaRowsUp(h)) <= |src|
    ensures ChromaSize(w, h) <= |src| && PlaneFits(src, w, w, ChromaRows(h))
    ensures Written(src, w, w, ChromaRows(h), ChromaSize(w, h)) == Rows(src, w, w, ChromaRows(h))
       <==> h % 2 == 0 || w < 2
  {
    HalfRows(w, h);
    AtOnceIsRowsIff(src, w, ChromaRows(h), ChromaSize(w, h));
  }

  // ------------------------------------------------------------------- the copy

  method MemCpy(dst: array<byte>, at: nat, src: array<byte>, from: nat, n: nat)
    requires dst != src && at + n <= dst.Length && from + n <= src.Length
    modifies dst
    ensures dst[..] == old(dst[..at]) + src[from..from + n] + old(dst[at + n..])
  {
    var i := 0;
    while i < n
      invariant 0 <= i <= n
      invariant dst[..at] == old(dst[..at]) && dst[at + n..] == old(dst[at + n..])
      invariant dst[at..at + i] == src[from..from + i]
    {
      dst[at + i] := src[from + i];
      i := i + 1;
    }
    assert dst[..] == dst[..at] + dst[at..at + n] + dst[at + n..];
  }

  /** The first `i` rows are copied, the rest is as it was. */
  predicate RowsDone(s: seq<byte>, stride: nat, w: nat, i: nat, was: seq<byte>, now: seq<byte>) {
    PlaneFits(s, stride, w, i) && Start(w, i) <= |was| && now == Rows(s, stride, w, i) + was[Start(w, i)..]
  }

  method CopyRow(dst: array<byte>, src: array<byte>, stride: nat, w: nat, i: nat, ghost was: seq<byte>)
    requires dst != src && PlaneFits(src[..], stride, w, i + 1) && Start(w, i + 1) <= |was|
    requires RowsDone(src[..], stride, w, i, was, dst[..])
    modifies dst
    ensures RowsDone(src[..], stride, w, i + 1, was, dst[..])
  {
    ghost var s, before := src[..], dst[..];
    StartIsProduct(w, i);
    StartIsProduct(stride, i);
    var at, from := i * w, i * stride;
    MemCpy(dst, at, src, from, w);
    assert before[..at] == Rows(s, stride, w, i);
    assert before[at + w..] == was[Start(w, i + 1)..];
    assert Rows(s, stride, w, i + 1) == Rows(s, stride, w, i) + s[from..from + w];
  }

  method CopyRows(dst: array<byte>, src: array<byte>, stride: nat, w: nat, n: nat)
    requires dst != src && PlaneFits(src[..], stride, w, n) && Start(w, n) <= dst.Length
    modifies dst
    ensures dst[..] == Rows(src[..], stride, w, n) + old(dst[Start(w, n)..])
  {
    ghost var was := dst[..];
    var i := 0;
    while i < n
      invariant 0 <= i <= n && RowsDone(src[..], stride, w, i, was, dst[..])
    {
      FewerFit(src[..], stride, w, n, i + 1);
      StartGrows(w, i + 1, n);
      CopyRow(dst, src, stride, w, i, was);
      i := i + 1;
    }
  }

  /** Copies one plane; what lies behind the bytes written keeps its value. */
  method CopyPlane(dst: array<byte>, src: array<byte>, stride: nat, w: nat, n: nat, size: nat)
    requires dst != src && PlaneFits(src[..], stride, w, n)
    requires Start(w, n) <= size <= dst.Length && (stride == w ==> size <= src.Length)
    modifies dst
    ensures var bytes := Written(src[..], stride, w, n, size);
            |bytes| <= dst.Length && dst[..] == bytes + old(dst[|bytes|..])
  {
    if stride == w {
      MemCpy(dst, 0, src, 0, size);
      assert src[0..size] == src[..][..size];
    } else {
      CopyRows(dst, src, stride, w, n);
    }
  }

  lemma ChromaFits(src: seq<byte>, stride: nat, w: nat, h: nat)
    requires PlaneFits(src, stride, w, ChromaRowsUp(h)) && h > 0
    ensures PlaneFits(src, stride, w, ChromaRows(h))
    ensures stride == w ==> Start(w, ChromaRowsUp(h)) <= |src|
  {
    FewerFit(src, stride, w, ChromaRowsUp(h), ChromaRows(h));
  }

  datatype Frame = Frame(width: nat, height: nat, y: array<byte>, uv: array<byte>)

  /** The planes of a frame show the picture: all luma rows, and the chroma rows, half as many. */
  ghost predicate Shows(f: Frame, y: seq<byte>, strideY: nat, uv: seq<byte>, strideUV: nat)
    requires PlaneFits(y, strideY, f.width, f.height) && PlaneFits(uv, strideUV, f.width, ChromaRows(f.height))
    reads f.y, f.uv
  {
    var rows := ChromaRows(f.height);
    && f.y[..] == Rows(y, strideY, f.width, f.height)
    && Start(f.width, rows) <= f.uv.Length == Start(f.width, ChromaRowsUp(f.height))
    && f.uv[..Start(f.width, rows)] == Rows(uv, strideUV, f.width, rows)
  }

  method CopyChroma(dst: array<byte>, src: array<byte>, w: nat, h: nat, stride: nat)
    requires dst != src && h > 0 && PlaneFits(src[..], stride, w, ChromaRowsUp(h))
    requires dst.Length == Start(w, ChromaRowsUp(h))
    modifies dst
    ensures PlaneFits(src[..], stride, w, ChromaRows(h)) && Start(w, ChromaRows(h)) <= dst.Length
    ensures dst[..Start(w, ChromaRows(h))] == Rows(src[..], stride, w, ChromaRows(h))
  {
    HalfRows(w, h);
    ChromaFits(src[..], stride, w, h);
    CopyPlane(dst, src, stride, w, ChromaRows(h), ChromaSize(w, h));
    if stride == w {
      AtOnceIsRowsIff(src[..], w, ChromaRows(h), ChromaSize(w, h));
    }
  }

  method CopyFrame(dataY: array<byte>, dataUV: array<byte>, w: nat, h: nat, strideY: nat, strideUV: nat)
    returns (frame: Frame)
    requires h > 0 && PlaneFits(dataY[..], strideY, w, h) && PlaneFits(dataUV[..], strideUV, w, ChromaRowsUp(h))
    ensures fresh(frame.y) && fresh(frame.uv) && frame.width == w && frame.height == h
    ensures PlaneFits(dataUV[..], strideUV, w, ChromaRows(h)) && Shows(frame, dataY[..], strideY, dataUV[..], strideUV)
  {
    var y := new byte[Start(w, h)];
    var uv := new byte[Start(w, ChromaRowsUp(h))];
    LumaIsRows(dataY[..], strideY, w, h);
    CopyPlane(y, dataY, strideY, w, h, Start(w, h));
    CopyChroma(uv, dataUV, w, h, strideUV);
    frame := Frame(w, h, y, uv);
  }

  /** The decoder's callback. `mapped` says whether the new frame could be mapped for writing. The decoder's planes hold
      `height` rows and half of `height` rows, the half rounded up. */
  method OnFrameReady(dataY: array?<byte>, dataUV: array?<byte>, width: int, height: int,
                      strideY: nat, strideUV: nat, mapped: bool) returns (frame: Option<Frame>)
    requires dataY != null && width > 0 && height > 0 ==> PlaneFits(dataY[..], strideY, width, height)
    requires dataUV != null && width > 0 && height > 0 ==> PlaneFits(dataUV[..], strideUV, width, ChromaRowsUp(height))
    ensures frame.Some? <==> dataY != null && dataUV != null && width > 0 && height > 0 && mapped
    ensures frame.Some? ==>
              var f := frame.value;
              && f.width == width && f.height == height
              && PlaneFits(dataUV[..], strideUV, width, ChromaRows(height))
              && Shows(f, dataY[..], strideY, dataUV[..], strideUV)
  {
    if dataY == null || dataUV == null || width <= 0 || height <= 0 {
      return None;
    }
    if !mapped {
      return None;
    }
    var f := CopyFrame(dataY, dataUV, width, height, strideY, strideUV);
    frame := Some(f);
  }
}
