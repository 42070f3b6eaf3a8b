/** One check of the bordered reference plane, made when a search context is built, stands for a bounds check of every
    pixel of every candidate block. */
module FullPelPlane {
  import opened Arith

  /** The luma plane with its border: pixel (row, col) of the coded picture is at origin + row * stride + col of a
      buffer of `length` bytes. */
  datatype Plane = Plane(codedWidth: int, codedHeight: int, border: int, origin: int, stride: int, length: nat)

  function Offset(p: Plane, row: int, col: int): int {
    p.origin + row * p.stride + col
  }

  /** The plane is large enough for a block at all, and its rows do not overlap. */
  predicate Shaped(p: Plane, width: int, height: int) {
    && 0 < Min(width, height) && p.length != 0 && 0 <= Min(p.origin, p.border)
    && width <= p.codedWidth + 2 * p.border && height <= p.codedHeight + 2 * p.border
    && p.codedWidth + 2 * p.border <= p.stride
  }

  /** The source's check. */
  predicate BufferOK(p: Plane, width: int, height: int) {
    && Shaped(p, width, height)
    && 0 <= p.origin - p.border * p.stride - p.border
    && p.origin + (p.codedHeight + p.border - 1) * p.stride + (p.codedWidth + p.border) <= p.length
  }

  /** A signed 64-bit integer taken as unsigned. */
  function Unsigned(x: int): (r: int)
    requires IsInt(x)
    ensures 0 <= r < TWO_TO_THE_64 && (0 <= x ==> r == x) && (x < 0 ==> r > MAX_INT)
  {
    if 0 <= x then x else x + TWO_TO_THE_64
  }

  /** What a search context keeps of the plane: nothing, or the two limits of the candidate test. */
  datatype Context = Unusable | Usable(plane: Plane, rowLimit: int, colLimit: int)

  function NewContext(p: Plane, width: int, height: int): Context
    requires IsInt(p.codedHeight + 2 * p.border - height) && IsInt(p.codedWidth + 2 * p.border - width)
  {
    if !BufferOK(p, width, height) then Unusable
    else Usable(p, Unsigned(p.codedHeight + 2 * p.border - height), Unsigned(p.codedWidth + 2 * p.border - width))
  }

  /** The two comparisons made for each candidate. */
  predicate Passes(p: Plane, rowLimit: int, colLimit: int, baseY: int, baseX: int)
    requires IsInt(baseY + p.border) && IsInt(baseX + p.border)
  {
    Unsigned(baseY + p.border) <= rowLimit && Unsigned(baseX + p.border) <= colLimit
  }

  /** Every pixel of the block at (baseY, baseX) lies in the buffer. */
  ghost predicate BlockInBuffer(p: Plane, width: int, height: int, baseY: int, baseX: int) {
    forall row, col :: baseY <= row < baseY + height && baseX <= col < baseX + width ==>
      0 <= Offset(p, row, col) < p.length
  }

  /** Every candidate that passes has its whole block in the buffer. */
  ghost predicate EveryCandidateInBuffer(p: Plane, width: int, height: int)
    requires IsInt(p.codedHeight + 2 * p.border - height) && IsInt(p.codedWidth + 2 * p.border - width)
  {
    forall y, x {:trigger BlockInBuffer(p, width, height, y, x)} ::
      (&& IsInt(y + p.border) && IsInt(x + p.border)
       && Passes(p, Unsigned(p.codedHeight + 2 * p.border - height), Unsigned(p.codedWidth + 2 * p.border - width),
                 y, x)) ==>
        BlockInBuffer(p, width, height, y, x)
  }

  /** The comparisons keep the block inside the bordered plane. */
  lemma PassingIsInside(p: Plane, width: int, height: int, baseY: int, baseX: int)
    requires IsInt(p.codedHeight + 2 * p.border - height) && IsInt(p.codedWidth + 2 * p.border - width)
    requires Shaped(p, width, height) && IsInt(baseY + p.border) && IsInt(baseX + p.border)
    ensures Passes(p, Unsigned(p.codedHeight + 2 * p.border - height), Unsigned(p.codedWidth + 2 * p.border - width),
                   baseY, baseX) <==>
            -p.border <= baseY <= p.codedHeight + p.border - height &&
            -p.border <= baseX <= p.codedWidth + p.border - width
  {
  }

  lemma OffsetBetween(p: Plane, row: int, col: int)
    requires 0 <= p.stride && -p.border <= row <= p.codedHeight + p.border - 1
    requires -p.border <= col <= p.codedWidth + p.border - 1
    ensures Offset(p, -p.border, -p.border) <= Offset(p, row, col)
    ensures Offset(p, row, col) <= Offset(p, p.codedHeight + p.border - 1, p.codedWidth + p.border - 1)
  {
    ProductGrows(-p.border, row, p.stride);
    ProductGrows(row, p.codedHeight + p.border - 1, p.stride);
  }

  lemma Corners(p: Plane)
    ensures Offset(p, -p.border, -p.border) == p.origin - p.border * p.stride - p.border
  {
    assert (-p.border) * p.stride == -(p.border * p.stride);
  }

  /** One plane check covers every candidate, and is no stricter than it has to be: on a plane of the right shape it
      holds exactly when all pixels of all passing candidate blocks lie in the buffer. */
  lemma OneCheckCoversEveryCandidate(p: Plane, width: int, height: int)
    requires IsInt(p.codedHeight + 2 * p.border - height) && IsInt(p.codedWidth + 2 * p.border - width)
    requires Shaped(p, width, height)
    ensures BufferOK(p, width, height) <==> EveryCandidateInBuffer(p, width, height)
  {
    Corners(p);
    if BufferOK(p, width, height) {
      forall y, x | IsInt(y + p.border) && IsInt(x + p.border) &&
                    Passes(p, Unsigned(p.codedHeight + 2 * p.border - height),
                           Unsigned(p.codedWidth + 2 * p.border - width), y, x)
        ensures BlockInBuffer(p, width, height, y, x)
      {
        PassingIsInside(p, width, height, y, x);
        InsideIsInBuffer(p, width, height, y, x);
      }
    } else {
      CornerCandidatesFail(p, width, height);
    }
  }

  lemma InsideIsInBuffer(p: Plane, width: int, height: int, y: int, x: int)
    requires BufferOK(p, width, height)
    requires -p.border <= y <= p.codedHeight + p.border - height && -p.border <= x <= p.codedWidth + p.border - width
    ensures BlockInBuffer(p, width, height, y, x)
  {
    Corners(p);
    forall row, col | y <= row < y + height && x <= col < x + width
      ensures 0 <= Offset(p, row, col) < p.length
    {
      OffsetBetween(p, row, col);
    }
  }

  /** If either inequality fails, the top left or the bottom right candidate passes and sticks out. */
  lemma CornerCandidatesFail(p: Plane, width: int, height: int)
    requires IsInt(p.codedHeight + 2 * p.border - height) && IsInt(p.codedWidth + 2 * p.border - width)
    requires Shaped(p, width, height) && !BufferOK(p, width, height)
    ensures !EveryCandidateInBuffer(p, width, height)
  {
    Corners(p);
    var y, x := p.codedHeight + p.border - height, p.codedWidth + p.border - width;
    PassingIsInside(p, width, height, -p.border, -p.border);
    PassingIsInside(p, width, height, y, x);
    if BlockInBuffer(p, width, height, -p.border, -p.border) {
      assert 0 <= Offset(p, -p.border, -p.border);
      assert Offset(p, p.codedHeight + p.border - 1, p.codedWidth + p.border - 1) >= p.length;
      assert !BlockInBuffer(p, width, height, y, x);
    }
  }

  /** So a search context that is usable lets no candidate through whose block is not wholly in the buffer. */
  lemma ContextIsSafe(p: Plane, width: int, height: int, baseY: int, baseX: int)
    requires IsInt(p.codedHeight + 2 * p.border - height) && IsInt(p.codedWidth + 2 * p.border - width)
    requires IsInt(baseY + p.border) && IsInt(baseX + p.border)
    ensures var c := NewContext(p, width, height);
            c.Usable? && Passes(c.plane, c.rowLimit, c.colLimit, baseY, baseX) ==>
              BlockInBuffer(p, width, height, baseY, baseX)
  {
    if NewContext(p, width, height).Usable? {
      OneCheckCoversEveryCandidate(p, width, height);
    }
  }
}
