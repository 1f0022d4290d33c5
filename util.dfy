/** `CSUtil.GetDispatchGroupSize` (Runtime/Util.cs): how many thread groups to launch on
    each axis of a compute-shader dispatch. The kernel's thread-group dimensions come from
    the shader and are parameters here; a zero dimension makes the C# division throw, so
    the dimensions are positive. The `int / uint` arithmetic happens in 64 bits, where
    nothing overflows, and truncates toward zero. */
module Util {
  import opened Arith

  /** The group count on one axis, as written: `dispatch / dim + dispatch % dim`. */
  function GroupCount(dispatch: int, dim: int): (g: int)
    requires dim >= 1
    ensures dispatch == 0 ==> g == 0
    ensures dispatch >= 0 ==> 0 <= g
  {
    Quot(dispatch, dim) + Rem(dispatch, dim)
  }

  /** The three axes of a dispatch. */
  datatype Groups = Groups(x: int, y: int, z: int)

  /** `GetDispatchGroupSize`: each axis is computed on its own, from its own dispatch size
      and its own thread-group dimension. */
  function GetDispatchGroupSize(dispatchX: int, dispatchY: int, dispatchZ: int,
                                xDim: int, yDim: int, zDim: int): (g: Groups)
    requires xDim >= 1 && yDim >= 1 && zDim >= 1
    ensures g.x == GroupCount(dispatchX, xDim)
    ensures g.y == GroupCount(dispatchY, yDim)
    ensures g.z == GroupCount(dispatchZ, zDim)
  {
    Groups(Quot(dispatchX, xDim) + Rem(dispatchX, xDim),
           Quot(dispatchY, yDim) + Rem(dispatchY, yDim),
           Quot(dispatchZ, zDim) + Rem(dispatchZ, zDim))
  }

  /** When the dispatch size is a multiple of the dimension, the count is the quotient. */
  lemma GroupCountOfMultiple(q: int, dim: int)
    requires dim >= 1
    ensures GroupCount(q * dim, dim) == q
  {
    QuotRemIdentity(q * dim, dim);
    var r := Rem(q * dim, dim);
    assert (q - Quot(q * dim, dim)) * dim == r;
    if r != 0 {
      var d := q - Quot(q * dim, dim);
      if d > 0 {
        MulAtLeast(d, dim);
      } else {
        MulAtLeast(-d, dim);
      }
      assert false;
    }
  }

  /** The groups cover the dispatch: `count * dim >= dispatch`, and the count stays within
      `[0, dispatch]`, so the cast back to `int` cannot overflow. */
  lemma GroupCountCovers(dispatch: int, dim: int)
    requires dispatch >= 0 && dim >= 1
    ensures GroupCount(dispatch, dim) * dim >= dispatch
    ensures GroupCount(dispatch, dim) <= dispatch
  {
    CoverBound(dispatch, dim, dispatch / dim, dispatch % dim);
  }

  /** With `dispatch == q * dim + r`, the sum `q + r` covers the dispatch and does not
      exceed it. */
  lemma CoverBound(dispatch: int, dim: int, q: int, r: int)
    requires dim >= 1 && q >= 0 && r >= 0 && dispatch == q * dim + r
    ensures (q + r) * dim >= dispatch && q + r <= dispatch
  {
    MulGrows(r, dim);
    MulGrows(q, dim);
    assert (q + r) * dim == q * dim + r * dim;
  }

  /** Multiplying a non-negative number by a positive one does not make it smaller. */
  lemma MulGrows(a: int, b: int)
    requires a >= 0 && b >= 1
    ensures a * b >= a
  {
    if a > 0 {
      MulAtLeast(b, a);
    }
  }

  // ------------------------------------------------------------- finding

  /** The evidently intended count: the least number of whole groups that covers the
      dispatch, `ceil(dispatch / dim)`. */
  function CeilGroupCount(dispatch: int, dim: int): (g: int)
    requires dispatch >= 0 && dim >= 1
    ensures g >= 0
  {
    (dispatch + dim - 1) / dim
  }

  /** The ceiling count covers the dispatch, and one group fewer would not. */
  lemma CeilGroupCountIsLeast(dispatch: int, dim: int)
    requires dispatch >= 0 && dim >= 1
    ensures CeilGroupCount(dispatch, dim) * dim >= dispatch
    ensures (CeilGroupCount(dispatch, dim) - 1) * dim < dispatch
  {
    var g := CeilGroupCount(dispatch, dim);
    var r := (dispatch + dim - 1) % dim;
    assert dispatch + dim - 1 == g * dim + r;
    assert (g - 1) * dim == g * dim - dim;
  }

  /** The written count never launches fewer groups than the ceiling count; on a multiple
      of the dimension the two agree, and a remainder above one launches groups that are
      not needed. */
  lemma GroupCountAtLeastCeil(dispatch: int, dim: int)
    requires dispatch >= 0 && dim >= 1
    ensures GroupCount(dispatch, dim) >= CeilGroupCount(dispatch, dim)
    ensures dispatch % dim == 0 ==> GroupCount(dispatch, dim) == CeilGroupCount(dispatch, dim)
    ensures dispatch % dim > 1 ==> GroupCount(dispatch, dim) > CeilGroupCount(dispatch, dim)
  {
    var q, r := dispatch / dim, dispatch % dim;
    assert dispatch == q * dim + r;
    if r == 0 {
      ModUnique(dispatch + dim - 1, dim, q, dim - 1);
    } else {
      ModUnique(dispatch + dim - 1, dim, q + 1, r - 1);
    }
  }

  /** A dispatch of 7 over groups of 4 launches 4 groups as written, where 2 suffice. */
  lemma OverDispatchExample()
    ensures GroupCount(7, 4) == 4
    ensures CeilGroupCount(7, 4) == 2
  {
  }
}
