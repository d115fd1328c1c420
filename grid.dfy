/**
 * `myst.Grid2D` (src/myst.js): a width × height grid stored row by row in one JavaScript
 * array. The array is created empty, so a cell never written reads as `undefined`; a
 * position outside the grid still maps to the index `y * width + x` and is kept there, as
 * a JavaScript array keeps any index it is given.
 */
module Grids {
  import opened Wrappers
  import opened Arith

  /** A cell's content: the number 0 (the default default) or a value of the grid's type. */
  datatype Fill<T> = Zero | Value(value: T)

  /** The default the constructor settles on: the given one, or 0 when omitted. */
  function DefaultFill<T>(defaultValue: Option<T>): (r: Fill<T>)
    ensures defaultValue.None? <==> r.Zero?
    ensures defaultValue.Some? ==> r == Value(defaultValue.value)
  {
    match defaultValue
    case None => Zero
    case Some(v) => Value(v)
  }

  /** The array index of position (x, y) in a grid `width` cells wide. */
  function Index(width: int, x: int, y: int): int {
    y * width + x
  }

  /** Inside the grid, positions and indices correspond one to one, and every index lies in
      [0, width * height). */
  lemma IndexInGrid(width: int, height: int, x: int, y: int)
    requires 0 <= x < width && 0 <= y < height
    ensures 0 <= Index(width, x, y) < width * height
  {
    MulLe(y, height - 1, width);
    assert (height - 1) * width + width == height * width;
  }

  lemma IndexInjective(width: int, x: int, y: int, x': int, y': int)
    requires 0 <= x < width && 0 <= x' < width && 0 <= y && 0 <= y'
    requires Index(width, x, y) == Index(width, x', y')
    ensures x == x' && y == y'
  {
    if y < y' {
      MulLe(y + 1, y', width);
    } else if y' < y {
      MulLe(y' + 1, y, width);
    }
  }

  class Grid2D<T> {
    const width: int
    const height: int
    const defaultValue: Fill<T>
    var data: map<int, Fill<T>>

    /** `new Grid2D(w, h, defaultValue)`; `new Array(w * h)` demands a length that is not
        negative. */
    constructor (w: int, h: int, defaultValue: Option<T>)
      requires w * h >= 0
      ensures width == w && height == h && this.defaultValue == DefaultFill(defaultValue)
      ensures data == map[]
    {
      width := w;
      height := h;
      this.defaultValue := DefaultFill(defaultValue);
      data := map[];
    }

    /** `get(x, y)`: None stands for `undefined`. */
    function Get(x: int, y: int): Option<Fill<T>>
      reads this
    {
      var i := Index(width, x, y);
      if i in data then Some(data[i]) else None
    }

    /** `clear()`: every one of the width × height cells holds the default; any index
        outside them keeps what it held. */
    method Clear()
      requires width * height >= 0
      modifies this
      ensures forall x, y :: 0 <= x < width && 0 <= y < height ==> Get(x, y) == Some(defaultValue)
      ensures forall i :: !(0 <= i < width * height) ==> (i in data <==> i in old(data)) && (i in data ==> data[i] == old(data)[i])
      ensures forall i :: 0 <= i < width * height ==> i in data && data[i] == defaultValue
    {
      var n := width * height;
      for i := 0 to n
        invariant forall k :: 0 <= k < i ==> k in data && data[k] == defaultValue
        invariant forall k :: !(0 <= k < i) ==> (k in data <==> k in old(data)) && (k in data ==> data[k] == old(data)[k])
      {
        data := data[i := defaultValue];
      }
      forall x, y | 0 <= x < width && 0 <= y < height
        ensures Get(x, y) == Some(defaultValue)
      {
        IndexInGrid(width, height, x, y);
      }
    }

    /** `set(x, y, value)`: afterwards `get(x, y)` is the value, and every position at
        another index reads as before. */
    method Set(x: int, y: int, value: T)
      modifies this
      ensures data == old(data)[Index(width, x, y) := Value(value)]
      ensures Get(x, y) == Some(Value(value))
      ensures forall x', y' :: Index(width, x', y') != Index(width, x, y) ==> Get(x', y') == old(Get(x', y'))
    {
      data := data[Index(width, x, y) := Value(value)];
    }
  }

  /** Inside the grid, setting one cell leaves every other cell as it was. */
  lemma OtherCellsKept(width: int, height: int, x: int, y: int, x': int, y': int)
    requires 0 <= x < width && 0 <= x' < width && 0 <= y < height && 0 <= y' < height
    requires x != x' || y != y'
    ensures Index(width, x', y') != Index(width, x, y)
  {
    if Index(width, x', y') == Index(width, x, y) {
      IndexInjective(width, x, y, x', y');
    }
  }
}
