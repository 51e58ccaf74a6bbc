/** How the output tensors are laid out, and what the two decoders do alike with one cell. */
module GridLayout {
  import opened Geometry
  import opened RealSums
  import opened Text

  const STRIDES: seq<nat> := [8, 16, 32]

  /** How many cells of scale s lie along a side of the input. */
  function Cells(side: nat, s: nat): nat
    requires s < 3
  {
    side / STRIDES[s]
  }

  /** A row-major position: plane (or row) first, then the place inside it. */
  function Offset(width: nat, row: nat, column: nat): nat {
    row * width + column
  }

  lemma {:induction false} RowsGrow(width: nat, row: nat, rows: nat)
    requires row <= rows
    ensures row * width <= rows * width
    ensures row < rows ==> row * width + width <= rows * width
    decreases rows
  {
    if row < rows {
      RowsGrow(width, row, rows - 1);
      assert rows * width == (rows - 1) * width + width;
    }
  }

  lemma OffsetInBounds(width: nat, rows: nat, row: nat, column: nat)
    requires row < rows && column < width
    ensures Offset(width, row, column) < rows * width
  {
    RowsGrow(width, row, rows);
  }

  lemma OffsetUnique(width: nat, row: nat, column: nat, row': nat, column': nat)
    requires column < width && column' < width && Offset(width, row, column) == Offset(width, row', column')
    ensures row == row' && column == column'
  {
    if row < row' {
      OffsetInBounds(width, row', row, column);
    } else if row' < row {
      OffsetInBounds(width, row, row', column');
    }
  }

  lemma OffsetOnto(width: nat, rows: nat, k: nat) returns (row: nat, column: nat)
    requires k < rows * width
    ensures row < rows && column < width && Offset(width, row, column) == k
  {
    assert width > 0;
    row, column := k / width, k % width;
    if rows <= row {
      RowsGrow(width, rows, row);
    }
  }

  /** The parts one behind the other. */
  function Concat<T>(parts: seq<seq<T>>): seq<T>
    decreases |parts|
  {
    if parts == [] then [] else Concat(parts[..|parts| - 1]) + parts[|parts| - 1]
  }

  predicate AllOf<T>(parts: seq<seq<T>>, width: nat) {
    forall i | 0 <= i < |parts| :: |parts[i]| == width
  }

  function Product(rows: nat, width: nat): nat {
    rows * width
  }

  lemma OneMoreRow(rows: nat, width: nat)
    ensures Product(rows + 1, width) == Product(rows, width) + width
  {
  }

  /** Parts of one width lie in row-major order. */
  lemma {:induction false} ConcatAt<T>(parts: seq<seq<T>>, width: nat, row: nat, column: nat)
    requires AllOf(parts, width) && row < |parts| && column < width
    ensures |Concat(parts)| == Product(|parts|, width)
    ensures Offset(width, row, column) < |Concat(parts)|
    ensures Concat(parts)[Offset(width, row, column)] == parts[row][column]
    decreases |parts|
  {
    var n := |parts| - 1;
    ConcatSize(parts, width);
    ConcatSize(parts[..n], width);
    OffsetInBounds(width, |parts|, row, column);
    if row < n {
      OffsetInBounds(width, n, row, column);
      ConcatAt(parts[..n], width, row, column);
    }
  }

  lemma {:induction false} ConcatSize<T>(parts: seq<seq<T>>, width: nat)
    requires AllOf(parts, width)
    ensures |Concat(parts)| == Product(|parts|, width)
    decreases |parts|
  {
    if parts != [] {
      ConcatSize(parts[..|parts| - 1], width);
      OneMoreRow(|parts| - 1, width);
    }
  }

  lemma {:induction false} ConcatAll<T>(parts: seq<seq<seq<T>>>, width: nat, size: nat)
    requires AllOf(parts, width) && forall i | 0 <= i < |parts| :: AllOf(parts[i], size)
    ensures AllOf(Concat(parts), size)
    decreases |parts|
  {
    if parts != [] {
      ConcatAll(parts[..|parts| - 1], width, size);
    }
  }

  /** A tensor of groups of channels, each channel a grid of rows. */
  type Tensor = seq<seq<seq<seq<real>>>>

  predicate Shaped(t: Tensor, groups: nat, channels: nat, height: nat, width: nat) {
    && |t| == groups && AllOf(t, channels)
    && (forall g | 0 <= g < |t| :: AllOf(t[g], height))
    && (forall g, k | 0 <= g < |t| && 0 <= k < |t[g]| :: AllOf(t[g][k], width))
  }

  /** Its elements, group by group, channel by channel, row by row. */
  function Flat(t: Tensor): seq<real> {
    Concat(Concat(Concat(t)))
  }

  lemma {:induction false} RowsOf(t: Tensor, groups: nat, channels: nat, height: nat, width: nat)
    requires Shaped(t, groups, channels, height, width)
    ensures AllOf(Concat(t), height) && AllOf(Concat(Concat(t)), width)
    decreases groups
  {
    ConcatAll(t, channels, height);
    PlanesOf(t, channels, width);
    ConcatAll(Concat(t), height, width);
  }

  lemma {:induction false} PlanesOf(t: Tensor, channels: nat, width: nat)
    requires forall g, k | 0 <= g < |t| && 0 <= k < |t[g]| :: AllOf(t[g][k], width)
    ensures forall p | 0 <= p < |Concat(t)| :: AllOf(Concat(t)[p], width)
    decreases |t|
  {
    if t != [] {
      var n := |t| - 1;
      PlanesOf(t[..n], channels, width);
      var before, last := Concat(t[..n]), t[n];
      forall p | 0 <= p < |Concat(t)| ensures AllOf(Concat(t)[p], width) {
        assert Concat(t)[p] == if p < |before| then before[p] else last[p - |before|];
      }
    }
  }

  /** Where an element of the tensor lies in it. */
  lemma FlatAt(t: Tensor, groups: nat, channels: nat, height: nat, width: nat, g: nat, k: nat, y: nat, x: nat)
    requires Shaped(t, groups, channels, height, width) && g < groups && k < channels && y < height && x < width
    ensures |Flat(t)| == Product(Product(Product(groups, channels), height), width)
    ensures var at := Offset(width, Offset(height, Offset(channels, g, k), y), x);
      at < |Flat(t)| && Flat(t)[at] == t[g][k][y][x]
  {
    RowsOf(t, groups, channels, height, width);
    ConcatAt(t, channels, g, k);
    ConcatAt(Concat(t), height, Offset(channels, g, k), y);
    ConcatAt(Concat(Concat(t)), width, Offset(height, Offset(channels, g, k), y), x);
  }

  lemma NestedOffset(height: nat, width: nat, plane: nat, y: nat, x: nat)
    ensures Offset(width, Offset(height, plane, y), x) == Offset(height * width, plane, Offset(width, y, x))
  {
  }

  function Clamp01(v: real): (r: real)
    ensures 0.0 <= r <= 1.0
  {
    Max(0.0, Min(1.0, v))
  }

  lemma ClampMonotone(v: real, w: real)
    requires v <= w
    ensures Clamp01(v) <= Clamp01(w)
  {
  }

  /** Inside the image, corners in order. */
  predicate InUnitSquare(b: Box) {
    0.0 <= b.xMin <= b.xMax <= 1.0 && 0.0 <= b.yMin <= b.yMax <= 1.0
  }

  function Label(classNames: seq<string>, k: nat): string {
    if k < |classNames| then classNames[k] else "class_" + IntToString(k)
  }

  /** The list with the candidate of one more cell, if that cell has one. */
  function Listed(candidates: seq<Detection>, d: Option<Detection>): seq<Detection> {
    if d.Some? then candidates + [d.value] else candidates
  }

  lemma Regroup(a: seq<Detection>, b: seq<Detection>, d: seq<Detection>)
    ensures a + b + d == a + (b + d)
  {
  }

  lemma ListedBehind(found: seq<Detection>, candidates: seq<Detection>, next: Option<Detection>)
    ensures found + Listed(candidates, next) == Listed(found + candidates, next)
  {
  }

  lemma ListedMembers(candidates: seq<Detection>, next: Option<Detection>, d: Detection)
    ensures d in Listed(candidates, next) <==> d in candidates || next == Some(d)
  {
  }
}
