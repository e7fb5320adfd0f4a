/** The fractal session state and its grid geometry (src/fractal.rs).

    Values the source keeps as `f64` are modelled as exact `real`s; the model
    therefore says nothing about rounding. */
module Fractals {
  import opened Settings

  /** Rust's `u8` and `u32`. */
  type u8 = x: int | 0 <= x < 0x100
  type u32 = x: int | 0 <= x < 0x1_0000_0000

  /** `Complex<f64>` from num_complex, over the reals. */
  datatype Complex = Complex(re: real, im: real)

  /** An RGB colour, `(u8, u8, u8)` or `Rgb<u8>`. */
  datatype Rgb = Rgb(r: u8, g: u8, b: u8)

  const Black := Rgb(0, 0, 0)

  /** One palette entry `(u32, (u8, u8, u8))`: an iteration boundary and the colour anchored there. */
  datatype PaletteEntry = PaletteEntry(bound: u32, colour: Rgb)

  type Palette = seq<PaletteEntry>

  /** The application state. Only `AppStart` occurs in the modelled code. */
  datatype AppState = AppStart

  /** Real part of the left edge of the grid. */
  function LeftLimit(midPt: Complex, cols: u32, ptDiv: real): (r: real)
    ensures r + cols as real * ptDiv - midPt.re == midPt.re - r
    ensures cols == 0 || ptDiv == 0.0 ==> r == midPt.re
  {
    midPt.re - (cols as real / 2.0) * ptDiv
  }

  /** Imaginary part of the top edge of the grid. */
  function TopLimit(midPt: Complex, rows: u32, ptDiv: real): (r: real)
    ensures midPt.im - (r - rows as real * ptDiv) == r - midPt.im
    ensures rows == 0 || ptDiv == 0.0 ==> r == midPt.im
  {
    midPt.im + (rows as real / 2.0) * ptDiv
  }

  /** `vec![vec![0; cols]; rows]`. */
  function ZeroGrid(rows: u32, cols: u32): (g: seq<seq<u32>>)
    ensures |g| == rows
    ensures forall r :: 0 <= r < rows ==> |g[r]| == cols
    ensures forall r, c :: 0 <= r < rows && 0 <= c < cols ==> g[r][c] == 0
  {
    seq(rows, _ => seq(cols, _ => 0))
  }

  /** The grid is centred on `midPt`: walking `cols` steps right from the left edge
      ends as far right of the centre as the left edge is left of it. This is the first
      ensures of `LeftLimit` solved for the right edge. */
  lemma RightEdge(midPt: Complex, cols: u32, ptDiv: real)
    ensures LeftLimit(midPt, cols, ptDiv) + cols as real * ptDiv
            == midPt.re + (cols as real / 2.0) * ptDiv
    ensures midPt.re - LeftLimit(midPt, cols, ptDiv) == (cols as real / 2.0) * ptDiv
  {
  }

  /** The same for the rows, walking down from the top edge: the first ensures of
      `TopLimit` solved for the bottom edge. */
  lemma BottomEdge(midPt: Complex, rows: u32, ptDiv: real)
    ensures TopLimit(midPt, rows, ptDiv) - rows as real * ptDiv
            == midPt.im - (rows as real / 2.0) * ptDiv
    ensures TopLimit(midPt, rows, ptDiv) - midPt.im == (rows as real / 2.0) * ptDiv
  {
  }

  /** A 2 x 2 grid of unit spacing around the origin spans [-1, 1] on both axes. */
  lemma TwoByTwoAroundOrigin()
    ensures LeftLimit(Complex(0.0, 0.0), 2, 1.0) == -1.0
    ensures TopLimit(Complex(0.0, 0.0), 2, 1.0) == 1.0
  {
  }

  /** `struct Fractal`, with the `col_palete` field that the menu code uses. */
  class Fractal {
    var settings: Settings
    var state: AppState
    var rows: u32
    var cols: u32
    var midPt: Complex
    var ptDiv: real
    var maxIts: u32
    var leftLim: real
    var topLim: real
    var escapeIts: seq<seq<u32>>
    var ptLt: Complex
    var colPalette: Palette

    /** The iteration grid has `rows` rows of `cols` cells each. */
    ghost predicate Valid()
      reads this
    {
      |escapeIts| == rows && forall r :: 0 <= r < |escapeIts| ==> |escapeIts[r]| == cols
    }

    /** `Fractal::init`: everything zero, no grid, no palette. */
    constructor Init(settings: Settings)
      ensures Valid()
      ensures this.settings == settings && state == AppStart
      ensures rows == 0 && cols == 0 && maxIts == 0
      ensures midPt == Complex(0.0, 0.0) && ptDiv == 0.0
      ensures leftLim == 0.0 && topLim == 0.0 && ptLt == Complex(0.0, 0.0)
      ensures escapeIts == [] && colPalette == []
    {
      this.settings := settings;
      state := AppStart;
      rows := 0;
      cols := 0;
      midPt := Complex(0.0, 0.0);
      ptDiv := 0.0;
      maxIts := 0;
      leftLim := 0.0;
      topLim := 0.0;
      escapeIts := [];
      ptLt := Complex(0.0, 0.0);
      colPalette := [];
    }

    /** `init_fractal_image`: sizes the grid and derives the edges from the STORED
        centre and spacing; the last two parameters are ignored, as in the source. */
    method InitFractalImage(rows: u32, cols: u32, ignoredMidPt: Complex, ignoredPtDiv: real)
      modifies this`rows, this`cols, this`escapeIts, this`leftLim, this`topLim, this`ptLt
      ensures Valid()
      ensures this.rows == rows && this.cols == cols
      ensures forall r, c :: 0 <= r < rows && 0 <= c < cols ==> escapeIts[r][c] == 0
      ensures leftLim == LeftLimit(midPt, cols, ptDiv)
      ensures topLim == TopLimit(midPt, rows, ptDiv)
      ensures ptLt == Complex(leftLim, topLim)
      ensures midPt == old(midPt) && ptDiv == old(ptDiv) && maxIts == old(maxIts)
      ensures settings == old(settings) && state == old(state) && colPalette == old(colPalette)
    {
      this.rows := rows;
      this.cols := cols;
      escapeIts := ZeroGrid(rows, cols);

      var leftOffset := midPt.re - (this.cols as real / 2.0) * ptDiv;
      leftLim := leftOffset;

      var topOffset := midPt.im + (this.rows as real / 2.0) * ptDiv;
      topLim := topOffset;

      ptLt := ptLt.(re := leftLim);
      ptLt := ptLt.(im := topLim);
    }
  }
}
