/** The menu actions of src/menu/mod.rs that change or read the fractal session.
    Console prompts are replaced by parameters that carry what the user typed. */
module Menu {
  import opened Fractals
  import opened Colouring
  import opened FileNames
  import Settings

  /** `enter_fractal`: the caller stores the centre, iteration limit and spacing first, then
      sizes the grid, which derives its edges from those stored values. */
  method EnterFractal(f: Fractal, rows: u32, cols: u32, midRe: real, midIm: real,
                      ptDiv: real, maxIts: u32)
    modifies f`midPt, f`maxIts, f`ptDiv
    modifies f`rows, f`cols, f`escapeIts, f`leftLim, f`topLim, f`ptLt
    ensures f.Valid()
    ensures f.midPt == Complex(midRe, midIm) && f.maxIts == maxIts && f.ptDiv == ptDiv
    ensures f.rows == rows && f.cols == cols
    ensures forall r, c :: 0 <= r < rows && 0 <= c < cols ==> f.escapeIts[r][c] == 0
    ensures f.leftLim == LeftLimit(Complex(midRe, midIm), cols, ptDiv)
    ensures f.topLim == TopLimit(Complex(midRe, midIm), rows, ptDiv)
    ensures f.ptLt == Complex(f.leftLim, f.topLim)
    ensures f.colPalette == old(f.colPalette)
  {
    f.midPt := Complex(midRe, midIm);
    f.maxIts := maxIts;
    f.ptDiv := ptDiv;
    f.InitFractalImage(rows, cols, f.midPt, f.ptDiv);
  }

  /** A new session given a 2 x 2 grid of unit spacing around the origin: its edges
      are at -1 and 1 and its top-left point is (-1, 1). */
  method TwoByTwoSession(settings: Settings.Settings) returns (f: Fractal)
    ensures f.rows == 2 && f.cols == 2
    ensures f.leftLim == -1.0 && f.topLim == 1.0 && f.ptLt == Complex(-1.0, 1.0)
  {
    f := new Fractal.Init(settings);
    EnterFractal(f, 2, 2, 0.0, 0.0, 1.0, 100);
    TwoByTwoAroundOrigin();
  }

  // ---------------------------------------------------------------------
  // Row driver
  // ---------------------------------------------------------------------

  /** One call of the per-row divergence step: the row and the start point passed to it. */
  datatype RowVisit = RowVisit(row: u32, start: Complex)

  /** Start point of row `r`: the top-left point moved down `r` steps. */
  function RowStart(ptLt: Complex, ptDiv: real, r: nat): Complex
  {
    Complex(ptLt.re, ptLt.im - r as real * ptDiv)
  }

  /** `cal_divergence`: visits every row once, in order, walking the start point down by
      `pt_div` per row. The per-row step only prints in the source, so the model returns
      the sequence of its calls. */
  method CalculateDivergence(f: Fractal) returns (visits: seq<RowVisit>)
    ensures |visits| == f.rows
    ensures forall r :: 0 <= r < |visits| ==> visits[r] == RowVisit(r, RowStart(f.ptLt, f.ptDiv, r))
  {
    var stC := f.ptLt;
    visits := [];
    var row: u32 := 0;
    while row < f.rows
      invariant row <= f.rows && |visits| == row
      invariant forall r :: 0 <= r < row ==> visits[r] == RowVisit(r, RowStart(f.ptLt, f.ptDiv, r))
      invariant row == 0 ==> stC == f.ptLt
      invariant row > 0 ==> stC == RowStart(f.ptLt, f.ptDiv, row - 1)
    {
      if row > 0 {
        stC := stC.(im := stC.im - f.ptDiv);
        assert stC.im == f.ptLt.im - (row - 1) as real * f.ptDiv - f.ptDiv;
      }
      visits := visits + [RowVisit(row, stC)];
      row := row + 1;
    }
  }

  /** On a grid set up by `init_fractal_image` every row starts on the left edge; with a
      non-negative spacing the rows 0..rows start between the top and the bottom edge, and
      one step past the last row is the bottom edge. */
  lemma RowStartOnGrid(midPt: Complex, rows: u32, cols: u32, ptDiv: real, r: nat)
    ensures RowStart(Complex(LeftLimit(midPt, cols, ptDiv), TopLimit(midPt, rows, ptDiv)), ptDiv, r).re
            == LeftLimit(midPt, cols, ptDiv)
    ensures 0.0 <= ptDiv && r <= rows ==>
              midPt.im - (rows as real / 2.0) * ptDiv
              <= RowStart(Complex(LeftLimit(midPt, cols, ptDiv), TopLimit(midPt, rows, ptDiv)), ptDiv, r).im
              <= TopLimit(midPt, rows, ptDiv)
    ensures RowStart(Complex(LeftLimit(midPt, cols, ptDiv), TopLimit(midPt, rows, ptDiv)), ptDiv, rows).im
            == midPt.im - (rows as real / 2.0) * ptDiv
  {
  }

  /** Consecutive rows keep the real part and step the imaginary part down by `pt_div`. */
  lemma RowStartsStepDown(ptLt: Complex, ptDiv: real, r: nat)
    ensures RowStart(ptLt, ptDiv, r + 1).re == RowStart(ptLt, ptDiv, r).re
    ensures RowStart(ptLt, ptDiv, r + 1).im == RowStart(ptLt, ptDiv, r).im - ptDiv
    ensures ptDiv > 0.0 ==> RowStart(ptLt, ptDiv, r + 1).im < RowStart(ptLt, ptDiv, r).im
  {
  }

  // ---------------------------------------------------------------------
  // Palette definition
  // ---------------------------------------------------------------------

  /** `add_colour_to_palete`: appends one entry and leaves the earlier ones as they were. */
  method AddColourToPalette(f: Fractal, itsBound: u32, colour: Rgb)
    modifies f`colPalette
    ensures f.colPalette == old(f.colPalette) + [PaletteEntry(itsBound, colour)]
  {
    f.colPalette := f.colPalette + [PaletteEntry(itsBound, colour)];
  }

  /** `def_col_palete`: boundary 1 gets `first`; then each entered boundary, clamped to
      `max_its`, is appended with its colour until a boundary reaches `max_its`. The palette
      is appended to, not replaced. `complete` is false when `inputs` runs out before that
      (the interactive program would keep prompting). */
  method DefineColourPalette(f: Fractal, first: Rgb, inputs: seq<PaletteEntry>)
    returns (complete: bool)
    modifies f`colPalette
    ensures f.colPalette == old(f.colPalette) + BuiltPalette(first, inputs, f.maxIts)
    ensures complete <==> (f.maxIts <= 1 || ReachesMax(inputs, f.maxIts))
  {
    ghost var target := old(f.colPalette) + BuiltPalette(first, inputs, f.maxIts);
    var itsBound: u32 := 1;
    AddColourToPalette(f, itsBound, first);

    var maxIts := f.maxIts;
    var consumed := 0;
    // The entries still to be pushed.
    ghost var pending := if 1 < maxIts then EntriesUntilMax(inputs, maxIts) else [];
    assert inputs[0..] == inputs;
    while itsBound < maxIts && consumed < |inputs|
      invariant consumed <= |inputs|
      invariant target == f.colPalette + pending
      invariant itsBound < maxIts ==> 1 < maxIts && pending == EntriesUntilMax(inputs[consumed..], maxIts)
      invariant itsBound < maxIts ==> forall k :: 0 <= k < consumed ==> inputs[k].bound < maxIts
      invariant itsBound >= maxIts ==> pending == []
      invariant itsBound >= maxIts ==> maxIts <= 1 || ReachesMax(inputs, maxIts)
      decreases |inputs| - consumed
    {
      var entry := inputs[consumed];
      itsBound := entry.bound;
      if itsBound > maxIts {
        itsBound := maxIts;
      }
      EntriesUntilMaxStep(inputs, consumed, maxIts);
      ghost var next := if itsBound == maxIts then [] else EntriesUntilMax(inputs[consumed + 1..], maxIts);
      assert pending == [PaletteEntry(itsBound, entry.colour)] + next;
      assert target == (f.colPalette + [PaletteEntry(itsBound, entry.colour)]) + next;
      AddColourToPalette(f, itsBound, entry.colour);
      pending := next;
      if itsBound >= maxIts {
        assert inputs[consumed].bound >= maxIts;
      }
      consumed := consumed + 1;
    }
    if itsBound < maxIts {
      assert inputs[consumed..] == [];
      assert !ReachesMax(inputs, maxIts);
    }
    complete := itsBound >= maxIts;
  }

  // ---------------------------------------------------------------------
  // Rendering
  // ---------------------------------------------------------------------

  /** `render_image`: a cols x rows image (indexed `[x, y]`, as `put_pixel` is) whose every
      pixel is the palette colour of its grid cell; `path` is where the image is saved. */
  method RenderImage(f: Fractal, fileInput: string) returns (path: string, img: array2<Rgb>)
    requires f.Valid()
    requires f.rows > 0 && f.cols > 0 ==> |f.colPalette| > 0
    ensures path == ImageFilePath(f.settings, fileInput)
    ensures fresh(img)
    ensures img.Length0 == f.cols && img.Length1 == f.rows
    ensures forall x, y :: 0 <= x < f.cols && 0 <= y < f.rows ==>
              img[x, y] == PixelColour(f.escapeIts[y][x], f.colPalette)
  {
    path := ImageFilePath(f.settings, fileInput);
    var rows := f.rows;
    var cols := f.cols;
    img := new Rgb[cols, rows]((_, _) => Black);

    var y: u32 := 0;
    while y < rows
      invariant y <= rows
      invariant forall x', y' :: 0 <= x' < cols && 0 <= y' < y ==>
                  img[x', y'] == PixelColour(f.escapeIts[y'][x'], f.colPalette)
    {
      var x: u32 := 0;
      while x < cols
        invariant x <= cols
        invariant forall x', y' :: 0 <= x' < cols && 0 <= y' < y ==>
                    img[x', y'] == PixelColour(f.escapeIts[y'][x'], f.colPalette)
        invariant forall x' :: 0 <= x' < x ==>
                    img[x', y] == PixelColour(f.escapeIts[y][x'], f.colPalette)
      {
        var ptIts := f.escapeIts[y][x];
        var pxCol := PixelColour(ptIts, f.colPalette);
        img[x, y] := pxCol;
        x := x + 1;
      }
      y := y + 1;
    }
  }
}
