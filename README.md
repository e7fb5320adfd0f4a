# Fractals: a Dafny model of the grid, row driver and palette pipeline

This project models the discrete core of a small command-line fractal tool written in
Rust. A session (`struct Fractal`) holds a rows × cols grid of iteration counts over the
complex plane. The grid is placed by a centre point `mid_pt` and a spacing `pt_div`.
The menu actions of the session are modelled here:

- `enter_fractal` / `init_fractal_image` size the grid and derive its left and top edges.
  `init_fractal_image` ignores its own centre and spacing parameters and uses the values
  already stored on the session.
- `cal_divergence` walks the start point of each row down by `pt_div` and hands it to the
  per-row step.
- `def_col_palete` / `add_colour_to_palete` build a colour palette of
  (iteration boundary, RGB) entries from what the user types.
- `det_px_col` maps an iteration count to a colour. It finds the first adjacent
  boundary pair that brackets the count and interpolates between their colours.
- `render_image` paints every grid cell through the palette into a cols × rows image.
- `load_settings` / `save_settings` resolve a file name typed by the user into a path.

Modules follow the source files; src/menu/mod.rs is split into `Colouring`, `FileNames` and
`Menu`:

- `Settings` (settings.dfy): the settings record (src/settings.rs).
- `Fractals` (fractal.dfy): `class Fractal`, its constructor `Init`, `InitFractalImage` and
  the geometry functions (src/fractal.rs).
- `Colouring` (palette.dfy): `det_px_col` as a recursive search (`FirstBracket`) plus
  `PixelColour`, and the palette `def_col_palete` builds as a function of the user's
  entries (`BuiltPalette`).
- `FileNames` (filenames.dfy): Rust's `str::trim`, file-name resolution and path joining.
- `Menu` (menu.dfy): the menu actions that read or change a `Fractal`, as imperative
  methods with loops, proved against the functions above.

Modelling choices:

- `f64` values are exact `real`s.
- The `f32` interpolation is exact rational arithmetic followed by `CastU8`. `CastU8`
  truncates toward zero and saturates at 0 and 255, as Rust's float-to-`u8` cast does.
- Console input is passed in as parameters. The palette prompts become a first colour
  plus a sequence of (boundary, colour) entries. `DefineColourPalette` returns
  `complete == false` when that sequence runs out before a boundary reaches `max_its`.
  The interactive program would keep prompting in that case.
- The per-row step `cal_row_divergence` (src/fractal.rs:70-72) prints only the start point
  and ignores its row argument. `CalculateDivergence` therefore returns the sequence of
  (row, start point) calls it makes.
- `struct Fractal` (src/fractal.rs:11-23) has no `col_palete` field, although the menu code uses one at
  src/menu/mod.rs:248 and :283. The class adds it as `colPalette: seq<PaletteEntry>`.
  `Init` sets it to empty.
- `AppState` is imported at src/fractal.rs:8 but defined in none of src/main.rs,
  src/fractal.rs, src/menu/mod.rs or src/settings.rs. Only `AppStart` occurs, so
  the datatype has that one constructor.

Where the source's own comments, or a reader's natural expectation, suggest something other
than the code does, the model follows the code:

- A count strictly between two boundaries is truncated, not rounded: the channels are cast
  with `as u8` (src/menu/mod.rs:315), so `Colouring.MidpointTruncates` gives 127 for 127.5.
- An empty palette does not reach the "default fallback colour (e.g., black)" of the comment
  at src/menu/mod.rs:327. The loop bound `col_pal.len() - 1` (src/menu/mod.rs:303)
  underflows first, so `PixelColour` requires a non-empty palette.
- When the first boundary is the smallest one, a count equal to it gives black, not the
  first colour. No pair brackets it (the test at src/menu/mod.rs:307 is `its > lower_bound`),
  and it is not above the last boundary either (`Colouring.ColourAtOrBelowFirst`). That
  condition matters: a later typed boundary below the first (for instance 0, which the
  clamp keeps) lets a later pair bracket the first boundary's count.
- The comment at src/menu/mod.rs:319-320 says a count outside every range gets the last
  colour. The code gives the last colour only above the last boundary and black otherwise
  (`Colouring.PixelColourCases`).
- `def_col_palete` does not make boundaries strictly increasing. A typed boundary may
  repeat or go down; it is only clamped to `max_its` (src/menu/mod.rs:233-235). The lemmas
  that rely on strictly increasing boundaries say so in their `requires`.
- `def_col_palete` appends to the existing palette and never clears it.
- The first palette boundary is 1. The comment at src/menu/mod.rs:211 says 0, but the code
  on the next line assigns 1.

## Model

| member | source | states |
|---|---|---|
| `Fractals.Fractal.Init` | src/fractal.rs:28-44 | a new session has the given settings, state `AppStart`, zero sizes, zero geometry, an empty grid and an empty palette |
| `Fractals.Fractal.InitFractalImage` | src/fractal.rs:49-66 | sets rows and cols and an all-zero rows × cols grid; `left_lim`, `top_lim` and `pt_lt` are derived from the STORED centre and spacing (the parameters are ignored); centre, spacing, `max_its`, settings, state and palette are unchanged |
| `Fractals.LeftLimit` | src/fractal.rs:55-56 | the left edge is as far left of the centre's real part as `cols` steps of `pt_div` then reach right of it; with no columns or zero spacing it is the centre |
| `Fractals.TopLimit` | src/fractal.rs:59-60 | the top edge is as far above the centre's imaginary part as `rows` steps of `pt_div` then reach below it; with no rows or zero spacing it is the centre |
| `Fractals.ZeroGrid` | src/fractal.rs:53 | the grid has exactly `rows` rows, each of length `cols`, every cell 0 |
| `Fractals.RightEdge` | src/fractal.rs:55-57 | `left_lim + cols·pt_div` is the centre's real part plus `(cols/2)·pt_div`: the grid extends equally on both sides of the centre |
| `Fractals.BottomEdge` | src/fractal.rs:59-61 | `top_lim − rows·pt_div` is the centre's imaginary part minus `(rows/2)·pt_div` |
| `Fractals.TwoByTwoAroundOrigin` | src/fractal.rs:55-61 | for 2 × 2 around the origin with spacing 1, `left_lim = −1` and `top_lim = 1` |
| `Menu.EnterFractal` | src/menu/mod.rs:66-86 | after entering a fractal, the session holds the typed centre, spacing and `max_its`, the typed sizes with an all-zero grid, and edges derived from the typed values; the palette is unchanged |
| `Menu.TwoByTwoSession` | src/menu/mod.rs:75-81 | a fresh session given 2 × 2 around the origin with spacing 1 has `left_lim = −1`, `top_lim = 1` and `pt_lt = (−1, 1)` |
| `Menu.CalculateDivergence` | src/menu/mod.rs:175-189 | rows are visited exactly once each, in order 0..rows; the start point of row r is `(pt_lt.re, pt_lt.im − r·pt_div)`, so the running accumulator equals the directly computed point |
| `Menu.RowStartOnGrid` | src/menu/mod.rs:176-184 | on a grid set up by `init_fractal_image`, every row start has the left edge as its real part; with a non-negative spacing, the starts of rows 0..rows lie between the top edge and the bottom edge `mid_pt.im − (rows/2)·pt_div`, and r = rows lands on that bottom edge |
| `Menu.RowStartsStepDown` | src/menu/mod.rs:183-185 | consecutive row starts keep the real part and lower the imaginary part by exactly `pt_div`, so a positive spacing gives strictly decreasing rows |
| `Menu.AddColourToPalette` | src/menu/mod.rs:247-249 | the palette becomes the old palette with exactly one entry `(its_bound, colour)` appended; nothing else changes |
| `Menu.DefineColourPalette` | src/menu/mod.rs:208-242 | the palette becomes the old palette followed by `BuiltPalette` of the inputs; the prompting ends (`complete`) exactly when `max_its ≤ 1` or some typed boundary is ≥ `max_its` |
| `Colouring.Clamp` | src/menu/mod.rs:231-235 | a typed boundary above `max_its` becomes `max_its`; others are kept |
| `Colouring.EntriesUntilMax` | src/menu/mod.rs:223-242 | the loop pushes at most one entry per typed input, and its first push (when there is input) is the first input with its boundary clamped |
| `Colouring.BuiltPalette` | src/menu/mod.rs:211-242 | the palette `def_col_palete` appends starts with `(1, first colour)` and has at most one entry more than there are typed inputs |
| `Colouring.EntriesUntilMaxShape` | src/menu/mod.rs:223-242 | the loop pushes a prefix of the clamped inputs with their colours; every pushed boundary before the last is below `max_its`; the last equals `max_its` when some input reaches it; otherwise every input is used |
| `Colouring.EntriesUntilMaxStep` | src/menu/mod.rs:223-238 | one loop pass pushes the next input, clamped, and continues only while the boundary stays below `max_its` |
| `Colouring.BuiltPaletteShape` | src/menu/mod.rs:211-242 | the first boundary is 1; `max_its ≤ 1` pushes exactly one entry; later boundaries are ≤ `max_its`, all but the last below it; the last is `max_its` once a typed boundary reached it (`max_its > 1`) |
| `Colouring.BuiltPaletteEntries` | src/menu/mod.rs:225-238 | entry k ≥ 1 carries the k-th typed colour and its clamped boundary |
| `Colouring.FirstBracket` | src/menu/mod.rs:303-307 | the search returns the first pair index at or after its start whose pair brackets the count (`lower < its ≤ upper`), and none when no pair does |
| `Colouring.CastU8` | src/menu/mod.rs:315 | `as u8` truncates: non-negative values below 255 map to their integer part, values ≤ 0 to 0, values ≥ 255 to 255 |
| `Colouring.Mix` | src/menu/mod.rs:310-312 | for t in [0, 1], `(1−t)·lower + t·upper` lies between the two channel values, and equals the upper one at t = 1 |
| `Colouring.Channel` | src/menu/mod.rs:309-315 | an interpolated channel lies between the two bracketing channels and is exactly the upper one at t = 1 |
| `Colouring.Interpolate` | src/menu/mod.rs:307-316 | every channel of the interpolated colour lies between the bracketing colours' channels; at the upper boundary the colour is the upper colour |
| `Colouring.PixelColour` | src/menu/mod.rs:299-329 | a count of 0 is black; a count above the last boundary that no pair brackets gets the last colour; the full case split is `PixelColourCases` |
| `Colouring.PixelColourCases` | src/menu/mod.rs:299-329 | the first bracketing pair in index order gives the interpolated colour; with no bracketing pair, a count above the last boundary gives the last colour and any other count gives black |
| `Colouring.BracketIsUnique` | src/menu/mod.rs:303-307 | with strictly increasing boundaries, at most one pair brackets a count |
| `Colouring.ColourAtBoundary` | src/menu/mod.rs:303-316 | with strictly increasing boundaries, a count equal to boundary k (k ≥ 1) gives exactly colour k |
| `Colouring.ColourBetween` | src/menu/mod.rs:307-316 | with strictly increasing boundaries, a count strictly between boundaries i and i+1 is interpolated from that pair, each channel lying between the two colours' channels |
| `Colouring.ColourBeyondLast` | src/menu/mod.rs:319-325 | when the last boundary is the largest, a count above it gives the last colour unchanged |
| `Colouring.ColourAtOrBelowFirst` | src/menu/mod.rs:307-328 | when the first boundary is the smallest, a count at or below it, equality included, gives black |
| `Colouring.MidpointTruncates` | src/menu/mod.rs:309-315 | count 6 between (1, black) and (11, white) gives (127, 127, 127): truncation, not rounding |
| `Colouring.ZeroCountIsBlack` | src/menu/mod.rs:299-329 | a cell still 0 (as `init_fractal_image` leaves it) is black under any non-empty palette |
| `Menu.RenderImage` | src/menu/mod.rs:273-286 | the image is cols wide and rows high and every pixel (x, y) is `det_px_col(escape_its[y][x], col_palete)`; the save path is the folder, `/` and the trimmed typed name; the image is newly allocated |
| `FileNames.IsWhitespace` | src/menu/mod.rs:105 | the whitespace `trim` drops includes space, tab, newline and carriage return, and never an ASCII letter, a digit, `.` or `/` |
| `FileNames.Trim` | src/menu/mod.rs:105 | the trimmed string is no longer than the line and, when non-empty, neither starts nor ends with whitespace; `render_image` trims the same way at src/menu/mod.rs:264 |
| `FileNames.TrimStartIndex` | src/menu/mod.rs:105 | the first non-whitespace position: everything before it is whitespace |
| `FileNames.TrimEndIndex` | src/menu/mod.rs:105 | the end after dropping trailing whitespace: everything after it is whitespace |
| `FileNames.TrimIsInfix` | src/menu/mod.rs:105 | the trimmed name is the part of the line between a whitespace prefix and a whitespace suffix, with non-whitespace at both ends; it is empty exactly when the line is all whitespace |
| `FileNames.TrimOfTrimmed` | src/menu/mod.rs:105 | a string with non-whitespace at both ends is its own trim |
| `FileNames.TrimIdempotent` | src/menu/mod.rs:105 | trimming twice is trimming once |
| `FileNames.ResolveFileName` | src/menu/mod.rs:107-114 | an empty trimmed entry gives the default file name; an entry containing `.` is kept; otherwise `.toml` is appended; a non-empty entry always gives a name that starts with it and contains `.` |
| `FileNames.ResolveKeepsName` | src/menu/mod.rs:110-111 | a trimmed, non-empty name containing `.` resolves to itself |
| `FileNames.TomlNameIsTrimmed` | src/menu/mod.rs:112-113 | an appended `.toml` name has no surrounding whitespace and contains `.` |
| `FileNames.ResolveIdempotent` | src/menu/mod.rs:105-114 | resolving a resolved name again changes nothing, given a default with no surrounding whitespace that is empty or contains `.` |
| `FileNames.JoinPath` | src/menu/mod.rs:117 | the path is the folder, then `/`, then the name, and both parts can be read back from it |
| `FileNames.SettingsFilePath` | src/menu/mod.rs:105-117 | the settings path is the settings folder, `/` and the resolved name; `save_settings` repeats the same code at src/menu/mod.rs:143-155 |
| `FileNames.ImageFilePath` | src/menu/mod.rs:264-267 | the image path is the settings folder, `/` and the trimmed typed name, with no default and no extension added |

## Left out

- Escape-time evaluation and smoothing: `cal_row_divergence` (src/fractal.rs:68-72) prints only the start point, so nothing in src/fractal.rs or src/menu/mod.rs writes a computed count into the grid. The model records its calls instead.
- Console I/O: `print_menu`, `get_user_input`, `get_user_input_numeric`, `print_class` and every prompt and message. Typed values are parameters. Re-prompting after unparsable input is not modelled because a parameter is always well typed.
- `info!` logging and `Instant` timing. The `calc_duration` / `render_duration` fields are left out; they are also missing from `struct Fractal` at src/fractal.rs:11-23.
- `generate_histogram`: an empty stub.
- `img.save` and the `image` crate: the image is an `array2` that is returned, not written. `load_config` / `save_config` (called at src/menu/mod.rs:120 and :158) do TOML file I/O and are defined in none of the four files under src/, so `load_settings` / `save_settings` are modelled only up to the path they compute.
- src/main.rs: settings loading, logger set-up, folder creation and the menu dispatch loop are all I/O and UI.
- src/settings.rs: the record is carried whole; only `fractals_folder` and `fractal_file` are used.
- The boundary counter `idx: u8` in `def_col_palete` only numbers the prompts, so it is left out. A debug build would panic once it passes 255.
- Menu.RenderImage: requires the exact grid shape (`Valid()`: `rows` rows of `cols` cells), which every modelled operation keeps. The source only needs the grid to be at least `rows` × `cols`: a smaller one panics at the indexing at src/menu/mod.rs:282, and a larger one is read without a panic. A grid that `load_config` loads with another shape is not modelled, because loading is not.
- Colouring.PixelColour: requires a non-empty palette, because the source underflows on an empty one rather than returning black.
- Colouring.Channel: computed over exact rationals, not `f32`. Counts above 2^24 and the rounding of `t` in `f32` are not modelled, so a result can differ from the program's by the truncation of a rounding error.
- Menu.CalculateDivergence: over reals, the accumulated `st_c.im -= pt_div` equals the direct `pt_lt.im − r·pt_div`. With `f64` the two drift apart; the model claims nothing about that drift.
- Fractals.Fractal.InitFractalImage: geometry is over reals, so the `f64` rounding of `cols as f64 / 2.0 * pt_div` is not modelled.
