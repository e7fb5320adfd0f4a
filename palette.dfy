/** The colour palette: mapping an iteration count to a colour (`det_px_col`,
    src/menu/mod.rs) and the palette that `def_col_palete` builds from the
    user's entries, as a function of those entries.

    The interpolation is computed in `f32` by the source; here it is exact
    rational arithmetic followed by the `as u8` cast, which truncates toward
    zero and saturates at 0 and 255. */
module Colouring {
  import opened Fractals

  // ---------------------------------------------------------------------
  // Bracket search
  // ---------------------------------------------------------------------

  /** The adjacent pair (i, i + 1) brackets `its`: lower < its <= upper. */
  predicate Brackets(pal: Palette, i: nat, its: u32)
  {
    i + 1 < |pal| && pal[i].bound < its <= pal[i + 1].bound
  }

  /** Pair i brackets `its` and no earlier pair does. */
  predicate IsFirstBracket(pal: Palette, i: nat, its: u32)
  {
    Brackets(pal, i, its) && forall j :: 0 <= j < i ==> !Brackets(pal, j, its)
  }

  /** No adjacent pair brackets `its`. */
  predicate NoBracket(pal: Palette, its: u32)
  {
    forall i :: 0 <= i < |pal| ==> !Brackets(pal, i, its)
  }

  /** The search loop of `det_px_col`, from pair `from` onwards, stopping at the first pair
      that brackets `its`. */
  function FirstBracket(pal: Palette, its: u32, from: nat): (r: Option<nat>)
    decreases |pal| - from
    ensures r.Some? ==> from <= r.value && Brackets(pal, r.value, its)
    ensures r.Some? ==> forall j :: from <= j < r.value ==> !Brackets(pal, j, its)
    ensures r.None? ==> forall j :: from <= j ==> !Brackets(pal, j, its)
  {
    if from + 1 >= |pal| then None
    else if Brackets(pal, from, its) then Some(from)
    else FirstBracket(pal, its, from + 1)
  }

  datatype Option<T> = None | Some(value: T)

  // ---------------------------------------------------------------------
  // Interpolation of one channel
  // ---------------------------------------------------------------------

  /** For t in [0, 1], `(1 - t) * a + t * b` lies between `a` and `b`: the proof behind the
      bounds in the contract of `Mix`. */
  lemma ConvexBetween(t: real, a: real, b: real, m: real)
    requires 0.0 <= t <= 1.0
    requires m == (1.0 - t) * a + t * b
    ensures a <= b ==> a <= m <= b
    ensures b <= a ==> b <= m <= a
  {
    var d := b - a;
    assert m == a + t * d;
    assert d - t * d == (1.0 - t) * d;
    if d >= 0.0 {
      assert 0.0 <= t * d;
      assert 0.0 <= (1.0 - t) * d;
    } else {
      assert t * d <= 0.0;
      assert (1.0 - t) * d <= 0.0;
    }
  }

  /** `(1.0 - t) * lower + t * upper`, over the reals: for t in [0, 1] a point between the
      two channel values, the upper one at t = 1. */
  function Mix(t: real, lower: u8, upper: u8): (r: real)
    ensures 0.0 <= t <= 1.0 && lower <= upper ==> lower as real <= r <= upper as real
    ensures 0.0 <= t <= 1.0 && upper <= lower ==> upper as real <= r <= lower as real
    ensures t == 1.0 ==> r == upper as real
  {
    var m := (1.0 - t) * lower as real + t * upper as real;
    if 0.0 <= t <= 1.0 then ConvexBetween(t, lower as real, upper as real, m); m else m
  }

  /** The cast `x as u8` of a float: truncation toward zero, saturating at 0 and 255. */
  function CastU8(x: real): (r: u8)
    ensures x <= 0.0 ==> r == 0
    ensures 0.0 <= x < 255.0 ==> r as real <= x < r as real + 1.0
    ensures 255.0 <= x ==> r == 255
  {
    if x <= 0.0 then 0 else if x >= 255.0 then 255 else x.Floor
  }

  /** `x` lies between `a` and `b`, in whichever order they come. */
  predicate Within(x: u8, a: u8, b: u8)
  {
    (a <= x <= b) || (b <= x <= a)
  }

  /** One output channel: the truncated convex combination of the two bracketing channels. */
  function Channel(t: real, lower: u8, upper: u8): (r: u8)
    requires 0.0 <= t <= 1.0
    ensures Within(r, lower, upper)
    ensures t == 1.0 ==> r == upper
  {
    CastU8(Mix(t, lower, upper))
  }

  /** The interpolated colour for `its` between two bracketing entries. */
  function Interpolate(lower: PaletteEntry, upper: PaletteEntry, its: u32): (c: Rgb)
    requires lower.bound < its <= upper.bound
    ensures Within(c.r, lower.colour.r, upper.colour.r)
    ensures Within(c.g, lower.colour.g, upper.colour.g)
    ensures Within(c.b, lower.colour.b, upper.colour.b)
    ensures its == upper.bound ==> c == upper.colour
  {
    var t := (its - lower.bound) as real / (upper.bound - lower.bound) as real;
    Rgb(Channel(t, lower.colour.r, upper.colour.r),
        Channel(t, lower.colour.g, upper.colour.g),
        Channel(t, lower.colour.b, upper.colour.b))
  }

  // ---------------------------------------------------------------------
  // det_px_col
  // ---------------------------------------------------------------------

  function Last(pal: Palette): PaletteEntry
    requires |pal| > 0
  {
    pal[|pal| - 1]
  }

  /** `det_px_col`. An empty palette makes `col_pal.len() - 1` underflow, so it is excluded. */
  function PixelColour(its: u32, pal: Palette): (c: Rgb)
    requires |pal| > 0
    ensures its == 0 ==> c == Black
    ensures its > Last(pal).bound && NoBracket(pal, its) ==> c == Last(pal).colour
  {
    match FirstBracket(pal, its, 0)
    case Some(i) => Interpolate(pal[i], pal[i + 1], its)
    case None =>
      var last := pal[|pal| - 1];
      if its > last.bound then last.colour else Black
  }

  /** What `det_px_col` returns: the first bracketing pair in index order decides the
      colour; with no bracketing pair the last colour is used above the last boundary and
      black otherwise. */
  lemma PixelColourCases(its: u32, pal: Palette)
    requires |pal| > 0
    ensures forall i :: 0 <= i < |pal| && IsFirstBracket(pal, i, its) ==>
              PixelColour(its, pal) == Interpolate(pal[i], pal[i + 1], its)
    ensures NoBracket(pal, its) && its > Last(pal).bound ==> PixelColour(its, pal) == Last(pal).colour
    ensures NoBracket(pal, its) && its <= Last(pal).bound ==> PixelColour(its, pal) == Black
  {
  }

  /** The conventional palette shape: boundaries strictly increasing. */
  predicate StrictlyIncreasing(pal: Palette)
  {
    forall i, j :: 0 <= i < j < |pal| ==> pal[i].bound < pal[j].bound
  }

  /** With strictly increasing boundaries at most one pair brackets any count. */
  lemma BracketIsUnique(pal: Palette, i: nat, j: nat, its: u32)
    requires StrictlyIncreasing(pal)
    requires Brackets(pal, i, its) && Brackets(pal, j, its)
    ensures i == j
  {
  }

  /** A count equal to boundary k (k >= 1) gets exactly colour k. */
  lemma ColourAtBoundary(pal: Palette, k: nat)
    requires StrictlyIncreasing(pal)
    requires 1 <= k < |pal|
    ensures PixelColour(pal[k].bound, pal) == pal[k].colour
  {
    var its := pal[k].bound;
    assert Brackets(pal, k - 1, its);
    forall j | 0 <= j < k - 1
      ensures !Brackets(pal, j, its)
    {
      assert pal[j + 1].bound < pal[k].bound;
    }
    assert IsFirstBracket(pal, k - 1, its);
    PixelColourCases(its, pal);
  }

  /** A count strictly between two consecutive boundaries is interpolated between exactly
      those two colours, and every channel lies between the two bracketing channels. */
  lemma ColourBetween(pal: Palette, i: nat, its: u32)
    requires StrictlyIncreasing(pal)
    requires i + 1 < |pal|
    requires pal[i].bound < its < pal[i + 1].bound
    ensures PixelColour(its, pal) == Interpolate(pal[i], pal[i + 1], its)
    ensures Within(PixelColour(its, pal).r, pal[i].colour.r, pal[i + 1].colour.r)
    ensures Within(PixelColour(its, pal).g, pal[i].colour.g, pal[i + 1].colour.g)
    ensures Within(PixelColour(its, pal).b, pal[i].colour.b, pal[i + 1].colour.b)
  {
    forall j | 0 <= j < i
      ensures !Brackets(pal, j, its)
    {
      assert pal[j + 1].bound <= pal[i].bound;
    }
    assert IsFirstBracket(pal, i, its);
    PixelColourCases(its, pal);
  }

  /** Above the largest (last) boundary the last colour is returned unchanged. */
  lemma ColourBeyondLast(pal: Palette, its: u32)
    requires |pal| > 0
    requires forall i :: 0 <= i < |pal| ==> pal[i].bound <= Last(pal).bound
    requires its > Last(pal).bound
    ensures PixelColour(its, pal) == Last(pal).colour
  {
  }

  /** At or below the smallest (first) boundary the colour is black. */
  lemma ColourAtOrBelowFirst(pal: Palette, its: u32)
    requires |pal| > 0
    requires forall i :: 0 <= i < |pal| ==> pal[0].bound <= pal[i].bound
    requires its <= pal[0].bound
    ensures PixelColour(its, pal) == Black
  {
  }

  /** Half way from black to white the channels are 127, not 128: `as u8` truncates the
      interpolated 127.5 instead of rounding it. */
  lemma MidpointTruncates()
    ensures PixelColour(6, [PaletteEntry(1, Black), PaletteEntry(11, Rgb(255, 255, 255))])
            == Rgb(127, 127, 127)
  {
  }

  /** A cell the divergence step never wrote (count 0) is drawn black by any palette; the
      first ensures of `PixelColour`, stated as a lemma beside the other palette facts. */
  lemma ZeroCountIsBlack(pal: Palette)
    requires |pal| > 0
    ensures PixelColour(0, pal) == Black
  {
  }

  // ---------------------------------------------------------------------
  // The palette def_col_palete builds
  // ---------------------------------------------------------------------

  /** A boundary the user enters is clamped to `max_its`. */
  function Clamp(bound: u32, maxIts: u32): (r: u32)
    ensures r <= maxIts
    ensures bound <= maxIts ==> r == bound
    ensures bound >= maxIts ==> r == maxIts
  {
    if bound > maxIts then maxIts else bound
  }

  /** Some entered boundary reaches `max_its`, which ends the prompting loop. */
  predicate ReachesMax(inputs: seq<PaletteEntry>, maxIts: u32)
  {
    exists k :: 0 <= k < |inputs| && inputs[k].bound >= maxIts
  }

  /** The entries the prompting loop pushes: each input, clamped, up to and including the
      first one whose clamped boundary equals `max_its`. */
  function EntriesUntilMax(inputs: seq<PaletteEntry>, maxIts: u32): (r: seq<PaletteEntry>)
    ensures |r| <= |inputs|
    ensures inputs != [] ==> r != [] && r[0] == PaletteEntry(Clamp(inputs[0].bound, maxIts), inputs[0].colour)
  {
    if inputs == [] then []
    else
      var e := PaletteEntry(Clamp(inputs[0].bound, maxIts), inputs[0].colour);
      if e.bound == maxIts then [e] else [e] + EntriesUntilMax(inputs[1..], maxIts)
  }

  /** The pushed entries are a prefix of the clamped inputs, all below `max_its` but the
      last; the last is `max_its` exactly when some input reaches it, and otherwise every
      input was used. */
  lemma {:induction false} EntriesUntilMaxShape(inputs: seq<PaletteEntry>, maxIts: u32)
    ensures var r := EntriesUntilMax(inputs, maxIts);
      |r| <= |inputs|
      && (forall k :: 0 <= k < |r| ==>
            r[k] == PaletteEntry(Clamp(inputs[k].bound, maxIts), inputs[k].colour))
      && (forall k :: 0 <= k < |r| - 1 ==> r[k].bound < maxIts)
      && (ReachesMax(inputs, maxIts) ==> r != [] && r[|r| - 1].bound == maxIts)
      && (!ReachesMax(inputs, maxIts) ==> |r| == |inputs|)
  {
    if inputs != [] {
      var e := PaletteEntry(Clamp(inputs[0].bound, maxIts), inputs[0].colour);
      if e.bound != maxIts {
        EntriesUntilMaxShape(inputs[1..], maxIts);
        assert ReachesMax(inputs, maxIts) ==> ReachesMax(inputs[1..], maxIts) by {
          if ReachesMax(inputs, maxIts) {
            var k :| 0 <= k < |inputs| && inputs[k].bound >= maxIts;
            assert k != 0;
            assert inputs[1..][k - 1] == inputs[k];
          }
        }
        assert ReachesMax(inputs[1..], maxIts) ==> ReachesMax(inputs, maxIts) by {
          if ReachesMax(inputs[1..], maxIts) {
            var k :| 0 <= k < |inputs[1..]| && inputs[1..][k].bound >= maxIts;
            assert inputs[k + 1] == inputs[1..][k];
          }
        }
      } else {
        assert ReachesMax(inputs, maxIts) by { assert inputs[0].bound >= maxIts; }
      }
    }
  }

  /** One step of the prompting loop at input `c`: that input, clamped, is pushed, and the
      loop goes on with the inputs after it unless that boundary reached `max_its`. */
  lemma EntriesUntilMaxStep(inputs: seq<PaletteEntry>, c: nat, maxIts: u32)
    requires c < |inputs|
    ensures var e := PaletteEntry(Clamp(inputs[c].bound, maxIts), inputs[c].colour);
            EntriesUntilMax(inputs[c..], maxIts)
              == [e] + (if e.bound == maxIts then [] else EntriesUntilMax(inputs[c + 1..], maxIts))
  {
  }

  /** The entries `def_col_palete` appends: boundary 1 with the first colour, then the
      prompting loop's entries while boundaries stay below `max_its`. */
  function BuiltPalette(first: Rgb, inputs: seq<PaletteEntry>, maxIts: u32): (p: Palette)
    ensures 1 <= |p| <= |inputs| + 1 && p[0] == PaletteEntry(1, first)
  {
    [PaletteEntry(1, first)] + (if 1 < maxIts then EntriesUntilMax(inputs, maxIts) else [])
  }

  /** The first boundary is 1; a `max_its` of at most 1 stops after that one entry; every
      later boundary is at most `max_its`, all but the last below it, and the last equals it
      once some entered boundary reached it. */
  lemma BuiltPaletteShape(first: Rgb, inputs: seq<PaletteEntry>, maxIts: u32)
    ensures var p := BuiltPalette(first, inputs, maxIts);
      |p| >= 1 && p[0] == PaletteEntry(1, first)
      && (maxIts <= 1 ==> |p| == 1)
      && (forall k :: 1 <= k < |p| ==> p[k].bound <= maxIts)
      && (forall k :: 1 <= k < |p| - 1 ==> p[k].bound < maxIts)
      && (maxIts > 1 && ReachesMax(inputs, maxIts) ==> p[|p| - 1].bound == maxIts)
  {
    EntriesUntilMaxShape(inputs, maxIts);
    var p := BuiltPalette(first, inputs, maxIts);
    if 1 < maxIts {
      var r := EntriesUntilMax(inputs, maxIts);
      assert forall k :: 1 <= k < |p| ==> p[k] == r[k - 1];
    }
  }

  /** Every later entry carries the colour typed with it and the clamped boundary. */
  lemma BuiltPaletteEntries(first: Rgb, inputs: seq<PaletteEntry>, maxIts: u32, k: nat)
    requires 1 < maxIts
    requires 1 <= k < |BuiltPalette(first, inputs, maxIts)|
    ensures k - 1 < |inputs|
    ensures BuiltPalette(first, inputs, maxIts)[k]
            == PaletteEntry(Clamp(inputs[k - 1].bound, maxIts), inputs[k - 1].colour)
  {
    EntriesUntilMaxShape(inputs, maxIts);
  }
}
