/** The gradient engine: `color_grad`, which checks its request, derives the
    bins and issues the colouring calls, and `make_gradient`, which defines
    one named colour per bin by interpolating hue, saturation and value
    between two endpoints.

    Arithmetic that the source does in floating point (bin width,
    interpolation fractions) is done here on `real`, i.e. exactly. */
module Gradient {
  import opened Host
  import opened Text

  const MODES: set<string> := {"hist", "ramp"}

  /** The preset names `color_grad` accepts. */
  const PRESETS: set<string> := {
    "bgr", "rgb", "rainbow", "reverserainbow", "bwr", "rwb", "bmr", "rmb", "rw", "wr",
    "gw", "wg", "bw", "wb", "gy", "yg", "gray", "grey", "reversegray", "reversegrey"
  }

  /** The only presets `make_gradient` knows how to build. */
  const INTERPOLATED: set<string> := {"bgr", "rainbow"}

  /** How a call of `color_grad` ends. */
  datatype Status =
    | Coloured           // ran to its end (possibly colouring no bin)
    | UnknownMode        // printed a warning and returned
    | MissingSelection   // printed the usage line and returned
    | UnknownGradient    // printed a warning and returned
    | NoAtoms            // printed "no atoms selected"; nothing else done
    | UnsupportedItem    // printed "not configured" and returned
    | ZeroDivision       // raised ZeroDivisionError computing the bin width
    | IndexPastEnd       // raised IndexError reading past the end of the selector list
    | UnboundColourList  // raised UnboundLocalError: make_gradient never bound its result
  {
    /** The outcomes that stop before anything is sent to the host. */
    predicate Refused() {
      UnknownMode? || MissingSelection? || UnknownGradient? || NoAtoms? || UnsupportedItem?
    }
  }

  /** How a call of `make_gradient` ends: the list of colour names, or an
      exception. */
  datatype Listing = Names(names: seq<string>) | Unbound | DividedByZero

  /** The number of iterations of `for j in range(n)`. */
  function Count(n: int): nat {
    if n > 0 then n else 0
  }

  /** `'color_' + selection`: the prefix of every colour the gradient defines. */
  function ColourName(selection: string): (name: string)
    ensures |name| == |selection| + 6 && name[6..] == selection && name[0] == 'c'
  {
    "color_" + selection
  }

  /** `"dummy-" + selection`: the object the selection's copy is loaded as. */
  function DummyName(selection: string): (name: string)
    ensures |name| == |selection| + 6 && name[6..] == selection && name[0] == 'd'
  {
    "dummy-" + selection
  }

  /** Distinct selections get distinct colour prefixes and distinct dummy
      objects, and no colour name of a gradient is the name of a dummy
      object. */
  lemma NamesKeepSelectionsApart(a: string, b: string, j: nat)
    ensures ColourName(a) == ColourName(b) ==> a == b
    ensures DummyName(a) == DummyName(b) ==> a == b
    ensures ColourName(a) + NatToString(j) != DummyName(b)
  {
    assert (ColourName(a) + NatToString(j))[0] == ColourName(a)[0];
  }

  /** `max(min(x, 1.0), 0.0)`: the saturation and value caps are clamped into
      [0, 1], never rejected. */
  function Clamp01(x: real): (r: real)
    ensures 0.0 <= r <= 1.0
    ensures 0.0 <= x <= 1.0 ==> r == x
    ensures 1.0 < x ==> r == 1.0
    ensures x < 0.0 ==> r == 0.0
  {
    var capped := if x < 1.0 then x else 1.0;
    if capped > 0.0 then capped else 0.0
  }

  /** The bin count `color_grad` actually uses: the `nbins` argument is
      always replaced by `maximum - minimum + 2`, and a count of 1 by 11. */
  function BinCount(minimum: int, maximum: int): (n: int)
    ensures n != 1
    ensures maximum - minimum + 2 != 1 ==> n == maximum - minimum + 2
    ensures maximum - minimum + 2 == 1 ==> n == 11
    ensures n == 0 <==> maximum == minimum - 2
  {
    var n := maximum - minimum + 2;
    if n == 1 then 11 else n
  }

  /** `(max_b - min_b) / nbins` with the bounds padded by one on each side. */
  function BinWidth(minimum: int, maximum: int): (w: real)
    requires BinCount(minimum, maximum) != 0
    ensures w * BinCount(minimum, maximum) as real == ((maximum + 1) - (minimum - 1)) as real
  {
    var span, n := ((maximum + 1) - (minimum - 1)) as real, BinCount(minimum, maximum) as real;
    assert span / n * n == span;
    span / n
  }

  /** The histogram selectors: entry 0 picks the selection itself at
      `min_b + bin_width`, entry j >= 1 the dummy copy at `min_b + j * bin_width`. */
  function HistSelectors(selection: string, item: string, minimum: int, maximum: int): (sel: seq<Target>)
    requires BinCount(minimum, maximum) != 0
    ensures |sel| == if BinCount(minimum, maximum) >= 1 then BinCount(minimum, maximum) else 1
  {
    var n := BinCount(minimum, maximum);
    var minB := (minimum - 1) as real;
    var w := BinWidth(minimum, maximum);
    [Bin(selection, item, minB + w)]
    + seq(Count(n - 1), k requires 0 <= k => Bin(DummyName(selection), item, minB + (k + 1) as real * w))
  }

  /** For a proper range the padded width is exactly 1 and there is one
      selector per residue number plus one: thresholds minimum, minimum,
      minimum + 1, ..., maximum. */
  lemma HistSelectorsOnRange(selection: string, item: string, minimum: int, maximum: int)
    requires minimum <= maximum
    ensures BinCount(minimum, maximum) == maximum - minimum + 2
    ensures BinWidth(minimum, maximum) == 1.0
    ensures var sel := HistSelectors(selection, item, minimum, maximum);
      && |sel| == maximum - minimum + 2
      && sel[0] == Bin(selection, item, minimum as real)
      && (forall j :: 1 <= j < |sel| ==> sel[j] == Bin(DummyName(selection), item, (minimum - 1 + j) as real))
      && sel[|sel| - 1].threshold == maximum as real
  {
    var span := (maximum - minimum + 2) as real;
    assert span > 0.0 && span / span == 1.0;
    assert BinWidth(minimum, maximum) == span / span;
  }

  /** When `maximum == minimum - 1` the derived count is 1, which is reset
      to 11: the padded span of 1 is then cut into eleven bins of 1/11. */
  lemma HistSelectorsReset(selection: string, item: string, minimum: int, maximum: int)
    requires maximum - minimum + 2 == 1
    ensures BinCount(minimum, maximum) == 11
    ensures BinWidth(minimum, maximum) == 1.0 / 11.0
    ensures var sel := HistSelectors(selection, item, minimum, maximum);
      && |sel| == 11
      && forall j :: 0 <= j < 11 ==> sel[j].threshold == (minimum - 1) as real + (if j == 0 then 1 else j) as real / 11.0
  {
    assert BinWidth(minimum, maximum) == 1.0 / 11.0;
  }

  /** The per-channel formula of `make_gradient`:
      `s - (s - e) * float(j) / (nbins - 1)`. */
  /** The sweep starts exactly at the first endpoint (bin 0) and ends
      exactly at the second (bin n-1). */
  function Channel(s: real, e: real, j: int, n: int): (c: real)
    requires n != 1
    ensures j == 0 ==> c == s
    ensures j == n - 1 ==> c == e
  {
    var d := (n - 1) as real;
    assert j == n - 1 ==> (s - e) * j as real / d == s - e;
    s - (s - e) * j as real / d
  }

  /** The HSV colour of bin j: each channel interpolated on its own, so bin 0
      is the start colour and bin n-1 the end colour. */
  function Interpolate(start: Hsv, end: Hsv, j: int, n: int): (c: Hsv)
    requires n != 1
    ensures j == 0 ==> c == start
    ensures j == n - 1 ==> c == end
  {
    Hsv(Channel(start.h, end.h, j, n), Channel(start.s, end.s, j, n), Channel(start.v, end.v, j, n))
  }

  /** Every intermediate value lies between the two endpoints. */
  lemma ChannelBetween(s: real, e: real, j: int, n: int)
    requires 0 <= j < n && n != 1
    ensures s <= e ==> s <= Channel(s, e, j, n) <= e
    ensures e <= s ==> e <= Channel(s, e, j, n) <= s
  {
    var d := (n - 1) as real;
    var t := j as real / d;
    assert 0.0 <= t <= 1.0;
    var gap := if s <= e then e - s else s - e;
    var part := gap * t;
    ScaledWithin(gap, t);
    assert 0.0 <= part <= gap;
    assert Channel(s, e, j, n) == if s <= e then s + part else s - part;
  }

  lemma ScaledWithin(a: real, t: real)
    requires 0.0 <= a && 0.0 <= t <= 1.0
    ensures 0.0 <= a * t <= a
  {
    assert a * t <= a * 1.0;
  }

  /** The names `make_gradient` returns: `colorname + str(j)` for j = 0..n-1. */
  function GradientNames(colorname: string, n: int): (names: seq<string>)
    ensures |names| == Count(n)
  {
    seq(Count(n), j requires 0 <= j => colorname + NatToString(j))
  }

  /** No two bins share a colour name, so no bin's colour definition
      overwrites another's. */
  lemma GradientNamesDistinct(colorname: string, n: int, i: int, j: int)
    requires 0 <= i < j < n
    ensures GradientNames(colorname, n)[i] != GradientNames(colorname, n)[j]
  {
    var names := GradientNames(colorname, n);
    if names[i] == names[j] {
      assert names[i][|colorname|..] == NatToString(i);
      assert names[j][|colorname|..] == NatToString(j);
      NatToStringInjective(i, j);
    }
  }

  /** The `cmd.set_color` calls of `make_gradient`, one per bin, in order. */
  function SetColorCalls(colorname: string, start: Hsv, end: Hsv, n: int, hsvToRgb: HsvToRgb): (calls: seq<HostCall>)
    requires n != 1
    ensures |calls| == Count(n)
  {
    seq(Count(n), j requires 0 <= j < Count(n) =>
      SetColor(colorname + NatToString(j), hsvToRgb(Interpolate(start, end, j, n))))
  }

  /** Bin 0 is defined as the start colour and the last bin as the end
      colour, and bin j's definition carries bin j's name (`ChannelBetween`
      bounds the bins in between). */
  lemma SetColorCallsSweep(colorname: string, start: Hsv, end: Hsv, n: int, hsvToRgb: HsvToRgb)
    requires n >= 2
    ensures SetColorCalls(colorname, start, end, n, hsvToRgb)[0] == SetColor(colorname + "0", hsvToRgb(start))
    ensures SetColorCalls(colorname, start, end, n, hsvToRgb)[n - 1]
      == SetColor(colorname + NatToString(n - 1), hsvToRgb(end))
    ensures forall j :: 0 <= j < n ==>
      SetColorCalls(colorname, start, end, n, hsvToRgb)[j].name == GradientNames(colorname, n)[j]
  {
    assert Interpolate(start, end, 0, n) == start && Interpolate(start, end, n - 1, n) == end;
    assert NatToString(0) == "0";
  }

  /** The `cmd.color` calls of the colouring loop: bin j's colour name on
      bin j's selector. */
  function ColourCalls(names: seq<string>, sel: seq<Target>, count: nat): (calls: seq<HostCall>)
    requires count <= |names| && count <= |sel|
    ensures |calls| == count
  {
    seq(count, j requires 0 <= j < count => Color(names[j], sel[j]))
  }

  /** `make_gradient`. The selector list, saturation and value it is given
      are never read. */
  method MakeGradient(gradient: string, nbins: int, sat: real, value: real,
                      start: Hsv, end: Hsv, colorname: string, hsvToRgb: HsvToRgb)
    returns (listing: Listing, effects: seq<HostCall>)
    ensures gradient !in INTERPOLATED ==> listing == Unbound && effects == []
    ensures gradient in INTERPOLATED && nbins == 1 ==> listing == DividedByZero && effects == []
    ensures gradient in INTERPOLATED && nbins != 1 ==>
      listing == Names(GradientNames(colorname, nbins))
      && effects == SetColorCalls(colorname, start, end, nbins, hsvToRgb)
  {
    if gradient !in INTERPOLATED {
      return Unbound, [];
    }
    if nbins == 1 {
      return DividedByZero, [];
    }
    var names: seq<string> := [];
    effects := [];
    ghost var all := SetColorCalls(colorname, start, end, nbins, hsvToRgb);
    var j := 0;
    while j < nbins
      invariant 0 <= j <= Count(nbins)
      invariant names == GradientNames(colorname, nbins)[..j]
      invariant effects == all[..j]
    {
      names := names + [colorname + NatToString(j)];
      var rgb := hsvToRgb(Interpolate(start, end, j, nbins));
      effects := effects + [SetColor(colorname + NatToString(j), rgb)];
      j := j + 1;
    }
    listing := Names(names);
  }

  /** The mode, selection and preset checks passed. */
  predicate Admitted(selection: string, mode: string, gradient: string) {
    Lower(mode) in MODES && selection != "" && Lower(gradient) in PRESETS
  }

  /** All five checks passed. */
  predicate Validated(selection: string, item: string, mode: string, gradient: string, atoms: seq<Atom>) {
    Admitted(selection, mode, gradient) && atoms != [] && item in {"b", "q"}
  }

  /** The model loaded as the dummy object: for item 'b' each atom's
      B-factor is overwritten with its residue number. */
  function Loaded(atoms: seq<Atom>, item: string): (loaded: seq<Atom>)
    ensures |loaded| == |atoms|
  {
    if item == "b" then seq(|atoms|, i requires 0 <= i < |atoms| => atoms[i].(b := atoms[i].resi as real))
    else atoms
  }

  /** The item 'b' loop of `color_grad`: each atom's B-factor becomes its
      residue number. */
  method CopyResidueNumbers(atoms: seq<Atom>) returns (loaded: seq<Atom>)
    ensures loaded == Loaded(atoms, "b")
  {
    loaded := atoms;
    var i := 0;
    while i < |loaded|
      invariant 0 <= i <= |loaded| == |atoms|
      invariant forall k :: 0 <= k < i ==> loaded[k] == atoms[k].(b := atoms[k].resi as real)
      invariant forall k :: i <= k < |loaded| ==> loaded[k] == atoms[k]
    {
      loaded := loaded[i := loaded[i].(b := loaded[i].resi as real)];
      i := i + 1;
    }
  }

  /** The hist-mode loop of `color_grad` that builds the selector list. */
  method BuildHistSelectors(selection: string, item: string, minimum: int, maximum: int)
    returns (sel: seq<Target>)
    requires BinCount(minimum, maximum) != 0
    ensures sel == HistSelectors(selection, item, minimum, maximum)
  {
    var n := maximum - minimum + 2;
    if n == 1 {
      n := 11;
    }
    var minB := minimum - 1;
    var maxB := maximum + 1;
    var width := (maxB - minB) as real / n as real;
    ghost var all := HistSelectors(selection, item, minimum, maximum);
    sel := [Bin(selection, item, minB as real + width)];
    var j := 1;
    while j < n
      invariant 1 <= j <= |all|
      invariant sel == all[..j]
    {
      assert all[j] == Bin(DummyName(selection), item, minB as real + j as real * width);
      sel := sel + [Bin(DummyName(selection), item, minB as real + j as real * width)];
      j := j + 1;
    }
  }

  /** The colouring loop of `color_grad`: bin j's colour on bin j's selector,
      for j = 0..nbins-1. It is `complete` unless the selector list runs out
      first, in which case the calls made before the IndexError are returned. */
  method ColourBins(colours: seq<string>, sel: seq<Target>, nbins: int)
    returns (calls: seq<HostCall>, complete: bool)
    requires Count(nbins) <= |colours|
    ensures complete <==> Count(nbins) <= |sel|
    ensures complete ==> calls == ColourCalls(colours, sel, Count(nbins))
    ensures !complete ==> calls == ColourCalls(colours, sel, |sel|)
  {
    calls := [];
    var j := 0;
    while j < nbins
      invariant 0 <= j <= Count(nbins) && j <= |sel|
      invariant calls == ColourCalls(colours, sel, j)
    {
      if j >= |sel| {
        return calls, false;
      }
      calls := calls + [Color(colours[j], sel[j])];
      j := j + 1;
    }
    complete := true;
  }

  /** What `color_grad` does once its checks pass, as the status it ends
      with and the host calls it makes: load the dummy object; in hist mode
      build one selector per bin (dividing by the bin count); define the
      gradient colours; colour bin j's selector with colour j. */
  function ColourRun(selection: string, item: string, hist: bool, grad: string,
                     minimum: int, maximum: int, start: Hsv, end: Hsv,
                     atoms: seq<Atom>, hsvToRgb: HsvToRgb): (run: (Status, seq<HostCall>))
    ensures |run.1| >= 1 && run.1[0] == LoadModel(DummyName(selection), Loaded(atoms, item))
    ensures !run.0.Refused()
  {
    var n := BinCount(minimum, maximum);
    var load := [LoadModel(DummyName(selection), Loaded(atoms, item))];
    if hist && n == 0 then (ZeroDivision, load)
    else if grad !in INTERPOLATED then (UnboundColourList, load)
    else if hist then
      (Coloured, load + SetColorCalls(ColourName(selection), start, end, n, hsvToRgb)
                 + ColourCalls(GradientNames(ColourName(selection), n),
                               HistSelectors(selection, item, minimum, maximum), Count(n)))
    else
      (if n > 0 then IndexPastEnd else Coloured,
       load + SetColorCalls(ColourName(selection), start, end, n, hsvToRgb))
  }

  /** The outcomes of a run, case by case. The dummy object is always loaded
      first. A bin count of 0 divides by zero in hist mode; presets other
      than bgr and rainbow leave `make_gradient`'s result unbound; ramp mode
      builds no selectors, so after the colours are defined the first
      colouring step reads past the end of the empty selector list; hist mode
      with bgr or rainbow defines every bin's colour and then colours every
      bin's selector with it, in bin order. */
  lemma ColourRunCases(selection: string, item: string, hist: bool, grad: string,
                       minimum: int, maximum: int, start: Hsv, end: Hsv,
                       atoms: seq<Atom>, hsvToRgb: HsvToRgb)
    ensures var (status, effects) := ColourRun(selection, item, hist, grad, minimum, maximum,
                                               start, end, atoms, hsvToRgb);
      var n := BinCount(minimum, maximum);
      && effects[0] == LoadModel(DummyName(selection), Loaded(atoms, item))
      && (status == ZeroDivision <==> hist && n == 0)
      && (status == UnboundColourList <==> !(hist && n == 0) && grad !in INTERPOLATED)
      && (status == IndexPastEnd <==> !hist && n > 0 && grad in INTERPOLATED)
      && (status.ZeroDivision? || status.UnboundColourList? ==> |effects| == 1)
      && (!hist && grad in INTERPOLATED ==>
            effects[1..] == SetColorCalls(ColourName(selection), start, end, n, hsvToRgb))
      && (hist && n != 0 && grad in INTERPOLATED ==>
            effects[1..] == SetColorCalls(ColourName(selection), start, end, n, hsvToRgb)
                            + ColourCalls(GradientNames(ColourName(selection), n),
                                          HistSelectors(selection, item, minimum, maximum), Count(n)))
  {
  }

  /** The part of `color_grad` after its checks: load the dummy object, build
      the hist selectors, define the gradient colours and colour the bins. */
  method LoadAndColour(selection: string, item: string, hist: bool, grad: string, n: int,
                       s: real, v: real, minimum: int, maximum: int,
                       start: Hsv, end: Hsv, atoms: seq<Atom>, hsvToRgb: HsvToRgb)
    returns (status: Status, effects: seq<HostCall>)
    requires item in {"b", "q"} && n == BinCount(minimum, maximum)
    ensures (status, effects) == ColourRun(selection, item, hist, grad, minimum, maximum, start, end, atoms, hsvToRgb)
  {
    var loaded := atoms;
    if item == "b" {
      loaded := CopyResidueNumbers(atoms);
    }
    effects := [LoadModel(DummyName(selection), loaded)];

    var sel: seq<Target> := [];
    if hist {
      if n == 0 {
        return ZeroDivision, effects;
      }
      sel := BuildHistSelectors(selection, item, minimum, maximum);
    }

    var listing, calls := MakeGradient(grad, n, s, v, start, end, ColourName(selection), hsvToRgb);
    effects := effects + calls;
    if listing.Unbound? {
      assert calls == [];
      assert grad !in INTERPOLATED;
      assert effects == [LoadModel(DummyName(selection), Loaded(atoms, item))];
      return UnboundColourList, effects;
    }
    var colourCalls, complete := ColourBins(listing.names, sel, n);
    assert !hist ==> colourCalls == [];
    effects := effects + colourCalls;
    status := if complete then Coloured else IndexPastEnd;
    assert !hist ==> effects == [LoadModel(DummyName(selection), loaded)] + calls;
  }

  /** `color_grad`. The `nbins` argument is accepted and ignored, and the
      clamped saturation and value reach only `make_gradient`, which ignores
      them. */
  method ColorGrad(selection: string, item: string, mode: string, gradient: string, nbins: int,
                   sat: real, value: real, minimum: int, maximum: int,
                   start: Hsv, end: Hsv, atoms: seq<Atom>, hsvToRgb: HsvToRgb)
    returns (status: Status, effects: seq<HostCall>)
    // The checks, in the order they are made.
    ensures status == UnknownMode <==> Lower(mode) !in MODES
    ensures status == MissingSelection <==> Lower(mode) in MODES && selection == ""
    ensures status == UnknownGradient <==>
      Lower(mode) in MODES && selection != "" && Lower(gradient) !in PRESETS
    ensures status == NoAtoms <==> Admitted(selection, mode, gradient) && atoms == []
    ensures status == UnsupportedItem <==>
      Admitted(selection, mode, gradient) && atoms != [] && item !in {"b", "q"}
    // A refused request sends nothing to the host.
    ensures status.Refused() ==> effects == []
    // Past the checks, the run is the one `ColourRun` describes.
    ensures Validated(selection, item, mode, gradient, atoms) ==>
      (status, effects) == ColourRun(selection, item, Lower(mode) == "hist", Lower(gradient),
                                     minimum, maximum, start, end, atoms, hsvToRgb)
  {
    var n := maximum - minimum + 2;
    var s := Clamp01(sat);
    var v := Clamp01(value);
    var grad := Lower(gradient);
    var md := Lower(mode);
    if n == 1 {
      n := 11;
    }
    assert n == BinCount(minimum, maximum);

    if md !in MODES {
      return UnknownMode, [];
    }
    if selection == "" {
      return MissingSelection, [];
    } else if grad !in PRESETS {
      return UnknownGradient, [];
    }
    if |atoms| == 0 {
      return NoAtoms, [];
    }

    if item != "b" && item != "q" {
      return UnsupportedItem, [];
    }
    status, effects := LoadAndColour(selection, item, md == "hist", grad, n, s, v, minimum, maximum,
                                     start, end, atoms, hsvToRgb);
  }
}
