/** The Colorama dialog's state machine: which selection is active, whether
    it is edited as one colour or as a two-colour gradient, in which colour
    system the three sliders are read, which gradient endpoint the sliders
    edit, and the two endpoints themselves.

    The widgets are not modelled. What a transition reads from the sliders
    or from the host arrives as parameters; what it writes back to the
    sliders and the two colour swatches is returned as a `Widgets` value;
    what it asks the host to do is appended to `trace`. */
module Dialog {
  import opened Host
  import opened Text
  import opened HtmlColor
  import opened Gradient

  /** `monograd`: 'mono' or 'grad'. */
  datatype Shading = MonoMode | GradMode

  /** `colorsystem`: 'rgb' or 'hsv'. */
  datatype ColorSystem = RgbSystem | HsvSystem

  /** `farbe12`: which endpoint the sliders edit, 'farbe1' or 'farbe2'. */
  datatype Slot = Slot1 | Slot2

  /** The three slider readings: R, G, B (0..255) in the RGB system, H, S, V
      (0..1) in the HSV system. */
  datatype Reading = Reading(x: real, y: real, z: real)

  /** What a transition writes to the widgets: new slider positions and new
      text for the two colour swatches, each only when it writes one. */
  datatype Widgets = Widgets(sliders: Option<Reading>, swatch1: Option<string>, swatch2: Option<string>)

  const UNTOUCHED := Widgets(None, None, None)

  /** The neutral colour used when the host cannot report a colour. */
  const GRAY := Rgb(0.5, 0.5, 0.5)

  /** An integer triple divided by 255, as the dialog hands it to the host. */
  function Unit(c: Rgb255): Rgb {
    Rgb(c.r as real / 255.0, c.g as real / 255.0, c.b as real / 255.0)
  }

  /** A colour whose channels lie in [0, 1], as the host's colours do. */
  predicate InUnit(c: Rgb) {
    0.0 <= c.r <= 1.0 && 0.0 <= c.g <= 1.0 && 0.0 <= c.b <= 1.0
  }

  /** `int(255 * x)` on each channel: a colour in [0, 1] lands in 0..255. */
  function To255(c: Rgb): (t: Rgb255)
    ensures InUnit(c) ==> InRange(t)
  {
    Rgb255(Trunc(c.r * 255.0), Trunc(c.g * 255.0), Trunc(c.b * 255.0))
  }

  /** Scaling an integer triple down to [0, 1] and back up with `int(255 * x)`
      gives the triple back. */
  lemma To255InvertsUnit(c: Rgb255)
    ensures To255(Unit(c)) == c
  {
    assert Unit(c).r * 255.0 == c.r as real;
    assert Unit(c).g * 255.0 == c.g as real;
    assert Unit(c).b * 255.0 == c.b as real;
  }

  function RgbReading(c: Rgb): Reading {
    Reading(255.0 * c.r, 255.0 * c.g, 255.0 * c.b)
  }

  function HsvReading(c: Hsv): Reading {
    Reading(c.h, c.s, c.v)
  }

  /** The integer colour the sliders denote in the current colour system:
      `int()` of each RGB slider, or `int(255 * x)` of the HSV sliders'
      colour. Sliders within their ranges give a colour in 0..255. */
  function SliderColour(system: ColorSystem, reading: Reading, hsvToRgb: HsvToRgb): (c: Rgb255)
    ensures (system == RgbSystem && 0.0 <= reading.x < 256.0 && 0.0 <= reading.y < 256.0
             && 0.0 <= reading.z < 256.0) ==> InRange(c)
    ensures system == HsvSystem && InUnit(hsvToRgb(Hsv(reading.x, reading.y, reading.z))) ==> InRange(c)
  {
    match system
    case RgbSystem => Rgb255(Trunc(reading.x), Trunc(reading.y), Trunc(reading.z))
    case HsvSystem => To255(hsvToRgb(Hsv(reading.x, reading.y, reading.z)))
  }

  /** The colour `setzeFarbe` defines in the host for the mono colour. It is
      the colour the swatches show: `int(255 * x)` of it is the slider colour. */
  function SliderHostColour(system: ColorSystem, reading: Reading, hsvToRgb: HsvToRgb): (h: Rgb)
    ensures To255(h) == SliderColour(system, reading, hsvToRgb)
  {
    To255InvertsUnit(SliderColour(system, reading, hsvToRgb));
    match system
    case RgbSystem => Unit(SliderColour(system, reading, hsvToRgb))
    case HsvSystem => hsvToRgb(Hsv(reading.x, reading.y, reading.z))
  }

  /** The host calls that recolour a selection with one custom colour: the
      old colour name is deleted before it is defined again and applied. */
  function MonoCalls(selection: string, colour: Rgb): (calls: seq<HostCall>)
    ensures |calls| == 3 && calls[0].Delete? && calls[1].SetColor? && calls[2].Color?
    ensures calls[0].name == calls[1].name == calls[2].colour == selection + "_color"
    ensures calls[1].rgb == colour && calls[2].target == Whole(selection)
  {
    var name := selection + "_color";
    [Delete(name), SetColor(name, colour), Color(name, Whole(selection))]
  }

  /** The sliders' position for an endpoint in a colour system. In RGB the
      sliders read back as the endpoint itself. */
  function EndpointReading(system: ColorSystem, c: Rgb255, rgbToHsv: RgbToHsv): (r: Reading)
    ensures system == RgbSystem ==> Trunc(r.x) == c.r && Trunc(r.y) == c.g && Trunc(r.z) == c.b
  {
    match system
    case RgbSystem => Reading(c.r as real, c.g as real, c.b as real)
    case HsvSystem => HsvReading(rgbToHsv(Unit(c)))
  }

  /** The colour indices `setselection` inspects: those of the selection's
      CA atoms, else the object's colour twice, else `[0, 0]`. */
  function ColourIds(caColours: seq<int>, objectColour: Option<int>): (ids: seq<int>)
    ensures ids != []
    ensures caColours != [] ==> ids == caColours
    ensures caColours == [] ==> |ids| == 2 && ids[0] == ids[1]
  {
    if caColours != [] then caColours
    else match objectColour
      case Some(c) => [c, c]
      case None => [0, 0]
  }

  /** The colours of the first and last index; if either lookup fails, both
      endpoints fall back to gray. */
  function Endpoints(ids: seq<int>, lookup: int -> Option<Rgb>): (seeds: (Rgb, Rgb))
    requires ids != []
    ensures lookup(ids[0]).Some? && lookup(ids[|ids| - 1]).Some? ==>
      seeds == (lookup(ids[0]).value, lookup(ids[|ids| - 1]).value)
    ensures lookup(ids[0]).None? || lookup(ids[|ids| - 1]).None? ==> seeds == (GRAY, GRAY)
  {
    match (lookup(ids[0]), lookup(ids[|ids| - 1]))
    case (Some(first), Some(last)) => (first, last)
    case _ => (GRAY, GRAY)
  }

  /** A selection whose inspected colour list has one entry, or none at all,
      always seeds two equal endpoints, and so the mono mode. */
  lemma SingleColourSeedsEqualEndpoints(caColours: seq<int>, objectColour: Option<int>,
                                        lookup: int -> Option<Rgb>)
    requires |caColours| <= 1
    ensures Endpoints(ColourIds(caColours, objectColour), lookup).0
         == Endpoints(ColourIds(caColours, objectColour), lookup).1
  {
    var ids := ColourIds(caColours, objectColour);
    assert ids[0] == ids[|ids| - 1];
  }

  /** A failed lookup seeds both endpoints with (127, 127, 127). */
  lemma FailedLookupSeedsGray(ids: seq<int>, lookup: int -> Option<Rgb>)
    requires ids != []
    requires lookup(ids[0]).None? || lookup(ids[|ids| - 1]).None?
    ensures To255(Endpoints(ids, lookup).0) == Rgb255(127, 127, 127)
    ensures To255(Endpoints(ids, lookup).1) == Rgb255(127, 127, 127)
  {
    assert Trunc(0.5 * 255.0) == 127;
  }

  /** Python's `min` over a non-empty list of integers. */
  function SeqMin(s: seq<int>): (m: int)
    requires s != []
    ensures m in s && forall x :: x in s ==> m <= x
  {
    if |s| == 1 then s[0]
    else
      assert s == [s[0]] + s[1..];
      var rest := SeqMin(s[1..]);
      if s[0] <= rest then s[0] else rest
  }

  /** Python's `max` over a non-empty list of integers. */
  function SeqMax(s: seq<int>): (m: int)
    requires s != []
    ensures m in s && forall x :: x in s ==> x <= m
  {
    if |s| == 1 then s[0]
    else
      assert s == [s[0]] + s[1..];
      var rest := SeqMax(s[1..]);
      if rest <= s[0] then s[0] else rest
  }

  class Colorama {
    var selection: string
    var monograd: Shading
    var colorsystem: ColorSystem
    var farbe12: Slot
    var farbe1: Rgb255
    var farbe2: Rgb255
    /** The host calls made so far, oldest first. */
    var trace: seq<HostCall>

    constructor ()
      ensures selection == "" && monograd == MonoMode && colorsystem == RgbSystem && farbe12 == Slot1
      ensures farbe1 == Rgb255(128, 128, 128) && farbe2 == Rgb255(128, 128, 128)
      ensures trace == []
    {
      selection := "";
      monograd := MonoMode;
      colorsystem := RgbSystem;
      farbe12 := Slot1;
      farbe1 := Rgb255(128, 128, 128);
      farbe2 := Rgb255(128, 128, 128);
      trace := [];
    }

    /** `Scalergb`: from HSV, re-express the sliders' colour in RGB and switch
        to RGB; already in RGB, do nothing. */
    method ScaleRgb(reading: Reading, hsvToRgb: HsvToRgb) returns (shown: Widgets)
      modifies this`colorsystem
      ensures colorsystem == RgbSystem
      ensures old(colorsystem) == RgbSystem ==> shown == UNTOUCHED
      ensures old(colorsystem) == HsvSystem ==>
        shown == Widgets(Some(RgbReading(hsvToRgb(Hsv(reading.x, reading.y, reading.z)))), None, None)
    {
      shown := UNTOUCHED;
      if colorsystem == HsvSystem {
        var rgb := hsvToRgb(Hsv(reading.x, reading.y, reading.z));
        shown := Widgets(Some(RgbReading(rgb)), None, None);
        colorsystem := RgbSystem;
      }
    }

    /** `Scalehsv`: from RGB, re-express the sliders' colour in HSV and switch
        to HSV; already in HSV, do nothing. */
    method ScaleHsv(reading: Reading, rgbToHsv: RgbToHsv) returns (shown: Widgets)
      modifies this`colorsystem
      ensures colorsystem == HsvSystem
      ensures old(colorsystem) == HsvSystem ==> shown == UNTOUCHED
      ensures old(colorsystem) == RgbSystem ==>
        shown == Widgets(Some(HsvReading(rgbToHsv(Rgb(reading.x / 255.0, reading.y / 255.0, reading.z / 255.0)))), None, None)
    {
      shown := UNTOUCHED;
      if colorsystem == RgbSystem {
        var hsv := rgbToHsv(Rgb(reading.x / 255.0, reading.y / 255.0, reading.z / 255.0));
        shown := Widgets(Some(HsvReading(hsv)), None, None);
        colorsystem := HsvSystem;
      }
    }

    method Mono()
      modifies this`monograd
      ensures monograd == MonoMode
    {
      monograd := MonoMode;
    }

    method Grad()
      modifies this`monograd
      ensures monograd == GradMode
    {
      monograd := GradMode;
    }

    /** `Farbe1`: edit endpoint 1; in gradient mode the sliders move to it. */
    method Farbe1(rgbToHsv: RgbToHsv) returns (shown: Widgets)
      modifies this`farbe12
      ensures farbe12 == Slot1
      ensures monograd == MonoMode ==> shown == UNTOUCHED
      ensures monograd == GradMode ==> shown == Widgets(Some(EndpointReading(colorsystem, farbe1, rgbToHsv)), None, None)
    {
      farbe12 := Slot1;
      shown := UNTOUCHED;
      if monograd == GradMode {
        shown := Widgets(Some(EndpointReading(colorsystem, farbe1, rgbToHsv)), None, None);
      }
    }

    /** `Farbe2`: edit endpoint 2; in gradient mode the sliders move to it. */
    method Farbe2(rgbToHsv: RgbToHsv) returns (shown: Widgets)
      modifies this`farbe12
      ensures farbe12 == Slot2
      ensures monograd == MonoMode ==> shown == UNTOUCHED
      ensures monograd == GradMode ==> shown == Widgets(Some(EndpointReading(colorsystem, farbe2, rgbToHsv)), None, None)
    {
      farbe12 := Slot2;
      shown := UNTOUCHED;
      if monograd == GradMode {
        shown := Widgets(Some(EndpointReading(colorsystem, farbe2, rgbToHsv)), None, None);
      }
    }

    /** `setzeFarbe`, run whenever a slider moves. Without a selection it does
        nothing. In mono mode it recolours the whole selection with the
        sliders' colour and leaves both endpoints alone; in gradient mode it
        only stores the sliders' colour as the endpoint being edited. */
    method SetzeFarbe(reading: Reading, hsvToRgb: HsvToRgb) returns (shown: Widgets)
      modifies this`farbe1, this`farbe2, this`trace
      ensures selection == "" ==>
        farbe1 == old(farbe1) && farbe2 == old(farbe2) && trace == old(trace) && shown == UNTOUCHED
      ensures selection != "" && monograd == MonoMode ==>
        && farbe1 == old(farbe1) && farbe2 == old(farbe2)
        && trace == old(trace) + MonoCalls(selection, SliderHostColour(colorsystem, reading, hsvToRgb))
        && var hex := RGBToHTMLColor(SliderColour(colorsystem, reading, hsvToRgb));
           shown == Widgets(None, Some(hex), Some(hex))
      ensures selection != "" && monograd == GradMode && farbe12 == Slot1 ==>
        && farbe1 == SliderColour(colorsystem, reading, hsvToRgb) && farbe2 == old(farbe2)
        && trace == old(trace)
        && shown == Widgets(None, Some(RGBToHTMLColor(farbe1)), None)
      ensures selection != "" && monograd == GradMode && farbe12 == Slot2 ==>
        && farbe2 == SliderColour(colorsystem, reading, hsvToRgb) && farbe1 == old(farbe1)
        && trace == old(trace)
        && shown == Widgets(None, None, Some(RGBToHTMLColor(farbe2)))
    {
      shown := UNTOUCHED;
      if selection == "" {
        return;
      }
      var rgbcolor := SliderColour(colorsystem, reading, hsvToRgb);
      var hexcolor := RGBToHTMLColor(rgbcolor);
      if monograd == MonoMode {
        shown := Widgets(None, Some(hexcolor), Some(hexcolor));
        var name := selection + "_color";
        trace := trace + [Delete(name)];
        trace := trace + [SetColor(name, SliderHostColour(colorsystem, reading, hsvToRgb))];
        trace := trace + [Color(name, Whole(selection))];
      } else if farbe12 == Slot1 {
        shown := Widgets(None, Some(hexcolor), None);
        farbe1 := rgbcolor;
      } else {
        shown := Widgets(None, None, Some(hexcolor));
        farbe2 := rgbcolor;
      }
    }

    /** `setselection`. A blank entry changes nothing. Otherwise the stripped
        entry becomes the selection, the endpoints are seeded from the
        colours of its first and last CA atom, the mode becomes mono exactly
        when those two colours are equal, and endpoint 1 is put up for
        editing. */
    method SetSelection(entry: string, caColours: seq<int>, objectColour: Option<int>,
                        lookup: int -> Option<Rgb>, rgbToHsv: RgbToHsv)
      returns (shown: Widgets)
      modifies this`selection, this`monograd, this`farbe12, this`farbe1, this`farbe2
      ensures Strip(entry) == "" ==>
        && selection == old(selection) && monograd == old(monograd) && farbe12 == old(farbe12)
        && farbe1 == old(farbe1) && farbe2 == old(farbe2) && shown == UNTOUCHED
      ensures Strip(entry) != "" ==>
        var seeds := Endpoints(ColourIds(caColours, objectColour), lookup);
        var nterm, cterm := seeds.0, seeds.1;
        && selection == Strip(entry)
        && farbe1 == To255(nterm) && farbe2 == To255(cterm)
        && (monograd == MonoMode <==> nterm == cterm)
        && farbe12 == Slot1
        && shown.swatch1 == Some(RGBToHTMLColor(farbe1)) && shown.swatch2 == Some(RGBToHTMLColor(farbe2))
        && shown.sliders == Some(match colorsystem
                                 case RgbSystem => RgbReading(nterm)
                                 case HsvSystem => HsvReading(rgbToHsv(nterm)))
    {
      shown := UNTOUCHED;
      var text := Strip(entry);
      if text == "" {
        return;
      }
      selection := text;
      var ids := ColourIds(caColours, objectColour);
      var seeds := Endpoints(ids, lookup);
      var nterm, cterm := seeds.0, seeds.1;
      var rgb1, rgb2 := To255(nterm), To255(cterm);
      farbe1, farbe2 := rgb1, rgb2;
      if nterm == cterm {
        Mono();
      } else {
        Grad();
      }
      var hex1, hex2 := RGBToHTMLColor(rgb1), RGBToHTMLColor(rgb2);
      var moved := Farbe1(rgbToHsv);
      assert selection == text && farbe1 == rgb1 && farbe2 == rgb2;
      var sliders := match colorsystem
        case RgbSystem => RgbReading(nterm)
        case HsvSystem => HsvReading(rgbToHsv(nterm));
      shown := Widgets(Some(sliders), Some(hex1), Some(hex2));
    }

    /** `setgradient`. Without a selection, or when the residue numbers cannot
        be read or there are none, it does nothing. Otherwise it runs
        `color_grad` on the selection with the defaults (item 'b', mode
        'hist', preset 'bgr'), the smallest and largest residue number as
        bounds, and the two endpoints in HSV. */
    method SetGradient(residues: Option<seq<int>>, atoms: seq<Atom>,
                       rgbToHsv: RgbToHsv, hsvToRgb: HsvToRgb)
      returns (status: Option<Status>)
      modifies this`trace
      ensures (selection == "" || residues == None || residues == Some([])) ==>
        status == None && trace == old(trace)
      ensures selection != "" && residues.Some? && residues.value != [] && atoms == [] ==>
        status == Some(NoAtoms) && trace == old(trace)
      ensures selection != "" && residues.Some? && residues.value != [] && atoms != [] ==>
        var lo, hi := SeqMin(residues.value), SeqMax(residues.value);
        var start, end := rgbToHsv(Unit(farbe1)), rgbToHsv(Unit(farbe2));
        && lo <= hi && BinCount(lo, hi) == hi - lo + 2
        && status == Some(Coloured)
        && trace == old(trace) + ([LoadModel(DummyName(selection), Loaded(atoms, "b"))]
                                  + SetColorCalls(ColourName(selection), start, end, BinCount(lo, hi), hsvToRgb)
                                  + ColourCalls(GradientNames(ColourName(selection), BinCount(lo, hi)),
                                                HistSelectors(selection, "b", lo, hi), hi - lo + 2))
    {
      status := None;
      if selection != "" && residues.Some? && residues.value != [] {
        var firstresidue := SeqMin(residues.value);
        var lastresidue := SeqMax(residues.value);
        var start := rgbToHsv(Unit(farbe1));
        var end := rgbToHsv(Unit(farbe2));
        LowerFixesLowerCase("hist");
        LowerFixesLowerCase("bgr");
        assert Admitted(selection, "hist", "bgr");
        var outcome, effects := ColorGrad(selection, "b", "hist", "bgr", 11, 1.0, 1.0,
                                          firstresidue, lastresidue, start, end, atoms, hsvToRgb);
        ColourRunCases(selection, "b", true, "bgr", firstresidue, lastresidue, start, end, atoms, hsvToRgb);
        trace := trace + effects;
        status := Some(outcome);
      }
    }
  }

  /** A client of the specifications above: each colour-system switch is
      idempotent, since a second switch to the same system changes nothing. */
  method ScaleSwitchesAreIdempotent(d: Colorama, reading: Reading, hsvToRgb: HsvToRgb, rgbToHsv: RgbToHsv)
    returns (again: Widgets, againHsv: Widgets)
    modifies d
    ensures again == UNTOUCHED && againHsv == UNTOUCHED
    ensures d.colorsystem == HsvSystem
    ensures d.selection == old(d.selection) && d.monograd == old(d.monograd) && d.farbe12 == old(d.farbe12)
    ensures d.farbe1 == old(d.farbe1) && d.farbe2 == old(d.farbe2) && d.trace == old(d.trace)
  {
    var first := d.ScaleRgb(reading, hsvToRgb);
    again := d.ScaleRgb(reading, hsvToRgb);
    var firstHsv := d.ScaleHsv(reading, rgbToHsv);
    againHsv := d.ScaleHsv(reading, rgbToHsv);
  }
}
