# Colorama, modelled in Dafny

Colorama is a PyMOL plugin for colouring a molecular selection. It has two
ways of doing it. In mono mode one custom colour is applied to the whole
selection. In gradient mode a two-colour gradient runs over the selection's
residue numbers. This project models the three parts of
`plugins/colorama.py` whose behaviour can be stated exactly, and proves
properties of each:

- **Gradient engine** (`gradient.dfy`, module `Gradient`): `color_grad` and
  `make_gradient`.
  - Modelled:
    - the normalisation of the bin count, saturation and value;
    - the five checks, in their fixed order;
    - loading the dummy object;
    - the histogram selectors;
    - the linear HSV interpolation;
    - the colouring loop.
  - A run ends in one of these outcomes:
    - `Coloured`, when it runs to the end;
    - one of the five refusals;
    - one of the three crashes the code can reach:
      - a ramp-mode index past the end of the empty selector list;
      - an unbound colour list for presets other than `bgr` and `rainbow`;
      - a division by zero when the bin count is 0.
- **Dialog state machine** (`colorama.dfy`, module `Dialog`): class
  `Colorama`.
  - Its fields are `selection`, `monograd`, `colorsystem`, `farbe12`,
    `farbe1` and `farbe2`, plus `trace`, the host calls made so far.
  - Its transitions are the methods `Scalergb`, `Scalehsv`, `Mono`, `Grad`,
    `Farbe1`, `Farbe2`, `setzeFarbe`, `setselection` and `setgradient`.
  - Slider readings and host lookups come in as parameters.
  - What a transition writes back to the sliders and the two colour swatches
    is returned as a `Widgets` value.
- **Hex encoder** (`hex.dfy`, module `HtmlColor`): `RGBToHTMLColor`, with a
  decoder. The model proves that the decoder inverts the encoder, and the
  reverse.

Support modules:

- `host.dfy` (`Host`):
  - the values exchanged with PyMOL;
  - the host calls, recorded as a sequence;
  - Python's `int()` on a float, as truncation toward zero.
- `text.dfy` (`Text`): Python's `str.lower()`, `str.strip()` and `str()` of
  a non-negative integer.

`colorsys.hsv_to_rgb` and `colorsys.rgb_to_hsv` are uninterpreted function
parameters. Colour arithmetic is exact (`real`).

## Model

| member | source | states |
|---|---|---|
| Host.Trunc | plugins/colorama.py:391-400 | `int()` of a float truncates toward zero: the result lies within 1 of the argument, on the zero side |
| Text.Lower | plugins/colorama.py:607-609 | `lower()` keeps the length, lowers every character, and leaves no upper-case ASCII letter |
| Text.LowerFixesLowerCase | plugins/colorama.py:568-569 | a name already in lower case, such as the defaults `hist` and `bgr`, is unchanged by lowering |
| Text.TrimStart | plugins/colorama.py:364 | removes exactly the leading white space: the result is a suffix, the dropped prefix is all white space, and the result does not start with white space |
| Text.TrimEnd | plugins/colorama.py:364 | the same at the end of the text |
| Text.Strip | plugins/colorama.py:364 | `strip()` is empty exactly when the entry is all white space; otherwise neither end is white space |
| Text.StripIsMiddle | plugins/colorama.py:364 | `strip()` keeps exactly the entry's middle: the result is a contiguous slice of the entry, and everything before and after it is white space |
| Text.NatToString | plugins/colorama.py:686-687 | `str(j)` is all decimal digits, with no leading zero |
| Text.DecimalRoundTrip | plugins/colorama.py:686-687 | reading `str(n)` back as a decimal gives `n` |
| Text.NatToStringInjective | plugins/colorama.py:686-687 | distinct bin indices have distinct decimal strings |
| HtmlColor.HexDigit | plugins/colorama.py:541 | a digit value below 16 is written as a lower-case hex digit |
| HtmlColor.HexValue | plugins/colorama.py:541 | a hex digit's value is below 16 and is written back as that same digit |
| HtmlColor.Format02x | plugins/colorama.py:541 | `'%02x'` is at least two characters; for 0..255 it is exactly the high and the low hex digit |
| HtmlColor.RGBToHTMLColor | plugins/colorama.py:539-542 | the text starts with `#` and has at least seven characters, for any integers |
| HtmlColor.HtmlColorShape | plugins/colorama.py:539-542 | for channels in 0..255: seven characters, `#`, then each channel's two lower-case hex digits, in R, G, B order |
| HtmlColor.FieldValue | plugins/colorama.py:541 | two hex digits decode to a value in 0..255 |
| HtmlColor.HtmlColorRoundTrip | plugins/colorama.py:539-542 | decoding the text gives back the triple, for channels in 0..255 |
| HtmlColor.ParsedColorReencodes | plugins/colorama.py:539-542 | every `#rrggbb` text the decoder accepts is the encoding of the triple it decodes to |
| Gradient.ColourName | plugins/colorama.py:594 | the colour prefix is `color_` followed by the selection, which can be read back from it |
| Gradient.DummyName | plugins/colorama.py:597 | the dummy object's name is `dummy-` followed by the selection, which can be read back from it |
| Gradient.NamesKeepSelectionsApart | plugins/colorama.py:594-597 | distinct selections get distinct colour prefixes and distinct dummy objects, and no bin colour name is a dummy object's name |
| Gradient.BinCount | plugins/colorama.py:596-613 | the bin count is `maximum - minimum + 2` whatever `nbins` was passed, except that 1 becomes 11; it is never 1, and it is 0 exactly when `maximum == minimum - 2` |
| Gradient.BinWidth | plugins/colorama.py:656-664 | the bins together span the padded range exactly: width times count is `(maximum + 1) - (minimum - 1)` |
| Gradient.Clamp01 | plugins/colorama.py:600-604 | saturation and value end in [0, 1]: unchanged inside, 1 above, 0 below |
| Gradient.HistSelectors | plugins/colorama.py:656-667 | the selector list has one entry per bin, or one entry when the bin count is negative |
| Gradient.HistSelectorsOnRange | plugins/colorama.py:656-667 | for `minimum <= maximum` there are `maximum - minimum + 2` bins of width exactly 1. Entry 0 picks the selection at `minimum`. Entry j picks the dummy object at `minimum - 1 + j`, and the last entry's threshold is `maximum` |
| Gradient.HistSelectorsReset | plugins/colorama.py:611-613 | a derived bin count of 1 becomes 11: eleven selectors over a span of 1, with width 1/11 |
| Gradient.Channel | plugins/colorama.py:690-694 | one channel of the sweep `s - (s - e) * j / (nbins - 1)` is exactly the start value at bin 0 and exactly the end value at bin `nbins-1` |
| Gradient.ChannelBetween | plugins/colorama.py:690-694 | every bin's channel value lies between the two endpoints' values |
| Gradient.Interpolate | plugins/colorama.py:690-694 | each of H, S and V is interpolated on its own; the HSV at bin 0 is the start colour, and at bin `nbins-1` it is the end colour |
| Gradient.GradientNames | plugins/colorama.py:686-687 | `make_gradient` returns one name per bin (none for a non-positive count) |
| Gradient.GradientNamesDistinct | plugins/colorama.py:686-687 | no two bins share a colour name |
| Gradient.SetColorCalls | plugins/colorama.py:683-698 | one `set_color` per bin |
| Gradient.SetColorCallsSweep | plugins/colorama.py:683-698 | bin 0 is defined as `colorname0` with the start colour and the last bin as the end colour. Bin j's definition carries bin j's returned name |
| Gradient.ColourCalls | plugins/colorama.py:672-675 | one `color` call per coloured bin |
| Gradient.MakeGradient | plugins/colorama.py:681-701 | `bgr` and `rainbow` return the bin names and define each bin's colour in bin order. Every other preset defines nothing and leaves the result unbound. A bin count of 1 divides by zero |
| Gradient.Loaded | plugins/colorama.py:638-649 | the dummy model has as many atoms as the selection |
| Gradient.CopyResidueNumbers | plugins/colorama.py:638-641 | the item-`b` loop leaves every atom's B-factor equal to its residue number, and nothing else changes |
| Gradient.BuildHistSelectors | plugins/colorama.py:656-667 | the selector loop builds exactly the histogram selector list |
| Gradient.ColourBins | plugins/colorama.py:672-675 | the colouring loop completes exactly when there is a selector for every bin. It colours bin j's selector with bin j's colour, and stops at the first missing selector |
| Gradient.ColourRun | plugins/colorama.py:638-675 | once the checks pass, the dummy object is loaded first, and the run never ends in a refusal |
| Gradient.ColourRunCases | plugins/colorama.py:638-675 | Division by zero happens exactly in hist mode with 0 bins. The colour list is unbound exactly for the other presets. The ramp crash happens exactly when there is at least one bin. In hist mode with `bgr` or `rainbow` the calls are the colour definitions followed by the bin colourings |
| Gradient.LoadAndColour | plugins/colorama.py:638-675 | the load, selector, gradient and colouring steps produce the outcome and calls of `ColourRun` |
| Gradient.ColorGrad | plugins/colorama.py:568-679 | The checks (mode, empty selection, preset, atom count, item) fail exactly in that order. A refusal sends nothing to the host. Otherwise the run is `ColourRun` on the lowered mode and preset, with the recomputed bin count |
| Dialog.To255 | plugins/colorama.py:391-400 | `int(255 * x)` per channel; a colour with channels in [0, 1] gives a triple in 0..255 |
| Dialog.To255InvertsUnit | plugins/colorama.py:445-446 | dividing an integer triple by 255 and taking `int(255 * x)` again gives the triple back |
| Dialog.SliderColour | plugins/colorama.py:437-455 | the slider colour is `int()` of the RGB sliders or `int(255 * x)` of the HSV sliders' colour; sliders in range give a triple in 0..255 |
| Dialog.SliderHostColour | plugins/colorama.py:437-461 | the colour defined in the host for mono mode is the one the swatches show: `int(255 * x)` of it is the slider colour, in both colour systems |
| Dialog.EndpointReading | plugins/colorama.py:329-342 | the sliders' position for an endpoint; in RGB the sliders read back (with `int()`) as the endpoint itself |
| Dialog.Endpoints | plugins/colorama.py:384-389 | the endpoints are the colours of the first and last inspected index when both lookups succeed, otherwise both are gray (0.5, 0.5, 0.5) |
| Dialog.MonoCalls | plugins/colorama.py:445-447 | mono recolouring issues `delete`, then `set_color`, then `color`, all on `selection + "_color"`, applying the slider colour to the whole selection |
| Dialog.ColourIds | plugins/colorama.py:368-382 | the inspected colour list is the CA colours when there are any; otherwise it is two equal entries |
| Dialog.SingleColourSeedsEqualEndpoints | plugins/colorama.py:375-389 | a selection with at most one CA colour always seeds two equal endpoints |
| Dialog.FailedLookupSeedsGray | plugins/colorama.py:384-400 | a failed colour lookup seeds both endpoints with (127, 127, 127) |
| Dialog.SeqMin | plugins/colorama.py:510 | `min` is an element of the list and no larger than any other element |
| Dialog.SeqMax | plugins/colorama.py:511 | `max` is an element of the list and no smaller than any other element |
| Dialog.Colorama.constructor | plugins/colorama.py:144-155 | a new dialog has no selection and is in mono mode, RGB system, editing endpoint 1, with both endpoints (128, 128, 128) |
| Dialog.Colorama.ScaleRgb | plugins/colorama.py:274-294 | ends in RGB. Already in RGB it changes nothing. From HSV it moves the sliders to 255 times the converted colour |
| Dialog.Colorama.ScaleHsv | plugins/colorama.py:296-316 | ends in HSV. Already in HSV it changes nothing. From RGB it moves the sliders to the converted reading/255 |
| Dialog.Colorama.Mono | plugins/colorama.py:318-320 | sets `monograd` to mono and changes nothing else |
| Dialog.Colorama.Grad | plugins/colorama.py:322-324 | sets `monograd` to grad and changes nothing else |
| Dialog.Colorama.Farbe1 | plugins/colorama.py:326-342 | sets `farbe12` to endpoint 1 and changes nothing else. In gradient mode it moves the sliders to endpoint 1 in the current colour system |
| Dialog.Colorama.Farbe2 | plugins/colorama.py:344-360 | the same for endpoint 2 |
| Dialog.Colorama.SetzeFarbe | plugins/colorama.py:434-492 | Without a selection it does nothing. In mono mode it leaves both endpoints alone, shows the slider colour in both swatches and appends the three mono calls. In gradient mode it replaces only the endpoint being edited and issues no host call |
| Dialog.Colorama.SetSelection | plugins/colorama.py:362-431 | A blank entry changes nothing. Otherwise the stripped entry becomes the selection, and the endpoints are `int(255*c)` of the first and last looked-up colours. The mode becomes mono exactly when those two colours are equal. Endpoint 1 is put up for editing, and the swatches and sliders show the new endpoints |
| Dialog.Colorama.SetGradient | plugins/colorama.py:494-537 | It does nothing without a selection or without residue numbers. With no atoms it is refused. Otherwise it runs a hist/`bgr` gradient with the residues' min and max as bounds. That run always completes and appends the load, colour definitions and bin colourings to the trace |
| Dialog.ScaleSwitchesAreIdempotent | plugins/colorama.py:274-316 | switching to a colour system a second time changes nothing, and shows nothing |

## Left out

- The Qt widgets and layout (`ColorField`, `LabeledSlider`, `_setup_ui`, signals, palettes) are not modelled.
  - Slider values arrive as a `Reading`.
  - What a transition shows is returned as `Widgets`.
  - A slider's own clamping and its 0.01 resolution are not modelled.
  - Every slider `set_value` emits `valueChanged`, which runs `setzeFarbe` (plugins/colorama.py:97, 109, 263-265). The model does not follow that re-entry: the frames of `Scalergb`, `Scalehsv`, `Farbe1`, `Farbe2` and `setselection` (including the unchanged `trace`) hold for each handler on its own, not for the handler together with the `setzeFarbe` calls its slider moves trigger.
- The PyMOL host is not modelled.
  - `cmd.iterate`, `get_model`, `get_color_tuple`, `get_object_color_index` and `stored` become inputs: the CA colour indices, an optional object colour index, a colour lookup, the residue numbers and the selection's atoms.
  - The residue numbers and the atoms are independent inputs. The model does not tie them to one molecule.
  - `load_model`, `set_color`, `color` and `delete` are recorded as `HostCall` values, in order.
  - Their effect on PyMOL's own state is not modelled.
- `colorsys.hsv_to_rgb` and `colorsys.rgb_to_hsv` are uninterpreted parameters. No RGB/HSV round trip is claimed, because the code promises none.
- Floating point is not modelled: colour arithmetic and the bin width use exact reals, not IEEE doubles.
- The `%4.4g` text of each histogram threshold is not modelled. A selector keeps its numeric threshold.
- `print` output, the plugin registration (`open_colorama`, `__init_plugin__`, `cmd.extend`) and the dialog singleton are not modelled.
- Text.Lower: lowers ASCII letters only. Python's `str.lower()` also lowers non-ASCII letters.
- Some `color_grad` parameters and locals are not modelled:
  - `minimum` and `maximum` are integers. Their string forms, and the `!= ''` test that cannot fail once `int()` has accepted them, are not modelled.
  - `colname` and `b_list` are computed and never used, so they are left out.
- `nbins` is taken but ignored, as in the code.
- The individual parameters `hs`, `he`, `ss`, `se`, `vs`, `ve` are passed as two `Hsv` values.
- Gradient.MakeGradient: the `sel` parameter is ignored by the code and left out; `sat` and `value` are kept as parameters, which the code also ignores.
- The selection strings built for `cmd.iterate` (`selection + " & name CA"`) are not modelled. The lookups receive their results directly.

The histogram thresholds are not 1..11 for minimum 1 and maximum 10, as
one might expect. The code, and this model (`HistSelectorsOnRange`), give
minimum, minimum, minimum + 1, …, maximum. Entry 0 is `min_b + bin_width`
and entry j is `min_b + j * bin_width`, with `min_b = minimum - 1` and
width 1.
