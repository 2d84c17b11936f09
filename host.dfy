/** Values exchanged with the PyMOL host, and the calls the plugin makes to it.

    The host itself (atom iteration, colour lookups, the colour table) is not
    modelled: what the plugin reads from it arrives as parameters, and what it
    asks the host to do is recorded as a sequence of `HostCall`s. */
module Host {

  datatype Option<T> = None | Some(value: T)

  /** A colour as the host stores it: three channels, nominally in [0, 1]. */
  datatype Rgb = Rgb(r: real, g: real, b: real)

  /** A colour in hue/saturation/value coordinates, nominally in [0, 1]. */
  datatype Hsv = Hsv(h: real, s: real, v: real)

  /** An integer colour triple, as the dialog keeps its two gradient endpoints. */
  datatype Rgb255 = Rgb255(r: int, g: int, b: int)

  /** `colorsys.hsv_to_rgb` and `colorsys.rgb_to_hsv`: floating-point library
      code the plugin relies on without any promise about it, so the model
      takes them as uninterpreted functions supplied by the caller. */
  type HsvToRgb = Hsv -> Rgb
  type RgbToHsv = Rgb -> Hsv

  /** An atom of a host model, reduced to the attributes the gradient reads or writes. */
  datatype Atom = Atom(resi: int, b: real, q: real)

  /** What a colouring call applies to: a whole selection, or the atoms of an
      object whose `item` attribute equals a threshold (the `%4.4g` text of
      the threshold is not modelled, only its value). */
  datatype Target =
    | Whole(selection: string)
    | Bin(obj: string, item: string, threshold: real)

  /** The host calls with an effect: `cmd.delete`, `cmd.set_color`, `cmd.color`
      and `cmd.load_model`. */
  datatype HostCall =
    | Delete(name: string)
    | SetColor(name: string, rgb: Rgb)
    | Color(colour: string, target: Target)
    | LoadModel(name: string, atoms: seq<Atom>)

  /** Python's `int()` applied to a float: truncation toward zero. */
  function Trunc(x: real): (i: int)
    ensures 0.0 <= x ==> 0 <= i && i as real <= x < i as real + 1.0
    ensures x < 0.0 ==> i <= 0 && i as real - 1.0 < x <= i as real
  {
    if 0.0 <= x then x.Floor else -((-x).Floor)
  }
}
