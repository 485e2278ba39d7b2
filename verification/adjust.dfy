/**
  Tonal adjustments: the ten slider values, the preset tint colour, the
  ordered list of filter operations the renderer applies to the foreground,
  the named presets, the "unblur" enhancement and the reset.
 */
module Adjust {
  import opened Base

  /** A CSS `rgba(r, g, b, a)` colour, as the presets write their tints. */
  datatype Rgba = Rgba(red: int, green: int, blue: int, alpha: real)

  datatype Adjustments = Adjustments(
    brightness: real, contrast: real, saturation: real, exposure: real,
    shadows: real, highlights: real, temperature: real, tint: real,
    vibrance: real, clarity: real, tintColor: Option<Rgba>)

  /** Every slider at zero and no tint colour: the editor's start and reset state. */
  const Neutral := Adjustments(0.0, 0.0, 0.0, 0.0, 0.0, 0.0, 0.0, 0.0, 0.0, 0.0, None)

  /** One CSS filter function; `amount` is the factor, or degrees for a hue rotation. */
  datatype FilterOp =
    | Brightness(amount: real)
    | Contrast(amount: real)
    | Saturate(amount: real)
    | Sepia(amount: real)
    | HueRotate(amount: real)

  /** The unclamped brightness factor: exposure adds to brightness. */
  function RawBrightness(a: Adjustments): real {
    1.0 + a.brightness / 100.0 + a.exposure / 100.0
  }

  /** The unclamped contrast factor: clarity adds a third as much as contrast. */
  function RawContrast(a: Adjustments): real {
    1.0 + a.contrast / 100.0 + a.clarity / 300.0
  }

  /** The unclamped saturation factor: vibrance adds half as much as saturation. */
  function RawSaturation(a: Adjustments): real {
    1.0 + a.saturation / 100.0 + a.vibrance / 200.0
  }

  /**
    The filter the renderer sets before drawing the foreground: clamped
    brightness, contrast and saturation factors, then a warm sepia or a cool
    hue shift for the temperature, then a hue shift for the tint slider.
   */
  function FilterList(a: Adjustments): (ops: seq<FilterOp>)
    ensures |ops| >= 3 && ops[0].Brightness? && ops[1].Contrast? && ops[2].Saturate?
    ensures forall i :: 0 <= i < 3 ==> ops[i].amount >= 0.0
    ensures forall i :: 3 <= i < |ops| ==> ops[i].Sepia? || ops[i].HueRotate?
    ensures (exists i :: 0 <= i < |ops| && ops[i].Sepia?) <==> a.temperature > 0.0
    ensures |ops| == 3 + (if a.temperature != 0.0 then 1 else 0) + (if a.tint != 0.0 then 1 else 0)
  {
    var base := [Brightness(Max(0.0, RawBrightness(a))),
                 Contrast(Max(0.0, RawContrast(a))),
                 Saturate(Max(0.0, RawSaturation(a)))];
    var warmth := if a.temperature > 0.0 then [Sepia(a.temperature / 200.0)]
                  else if a.temperature < 0.0 then [HueRotate(a.temperature / 5.0)]
                  else [];
    var shift := if a.tint != 0.0 then [HueRotate(a.tint)] else [];
    var ops := base + warmth + shift;
    assert a.temperature > 0.0 ==> ops[3].Sepia?;
    ops
  }

  /**
    Each factor is the unclamped value where that is non-negative and zero
    otherwise; the temperature and tint operations appear exactly when their
    slider is off zero, warm before tint.
   */
  lemma FilterListEntries(a: Adjustments)
    ensures var ops := FilterList(a);
            && (RawBrightness(a) >= 0.0 ==> ops[0].amount == RawBrightness(a))
            && (RawBrightness(a) < 0.0 ==> ops[0].amount == 0.0)
            && (RawContrast(a) >= 0.0 ==> ops[1].amount == RawContrast(a))
            && (RawContrast(a) < 0.0 ==> ops[1].amount == 0.0)
            && (RawSaturation(a) >= 0.0 ==> ops[2].amount == RawSaturation(a))
            && (RawSaturation(a) < 0.0 ==> ops[2].amount == 0.0)
            && (a.temperature > 0.0 ==> ops[3] == Sepia(a.temperature / 200.0))
            && (a.temperature < 0.0 ==> ops[3] == HueRotate(a.temperature / 5.0))
            && (a.tint != 0.0 ==> ops[|ops| - 1] == HueRotate(a.tint))
  {
  }

  /** The shadows and highlights sliders never reach the filter. */
  lemma FilterIgnoresShadowsHighlights(a: Adjustments, shadows: real, highlights: real)
    ensures FilterList(a.(shadows := shadows, highlights := highlights)) == FilterList(a)
  {
  }

  /** Raising brightness (or exposure) never lowers the brightness factor. */
  lemma BrightnessMonotone(a: Adjustments, b: Adjustments)
    requires a.brightness <= b.brightness && a.exposure <= b.exposure
    ensures FilterList(a)[0].amount <= FilterList(b)[0].amount
  {
  }

  /** The neutral adjustments give the identity filter. */
  lemma NeutralIsIdentity()
    ensures FilterList(Neutral) == [Brightness(1.0), Contrast(1.0), Saturate(1.0)]
  {
  }

  /** The ten adjustment sliders. */
  datatype Slider =
    | BrightnessSlider | ContrastSlider | SaturationSlider | ExposureSlider
    | ShadowsSlider | HighlightsSlider | TemperatureSlider | TintSlider
    | VibranceSlider | ClaritySlider

  /** The value a slider shows. */
  function Setting(a: Adjustments, s: Slider): real {
    match s
    case BrightnessSlider => a.brightness
    case ContrastSlider => a.contrast
    case SaturationSlider => a.saturation
    case ExposureSlider => a.exposure
    case ShadowsSlider => a.shadows
    case HighlightsSlider => a.highlights
    case TemperatureSlider => a.temperature
    case TintSlider => a.tint
    case VibranceSlider => a.vibrance
    case ClaritySlider => a.clarity
  }

  /** Moving one slider sets exactly its value. */
  function SetSlider(a: Adjustments, s: Slider, v: real): (r: Adjustments)
    ensures Setting(r, s) == v
    ensures forall t :: t != s ==> Setting(r, t) == Setting(a, t)
    ensures r.tintColor == a.tintColor
  {
    match s
    case BrightnessSlider => a.(brightness := v)
    case ContrastSlider => a.(contrast := v)
    case SaturationSlider => a.(saturation := v)
    case ExposureSlider => a.(exposure := v)
    case ShadowsSlider => a.(shadows := v)
    case HighlightsSlider => a.(highlights := v)
    case TemperatureSlider => a.(temperature := v)
    case TintSlider => a.(tint := v)
    case VibranceSlider => a.(vibrance := v)
    case ClaritySlider => a.(clarity := v)
  }

  /** Reading back every slider determines the adjustments up to the tint colour. */
  lemma SettingsDetermine(a: Adjustments, b: Adjustments)
    requires forall s :: Setting(a, s) == Setting(b, s)
    requires a.tintColor == b.tintColor
    ensures a == b
  {
    assert Setting(a, BrightnessSlider) == Setting(b, BrightnessSlider);
    assert Setting(a, ContrastSlider) == Setting(b, ContrastSlider);
    assert Setting(a, SaturationSlider) == Setting(b, SaturationSlider);
    assert Setting(a, ExposureSlider) == Setting(b, ExposureSlider);
    assert Setting(a, ShadowsSlider) == Setting(b, ShadowsSlider);
    assert Setting(a, HighlightsSlider) == Setting(b, HighlightsSlider);
    assert Setting(a, TemperatureSlider) == Setting(b, TemperatureSlider);
    assert Setting(a, TintSlider) == Setting(b, TintSlider);
    assert Setting(a, VibranceSlider) == Setting(b, VibranceSlider);
    assert Setting(a, ClaritySlider) == Setting(b, ClaritySlider);
  }

  /** Moving a slider back to the value it showed undoes the move. */
  lemma SetSliderRestores(a: Adjustments, s: Slider, v: real)
    ensures SetSlider(SetSlider(a, s, v), s, Setting(a, s)) == a
  {
    var r := SetSlider(SetSlider(a, s, v), s, Setting(a, s));
    SettingsDetermine(r, a);
  }

  /** One row of the preset table. */
  datatype PresetRow = PresetRow(brightness: real, contrast: real, saturation: real, tintColor: Option<Rgba>)

  /** The named presets; any other name has no row. */
  function PresetTable(name: string): Option<PresetRow> {
    if name == "moody" then Some(PresetRow(-10.0, 20.0, -20.0, Some(Rgba(0, 40, 60, 0.4))))
    else if name == "cinematic" then Some(PresetRow(0.0, 15.0, -10.0, Some(Rgba(0, 100, 150, 0.25))))
    else if name == "vintage" then Some(PresetRow(5.0, -10.0, -20.0, Some(Rgba(220, 180, 50, 0.3))))
    else if name == "warm" then Some(PresetRow(5.0, 5.0, 10.0, Some(Rgba(255, 140, 0, 0.2))))
    else if name == "cool" then Some(PresetRow(0.0, 10.0, -10.0, Some(Rgba(0, 180, 255, 0.2))))
    else if name == "bw" then Some(PresetRow(0.0, 20.0, -100.0, None))
    else None
  }

  /**
    The adjustment part of applying a preset: brightness, contrast, saturation
    and the tint colour are overwritten by the row; an unknown name changes nothing.
   */
  function ApplyPreset(a: Adjustments, name: string): (r: Adjustments)
    ensures PresetTable(name).None? ==> r == a
    ensures PresetTable(name).Some? ==>
              && r.brightness == PresetTable(name).value.brightness
              && r.contrast == PresetTable(name).value.contrast
              && r.saturation == PresetTable(name).value.saturation
              && r.tintColor == PresetTable(name).value.tintColor
    ensures forall s :: s != BrightnessSlider && s != ContrastSlider && s != SaturationSlider ==>
              Setting(r, s) == Setting(a, s)
  {
    match PresetTable(name)
    case None => a
    case Some(row) =>
      a.(brightness := row.brightness, contrast := row.contrast,
         saturation := row.saturation, tintColor := row.tintColor)
  }

  /** A preset is a total assignment of its four fields: prior values do not leak through. */
  lemma PresetForgetsPrior(a: Adjustments, b: Adjustments, name: string)
    requires PresetTable(name).Some?
    requires forall s :: s != BrightnessSlider && s != ContrastSlider && s != SaturationSlider ==>
               Setting(a, s) == Setting(b, s)
    ensures ApplyPreset(a, name) == ApplyPreset(b, name)
  {
    SettingsDetermine(ApplyPreset(a, name), ApplyPreset(b, name));
  }

  /** Applying the same preset twice is the same as applying it once. */
  lemma PresetIdempotent(a: Adjustments, name: string)
    ensures ApplyPreset(ApplyPreset(a, name), name) == ApplyPreset(a, name)
  {
  }

  /** The black-and-white preset. */
  lemma BlackAndWhitePreset(a: Adjustments)
    ensures var r := ApplyPreset(a, "bw");
            r.brightness == 0.0 && r.contrast == 20.0 && r.saturation == -100.0 && r.tintColor == None
  {
  }

  /** The simulated unblur: a contrast and clarity boost. */
  function Unblur(a: Adjustments): (r: Adjustments)
    ensures r.contrast == a.contrast + 10.0 && r.clarity == a.clarity + 20.0
    ensures RawContrast(r) == RawContrast(a) + 1.0 / 6.0
    ensures forall s :: s != ContrastSlider && s != ClaritySlider ==> Setting(r, s) == Setting(a, s)
    ensures r.tintColor == a.tintColor
  {
    a.(contrast := a.contrast + 10.0, clarity := a.clarity + 20.0)
  }

  /** Unblur never lowers the contrast factor and changes no other filter factor. */
  lemma UnblurRaisesContrast(a: Adjustments)
    ensures FilterList(Unblur(a))[1].amount >= FilterList(a)[1].amount
    ensures RawContrast(a) >= 0.0 ==> FilterList(Unblur(a))[1].amount > FilterList(a)[1].amount
    ensures FilterList(Unblur(a))[0] == FilterList(a)[0]
    ensures FilterList(Unblur(a))[2..] == FilterList(a)[2..]
  {
  }
}
