/**
 * The risk colour scale for seismic losses: the graduated classes, the
 * colour of a loss value, and that colour in `#rrggbb` form.
 */
module ColorMapping {
  import opened Wrappers
  import opened JsText
  import opened RgbColor

  /** The upper end of a range: a number, or `Infinity` for the top range. */
  datatype Limit = Finite(value: real) | Infinity

  /** One graduated class of the scale: the half-open range `[min, max)`; `legend` is the source's `label`. */
  datatype RiskLevel = RiskLevel(min: real, max: Limit, color: string, legend: string)

  predicate BelowLimit(x: real, limit: Limit) {
    match limit
    case Finite(v) => x < v
    case Infinity => true
  }

  /** `losses >= level.min && losses < level.max`. */
  predicate InLevel(x: real, level: RiskLevel) {
    level.min <= x && BelowLimit(x, level.max)
  }

  /** The colour scale, graduated by the "losses" field. */
  const RiskColorScale: seq<RiskLevel> := [
    RiskLevel(1000.0, Finite(5000.0), "rgb(240,248,255)", "1k - 5k"),
    RiskLevel(5000.0, Finite(10000.0), "rgb(250,252,243)", "5k - 10k"),
    RiskLevel(10000.0, Finite(25000.0), "rgb(139,210,206)", "10k - 25k"),
    RiskLevel(25000.0, Finite(50000.0), "rgb(213,230,53)", "25k - 50k"),
    RiskLevel(50000.0, Finite(100000.0), "rgb(244,237,30)", "50k - 100k"),
    RiskLevel(100000.0, Finite(500000.0), "rgb(246,219,30)", "100k - 500k"),
    RiskLevel(500000.0, Finite(1000000.0), "rgb(249,201,29)", "500k - 1M"),
    RiskLevel(1000000.0, Finite(2000000.0), "rgb(249,168,14)", "1M - 2M"),
    RiskLevel(2000000.0, Finite(5000000.0), "rgb(249,134,0)", "2M - 5M"),
    RiskLevel(5000000.0, Finite(10000000.0), "rgb(255,97,3)", "5M - 10M"),
    RiskLevel(10000000.0, Infinity, "rgb(255,69,0)", "10M+")
  ]

  /** Losses below this get the no-risk colour. */
  const NoRiskBelow: real := 1000.0

  /** White, for very low or no risk. */
  const NoRiskColor: string := "rgb(255,255,255)"

  // ---------------------------------------------------------------------------
  // The shape of a scale

  /**
   * A scale that covers `[scale[0].min, Infinity)` without gaps or overlaps:
   * every range is non-empty, each ends where the next begins, and only the
   * last one is unbounded.
   */
  predicate WellFormed(scale: seq<RiskLevel>) {
    && |scale| > 0
    && (forall i :: 0 <= i < |scale| - 1 ==> scale[i].max == Finite(scale[i + 1].min))
    && (forall i :: 0 <= i < |scale| ==> scale[i].max.Finite? ==> scale[i].min < scale[i].max.value)
    && scale[|scale| - 1].max == Infinity
  }

  lemma RiskColorScaleWellFormed()
    ensures WellFormed(RiskColorScale)
    ensures |RiskColorScale| == 11 && RiskColorScale[0].min == NoRiskBelow
    ensures forall i :: 0 <= i < |RiskColorScale| - 1 ==> RiskColorScale[i].max.Finite?
  {
  }

  /** The lower bounds of a well-formed scale ascend strictly. */
  lemma {:induction false} MinsAscend(scale: seq<RiskLevel>, i: nat, j: nat)
    requires WellFormed(scale) && i < j < |scale|
    ensures scale[i].max.Finite? && scale[i].max.value <= scale[j].min
    ensures scale[i].min < scale[j].min
    decreases j - i
  {
    assert scale[i].max == Finite(scale[i + 1].min);
    if i + 1 < j {
      MinsAscend(scale, i + 1, j);
      assert scale[i + 1].min < scale[i + 1].max.value;
    }
  }

  /** In a well-formed scale no value lies in two ranges. */
  lemma LevelsDisjoint(scale: seq<RiskLevel>, x: real, i: nat, j: nat)
    requires WellFormed(scale) && i < |scale| && j < |scale|
    requires InLevel(x, scale[i]) && InLevel(x, scale[j])
    ensures i == j
  {
    if i < j {
      MinsAscend(scale, i, j);
    } else if j < i {
      MinsAscend(scale, j, i);
    }
  }

  // ---------------------------------------------------------------------------
  // getColorForLosses

  /** The index the `for...of` scan stops at: the first range that contains `x`. */
  function FirstMatch(scale: seq<RiskLevel>, x: real): (r: Option<nat>)
    ensures r.Some? ==> r.value < |scale| && InLevel(x, scale[r.value])
    ensures r.Some? ==> forall j :: 0 <= j < r.value ==> !InLevel(x, scale[j])
    ensures r.None? ==> forall j :: 0 <= j < |scale| ==> !InLevel(x, scale[j])
  {
    if scale == [] then None
    else if InLevel(x, scale[0]) then Some(0)
    else match FirstMatch(scale[1..], x)
      case Some(i) => Some(i + 1)
      case None => None
  }

  /** Every value from the bottom of a well-formed scale up lies in some range. */
  lemma {:induction false} WellFormedCovers(scale: seq<RiskLevel>, x: real)
    requires WellFormed(scale) && scale[0].min <= x
    ensures FirstMatch(scale, x).Some?
  {
    if !InLevel(x, scale[0]) {
      var rest := scale[1..];
      assert WellFormed(rest) by {
        assert forall i :: 0 <= i < |rest| ==> rest[i] == scale[i + 1];
      }
      WellFormedCovers(rest, x);
    }
  }

  /**
   * The colour `getColorForLosses` returns: white below 1000, otherwise the
   * colour of the first range containing `losses`, and the last colour if none does.
   */
  function ColorForLosses(losses: real): string {
    if losses < NoRiskBelow then NoRiskColor
    else match FirstMatch(RiskColorScale, losses)
      case Some(i) => RiskColorScale[i].color
      case None => RiskColorScale[|RiskColorScale| - 1].color
  }

  /** The linear scan with early return, as the source runs it. */
  method GetColorForLosses(losses: real) returns (color: string)
    ensures color == ColorForLosses(losses)
  {
    if losses < NoRiskBelow {
      return NoRiskColor;
    }
    var k := 0;
    while k < |RiskColorScale|
      invariant 0 <= k <= |RiskColorScale|
      invariant forall j :: 0 <= j < k ==> !InLevel(losses, RiskColorScale[j])
    {
      var level := RiskColorScale[k];
      if losses >= level.min && BelowLimit(losses, level.max) {
        return level.color;
      }
      k := k + 1;
    }
    // Not reached for any real loss value (see WellFormedCovers), kept as the source has it.
    return RiskColorScale[|RiskColorScale| - 1].color;
  }

  /** Below 1000 the colour is white. */
  lemma NoRiskIsWhite(losses: real)
    requires losses < NoRiskBelow
    ensures ColorForLosses(losses) == "rgb(255,255,255)"
  {
  }

  /**
   * From 1000 up, exactly one range contains `losses` (lower bound inclusive,
   * upper bound exclusive), and the colour is that range's.
   */
  lemma ColorOfUniqueLevel(losses: real)
    requires NoRiskBelow <= losses
    ensures exists i :: 0 <= i < |RiskColorScale| && InLevel(losses, RiskColorScale[i])
    ensures forall i :: 0 <= i < |RiskColorScale| && InLevel(losses, RiskColorScale[i]) ==>
      ColorForLosses(losses) == RiskColorScale[i].color
  {
    RiskColorScaleWellFormed();
    WellFormedCovers(RiskColorScale, losses);
    var k := FirstMatch(RiskColorScale, losses).value;
    forall i | 0 <= i < |RiskColorScale| && InLevel(losses, RiskColorScale[i])
      ensures ColorForLosses(losses) == RiskColorScale[i].color
    {
      LevelsDisjoint(RiskColorScale, losses, i, k);
    }
  }

  /** The range index grows with the losses. */
  lemma {:induction false} LevelIndexMonotone(scale: seq<RiskLevel>, a: real, b: real)
    requires WellFormed(scale) && scale[0].min <= a <= b
    ensures FirstMatch(scale, a).Some? && FirstMatch(scale, b).Some?
    ensures FirstMatch(scale, a).value <= FirstMatch(scale, b).value
  {
    WellFormedCovers(scale, a);
    WellFormedCovers(scale, b);
    var i, j := FirstMatch(scale, a).value, FirstMatch(scale, b).value;
    if j < i {
      MinsAscend(scale, j, i);
    }
  }

  lemma RiskLevelIndexMonotone(a: real, b: real)
    requires NoRiskBelow <= a <= b
    ensures FirstMatch(RiskColorScale, a).Some? && FirstMatch(RiskColorScale, b).Some?
    ensures FirstMatch(RiskColorScale, a).value <= FirstMatch(RiskColorScale, b).value
  {
    RiskColorScaleWellFormed();
    LevelIndexMonotone(RiskColorScale, a, b);
  }

  /** From ten million up, the colour is the top one. */
  lemma TopLevelColor(losses: real)
    requires 10000000.0 <= losses
    ensures ColorForLosses(losses) == "rgb(255,69,0)"
  {
    ColorOfUniqueLevel(losses);
    assert InLevel(losses, RiskColorScale[10]);
  }

  /** Boundary values: each belongs to the range it starts. */
  lemma BoundaryExamples()
    ensures ColorForLosses(500.0) == "rgb(255,255,255)"
    ensures ColorForLosses(999.999) == "rgb(255,255,255)"
    ensures ColorForLosses(1000.0) == "rgb(240,248,255)"
    ensures ColorForLosses(5000.0) == "rgb(250,252,243)"
    ensures ColorForLosses(7500.0) == "rgb(250,252,243)"
    ensures ColorForLosses(1000000.0) == "rgb(249,168,14)"
    ensures ColorForLosses(12000000.0) == "rgb(255,69,0)"
  {
    ColorOfUniqueLevel(1000.0);
    assert InLevel(1000.0, RiskColorScale[0]);
    ColorOfUniqueLevel(5000.0);
    assert InLevel(5000.0, RiskColorScale[1]);
    ColorOfUniqueLevel(7500.0);
    assert InLevel(7500.0, RiskColorScale[1]);
    ColorOfUniqueLevel(1000000.0);
    assert InLevel(1000000.0, RiskColorScale[7]);
    TopLevelColor(12000000.0);
  }

  // ---------------------------------------------------------------------------
  // getHexColorForLosses, and the side colour Globe3D derives from it

  /** The channels of the scale's colours, in scale order. */
  const ScaleChannels: seq<Rgb> := [
    Rgb(240, 248, 255), Rgb(250, 252, 243), Rgb(139, 210, 206), Rgb(213, 230, 53),
    Rgb(244, 237, 30), Rgb(246, 219, 30), Rgb(249, 201, 29), Rgb(249, 168, 14),
    Rgb(249, 134, 0), Rgb(255, 97, 3), Rgb(255, 69, 0)
  ]

  /** The colour strings of the scale are well-formed and read back as `ScaleChannels`. */
  lemma ScaleColorParses(i: nat)
    requires i < |RiskColorScale|
    ensures ParseRgb(RiskColorScale[i].color) == Some(ScaleChannels[i])
  {
    if i == 0 {
      LevelText0();
    } else if i == 1 {
      LevelText1();
    } else if i == 2 {
      LevelText2();
    } else if i == 3 {
      LevelText3();
    } else if i == 4 {
      LevelText4();
    } else if i == 5 {
      LevelText5();
    } else if i == 6 {
      LevelText6();
    } else if i == 7 {
      LevelText7();
    } else if i == 8 {
      LevelText8();
    } else if i == 9 {
      LevelText9();
    } else {
      LevelText10();
    }
    PlainTextParses(RiskColorScale[i].color, ScaleChannels[i]);
  }

  /** Every channel of the scale's colours fits in a byte. */
  lemma ScaleChannelsAreBytes(i: nat)
    requires i < |ScaleChannels|
    ensures IsByteColor(ScaleChannels[i])
  {
  }

  // One lemma per colour of the scale: each keeps its string literals in a proof of its own.

  lemma LevelText0()
    ensures PlainText(RiskColorScale[0].color, ScaleChannels[0])
  {
    ShortDecimal("240"); ShortDecimal("248"); ShortDecimal("255");
    PlainTextOf(RiskColorScale[0].color, "240", "248", "255", ScaleChannels[0]);
  }

  lemma LevelText1()
    ensures PlainText(RiskColorScale[1].color, ScaleChannels[1])
  {
    ShortDecimal("250"); ShortDecimal("252"); ShortDecimal("243");
    PlainTextOf(RiskColorScale[1].color, "250", "252", "243", ScaleChannels[1]);
  }

  lemma LevelText2()
    ensures PlainText(RiskColorScale[2].color, ScaleChannels[2])
  {
    ShortDecimal("139"); ShortDecimal("210"); ShortDecimal("206");
    PlainTextOf(RiskColorScale[2].color, "139", "210", "206", ScaleChannels[2]);
  }

  lemma LevelText3()
    ensures PlainText(RiskColorScale[3].color, ScaleChannels[3])
  {
    ShortDecimal("213"); ShortDecimal("230"); ShortDecimal("53");
    PlainTextOf(RiskColorScale[3].color, "213", "230", "53", ScaleChannels[3]);
  }

  lemma LevelText4()
    ensures PlainText(RiskColorScale[4].color, ScaleChannels[4])
  {
    ShortDecimal("244"); ShortDecimal("237"); ShortDecimal("30");
    PlainTextOf(RiskColorScale[4].color, "244", "237", "30", ScaleChannels[4]);
  }

  lemma LevelText5()
    ensures PlainText(RiskColorScale[5].color, ScaleChannels[5])
  {
    ShortDecimal("246"); ShortDecimal("219"); ShortDecimal("30");
    PlainTextOf(RiskColorScale[5].color, "246", "219", "30", ScaleChannels[5]);
  }

  lemma LevelText6()
    ensures PlainText(RiskColorScale[6].color, ScaleChannels[6])
  {
    ShortDecimal("249"); ShortDecimal("201"); ShortDecimal("29");
    PlainTextOf(RiskColorScale[6].color, "249", "201", "29", ScaleChannels[6]);
  }

  lemma LevelText7()
    ensures PlainText(RiskColorScale[7].color, ScaleChannels[7])
  {
    ShortDecimal("249"); ShortDecimal("168"); ShortDecimal("14");
    PlainTextOf(RiskColorScale[7].color, "249", "168", "14", ScaleChannels[7]);
  }

  lemma LevelText8()
    ensures PlainText(RiskColorScale[8].color, ScaleChannels[8])
  {
    ShortDecimal("249"); ShortDecimal("134"); ShortDecimal("0");
    PlainTextOf(RiskColorScale[8].color, "249", "134", "0", ScaleChannels[8]);
  }

  lemma LevelText9()
    ensures PlainText(RiskColorScale[9].color, ScaleChannels[9])
  {
    ShortDecimal("255"); ShortDecimal("97"); ShortDecimal("3");
    PlainTextOf(RiskColorScale[9].color, "255", "97", "3", ScaleChannels[9]);
  }

  lemma LevelText10()
    ensures PlainText(RiskColorScale[10].color, ScaleChannels[10])
  {
    ShortDecimal("255"); ShortDecimal("69"); ShortDecimal("0");
    PlainTextOf(RiskColorScale[10].color, "255", "69", "0", ScaleChannels[10]);
  }

  lemma NoRiskColorParses()
    ensures ParseRgb(NoRiskColor) == Some(Rgb(255, 255, 255))
  {
    ShortDecimal("255");
    PlainTextOf(NoRiskColor, "255", "255", "255", Rgb(255, 255, 255));
    PlainTextParses(NoRiskColor, Rgb(255, 255, 255));
  }

  /** `getHexColorForLosses`. */
  function GetHexColorForLosses(losses: real): string {
    RgbToHex(ColorForLosses(losses))
  }

  /** The colour for any losses is a valid `#rrggbb`, reading back as the channels of its `rgb(...)` form. */
  lemma HexColorForLossesIsHex(losses: real)
    ensures IsHexColor(GetHexColorForLosses(losses))
    ensures HexToRgb(GetHexColorForLosses(losses)) == ParseRgb(ColorForLosses(losses))
  {
    var color := ColorForLosses(losses);
    if losses < NoRiskBelow {
      NoRiskColorParses();
    } else {
      var i := match FirstMatch(RiskColorScale, losses) case Some(k) => k case None => |RiskColorScale| - 1;
      assert color == RiskColorScale[i].color;
      ScaleColorParses(i);
      ScaleChannelsAreBytes(i);
    }
    RgbToHexOfMatch(color);
  }

  /** The side-face colour of a hexagon: the top colour with the alpha pair "80" appended. */
  function HexSideColor(losses: real): string {
    GetHexColorForLosses(losses) + "80"
  }

  /** The side colour is always nine characters, `#rrggbbaa` with alpha 0x80 = 128. */
  lemma HexSideColorForm(losses: real)
    ensures |HexSideColor(losses)| == 9
    ensures HexSideColor(losses)[..7] == GetHexColorForLosses(losses)
    ensures AllRadixDigits(HexSideColor(losses)[7..], 16) && ValueOf(HexSideColor(losses)[7..], 16) == 128
  {
    HexColorForLossesIsHex(losses);
    var h := HexSideColor(losses);
    assert h[7..] == "80";
    AlphaValue();
  }

  lemma AlphaValue()
    ensures AllRadixDigits("80", 16) && ValueOf("80", 16) == 128
  {
    assert "80"[..1] == "8" && "8"[..0] == "";
  }

  /** Within a range of the scale, the `#rrggbb` colour is that range's channels in hex. */
  lemma HexColorOfLevel(losses: real, i: nat)
    requires NoRiskBelow <= losses && i < |RiskColorScale| && InLevel(losses, RiskColorScale[i])
    ensures GetHexColorForLosses(losses) == HexOf(ScaleChannels[i])
    ensures HexToRgb(GetHexColorForLosses(losses)) == Some(ScaleChannels[i])
  {
    ColorOfUniqueLevel(losses);
    ScaleColorParses(i);
    HexColorForLossesIsHex(losses);
  }

  /** Below 1000 the hexagon is white. */
  lemma NoRiskHexColor(losses: real)
    requires losses < NoRiskBelow
    ensures HexToRgb(GetHexColorForLosses(losses)) == Some(Rgb(255, 255, 255))
  {
    HexColorForLossesIsHex(losses);
    NoRiskColorParses();
  }

  /** From 5000 up to 10000 the hexagon has the channels of `rgb(250,252,243)`. */
  lemma SecondLevelHexColor(losses: real)
    requires 5000.0 <= losses < 10000.0
    ensures HexToRgb(GetHexColorForLosses(losses)) == Some(Rgb(250, 252, 243))
  {
    HexColorOfLevel(losses, 1);
    assert ScaleChannels[1] == Rgb(250, 252, 243);
  }

  /** From ten million up the hexagon has the channels of `rgb(255,69,0)`. */
  lemma TopHexColor(losses: real)
    requires 10000000.0 <= losses
    ensures HexToRgb(GetHexColorForLosses(losses)) == Some(Rgb(255, 69, 0))
  {
    HexColorOfLevel(losses, 10);
    assert ScaleChannels[10] == Rgb(255, 69, 0);
  }
}
