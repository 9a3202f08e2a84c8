# Seismic-risk globe: a Dafny model of its core

The globe app draws hexagons for earthquake losses on a 3D globe. It colours each hexagon with a graduated
risk scale and opens a resizable profile panel for a clicked country. Metric tabs above the globe choose
which metric is shown. This project models the app's core and proves what the code promises about it:

- **Colour scale** (`ColorMapping`, `RgbColor`, `JsText`). It covers:
  - the eleven loss ranges;
  - white below 1000;
  - the first-match scan of `getColorForLosses`;
  - the unanchored `rgb(...)` pattern of `rgbToHex`, with `parseInt`, `toString(16)` and `padStart(2, '0')`;
  - `getHexColorForLosses`;
  - the translucent side colour the globe derives by appending `"80"`.
- **Country names** (`CountryMapping`). It covers:
  - `normalizeCountryName`: every maximal run of whitespace becomes one `_`, then the alias table
    `specialCases[n] || n` applies;
  - the profile image path;
  - `hasCountryProfile`;
  - the African country list of `regions`.
- **Metric tabs** (`MetricTabs`). These are `activeTab` and `cardVisible` with `handleTabClick`. The pure
  transition `Click` gives the new state and the metric reported to `onMetricChange`.
  `MetricTabsView` is the component as a class, and its method is proved equal to `Click`.
- **Dashboard** (`Dashboard`). It covers:
  - the selected country;
  - the panel size;
  - the refs shared by the resize handlers (dragging the lower-left corner, clamped to 300–800 pixels wide
    and to 300 pixels up to the window height less 64).

  `Step` is the pure transition per event. `DashboardView` holds the component's state as fields, with one
  method per handler, each proved equal to `Step`.

Loss values are `real`. `Infinity` as the top range's upper end is the `Limit` constructor `Infinity`.
Strings are sequences of code points. Mouse coordinates and `window.innerHeight` are integers, passed as
parameters.

## Model

| member | source | states |
|---|---|---|
| ColorMapping.RiskColorScale | globe-app/utils/colorMapping.ts:14-26 | `riskColorScale`: the eleven ranges with their bounds, `rgb(...)` colours and labels, in the source's order |
| ColorMapping.InLevel | globe-app/utils/colorMapping.ts:39 | `losses >= level.min && losses < level.max`, with an `Infinity` upper bound always above |
| ColorMapping.RiskColorScaleWellFormed | globe-app/utils/colorMapping.ts:14-26 | the scale has eleven ranges starting at 1000; each range is non-empty and ends where the next begins; only the last is unbounded |
| ColorMapping.MinsAscend | globe-app/utils/colorMapping.ts:14-26 | in a well-formed scale the lower bounds ascend strictly, and each range ends at or below every later lower bound |
| ColorMapping.LevelsDisjoint | globe-app/utils/colorMapping.ts:14-26 | no loss value lies in two ranges of a well-formed scale (`min` inclusive, `max` exclusive) |
| ColorMapping.FirstMatch | globe-app/utils/colorMapping.ts:38-42 | the index the scan stops at is a range containing the value, and no earlier range contains it; no index means no range does |
| ColorMapping.WellFormedCovers | globe-app/utils/colorMapping.ts:38-45 | every value from the bottom of a well-formed scale up lies in some range, so for every real (finite) loss value the fallback return is not reached |
| ColorMapping.ColorForLosses | globe-app/utils/colorMapping.ts:33-46 | `getColorForLosses` as a value: white below 1000, else the colour of the first range containing the losses, else the last colour; `GetColorForLosses` computes it and the lemmas below state its properties |
| ColorMapping.GetColorForLosses | globe-app/utils/colorMapping.ts:33-46 | the early-return loop returns white below 1000, else the colour of the first range containing the losses, else the last colour |
| ColorMapping.NoRiskIsWhite | globe-app/utils/colorMapping.ts:34-36 | losses below 1000 give `rgb(255,255,255)` |
| ColorMapping.ColorOfUniqueLevel | globe-app/utils/colorMapping.ts:38-42 | from 1000 up exactly one range contains the losses, and the colour is that range's |
| ColorMapping.LevelIndexMonotone | globe-app/utils/colorMapping.ts:38-42 | in a well-formed scale, larger losses never fall in an earlier range |
| ColorMapping.RiskLevelIndexMonotone | globe-app/utils/colorMapping.ts:14-42 | the same for the app's scale: the risk class grows with the losses |
| ColorMapping.TopLevelColor | globe-app/utils/colorMapping.ts:25 | from ten million up the colour is `rgb(255,69,0)` |
| ColorMapping.BoundaryExamples | globe-app/utils/colorMapping.ts:15-42 | 500 and 999.999 are white; 1000, 5000, 7500, 1000000 and 12000000 get the colours of the ranges that start at or contain them |
| ColorMapping.ScaleColorParses | globe-app/utils/colorMapping.ts:15-25 | each colour string of the scale matches the `rgb(...)` pattern and reads back as its three channels |
| ColorMapping.ScaleChannelsAreBytes | globe-app/utils/colorMapping.ts:15-25 | every channel of the scale's colours is below 256 |
| ColorMapping.NoRiskColorParses | globe-app/utils/colorMapping.ts:35 | the white colour string reads back as channels 255, 255, 255 |
| ColorMapping.GetHexColorForLosses | globe-app/utils/colorMapping.ts:68-70 | `getHexColorForLosses`: `rgbToHex` of the colour for the losses |
| ColorMapping.HexColorForLossesIsHex | globe-app/utils/colorMapping.ts:68-70 | for every loss value the hex colour is `#` and six lower-case hex digits, and those digits read back as the channels of the `rgb(...)` colour |
| ColorMapping.HexColorOfLevel | globe-app/utils/colorMapping.ts:68-70 | within a range the hex colour is that range's channels written in hex, and it reads back as them |
| ColorMapping.NoRiskHexColor | globe-app/utils/colorMapping.ts:68-70 | below 1000 the hex colour reads back as white |
| ColorMapping.SecondLevelHexColor | globe-app/utils/colorMapping.ts:68-70 | from 5000 up to 10000 the hex colour reads back as (250, 252, 243) |
| ColorMapping.TopHexColor | globe-app/utils/colorMapping.ts:68-70 | from ten million up the hex colour reads back as (255, 69, 0) |
| ColorMapping.HexSideColor | globe-app/components/Globe3D.tsx:154-158 | the `hexSideColor` callback: the hex colour for the summed losses with `"80"` appended |
| ColorMapping.HexSideColorForm | globe-app/components/Globe3D.tsx:154-158 | the side colour has nine characters: the top colour, then an alpha pair worth 128 |
| RgbColor.RgbToHex | globe-app/utils/colorMapping.ts:53-61 | `rgbToHex`: `#000000` when the pattern matches nowhere, otherwise `#` and the three captured channels in hex |
| RgbColor.ParseRgb | globe-app/utils/colorMapping.ts:54 | `rgb.match(...)` with its three groups read by `parseInt`: the leftmost match, or none |
| RgbColor.SearchFrom | globe-app/utils/colorMapping.ts:54 | the scan for a match trying each position from a given one on, in order |
| RgbColor.MatchPrefix | globe-app/utils/colorMapping.ts:54 | the pattern anchored at one position: `rgb(`, a digit group and `,`, optional whitespace, a group and `,`, optional whitespace, a group and `)` |
| RgbColor.HexChannel | globe-app/utils/colorMapping.ts:59 | one channel: `parseInt(x).toString(16).padStart(2, '0')` |
| RgbColor.HexOf | globe-app/utils/colorMapping.ts:57-60 | `'#'` followed by the three channels joined without separator |
| JsText.IsDigit | globe-app/utils/colorMapping.ts:54 | `\d`: the ASCII digits `0` to `9` |
| JsText.IsWhitespace | globe-app/utils/colorMapping.ts:54 | `\s`: the ECMAScript WhiteSpace and LineTerminator code points (also used by the replacement at countryMapping.ts:14) |
| JsText.ValueOf | globe-app/utils/colorMapping.ts:59 | `parseInt(x)` of a digit group: its value, most significant digit first |
| RgbColor.DigitRun | globe-app/utils/colorMapping.ts:54 | the length of the longest run of `\d` at the front of a string |
| RgbColor.Field | globe-app/utils/colorMapping.ts:54 | a captured `(\d+)` group and its delimiter, when present, leave a strictly shorter rest |
| RgbColor.SearchFromLeftmost | globe-app/utils/colorMapping.ts:54 | the search returns the match at the leftmost position where the pattern matches, and nothing exactly when it matches nowhere |
| RgbColor.NoPatternIsBlack | globe-app/utils/colorMapping.ts:55 | a string in which `rgb(` occurs nowhere converts to `#000000` |
| RgbColor.RgbToHexNoMatchExample | globe-app/utils/colorMapping.ts:55 | `"no colour"` converts to `#000000` |
| RgbColor.ParseRgbText | globe-app/utils/colorMapping.ts:54 | every string of the form `rgb(d,w d,w d)` (non-empty digit groups, any whitespace after the commas) matches, capturing the groups' decimal values |
| RgbColor.ParseFormatRgb | globe-app/utils/colorMapping.ts:54 | writing three channels in decimal in that form and matching it gives the channels back |
| RgbColor.HexToRgb | globe-app/utils/colorMapping.ts:57-60 | reading a `#rrggbb` string back gives channels below 256 |
| RgbColor.HexChannelOfByte | globe-app/utils/colorMapping.ts:59 | a channel below 256 is written as the digit of its sixteens, then the digit of its units |
| RgbColor.HexChannelDigits | globe-app/utils/colorMapping.ts:59 | a channel is written with exactly two hex digits iff it is below 256, and those digits read back as the channel |
| RgbColor.HexOfForm | globe-app/utils/colorMapping.ts:57-60 | the joined result has the `#rrggbb` form, and length seven, iff every channel is below 256 |
| RgbColor.HexRoundTrip | globe-app/utils/colorMapping.ts:57-60 | each byte colour written in `#rrggbb` form reads back as itself |
| RgbColor.RgbToHexOfMatch | globe-app/utils/colorMapping.ts:53-61 | for a matching string with byte channels, the result is `#rrggbb` and reads back as the captured channels; with a larger channel the result is longer than seven characters |
| JsText.ToRadix | globe-app/utils/colorMapping.ts:59 | `toString(radix)` writes at least one digit, each a digit of the radix |
| JsText.ToRadixValue | globe-app/utils/colorMapping.ts:59 | reading `toString(radix)`'s digits back gives the number |
| JsText.ToRadixLeadingDigit | globe-app/utils/colorMapping.ts:59 | the first digit is `0` only for zero: there are no leading zeros |
| JsText.HexDigitCount | globe-app/utils/colorMapping.ts:59 | `toString(16)` writes at most two digits iff the number is below 256 |
| JsText.PadStart | globe-app/utils/colorMapping.ts:59 | `padStart(width, pad)` is as long as `width` or `s`, whichever is longer, ends with `s` and is `pad` before it |
| CountryMapping.CollapseWhitespace | globe-app/utils/countryMapping.ts:14 | `replace(/\s+/g, '_')`: each maximal run of whitespace replaced by one `_` |
| CountryMapping.SpecialCases | globe-app/utils/countryMapping.ts:17-27 | `specialCases`: the nine keys and values as written, the Ivory Coast key as the characters U+00C3 U+00B4 |
| CountryMapping.IsAliased | globe-app/utils/countryMapping.ts:29 | `specialCases[normalized]` is truthy: the key is present and its value is not empty |
| CountryMapping.NormalizeCountryName | globe-app/utils/countryMapping.ts:12-30 | `normalizeCountryName`: the underscored name, replaced by its alias when it is a key with a non-empty value |
| JsText.SkipWhitespace | globe-app/utils/countryMapping.ts:14 | what follows the leading whitespace run: a suffix, everything before it is whitespace, and it starts with a non-space; also the `\s*` of the colour pattern |
| CountryMapping.CollapseLength | globe-app/utils/countryMapping.ts:14 | the replacement never lengthens a name, and is empty iff the name is |
| CountryMapping.CollapseHasNoWhitespace | globe-app/utils/countryMapping.ts:14 | no `\s` character survives the replacement |
| CountryMapping.CollapseFixed | globe-app/utils/countryMapping.ts:14 | a name without whitespace is unchanged |
| CountryMapping.CollapseAppend | globe-app/utils/countryMapping.ts:14 | the replacement works piecewise across a cut that follows a non-space |
| CountryMapping.CollapseRun | globe-app/utils/countryMapping.ts:14 | a maximal whitespace run in front of a word becomes a single `_` |
| CountryMapping.MaximalRun | globe-app/utils/countryMapping.ts:14 | a maximal whitespace run in the middle of a name becomes one `_` between the collapsed parts on either side |
| CountryMapping.SpaceAfterWord | globe-app/utils/countryMapping.ts:14 | a word followed by one space and a word: the space becomes `_` and the word is kept |
| CountryMapping.AliasValuesAreWords | globe-app/utils/countryMapping.ts:17-27 | every alias value is non-empty and has no whitespace |
| CountryMapping.AliasValuesSettled | globe-app/utils/countryMapping.ts:17-27 | an alias value is itself a key only for `Czechia`, which maps to itself |
| CountryMapping.NormalizeCases | globe-app/utils/countryMapping.ts:12-30 | an underscored name that is a key gives the table's value; any other is returned as it is |
| CountryMapping.NormalizeResult | globe-app/utils/countryMapping.ts:12-30 | the result is an alias value, or it has no whitespace and is not a key |
| CountryMapping.NormalizeFixedPoint | globe-app/utils/countryMapping.ts:12-30 | a name with no whitespace that is not a key normalises to itself |
| CountryMapping.NormalizeIdempotent | globe-app/utils/countryMapping.ts:12-30 | normalising twice is normalising once |
| CountryMapping.UnitedStatesDocExample | globe-app/utils/countryMapping.ts:9-10 | `"United States"` normalises to `"United_States"` |
| CountryMapping.UnitedStatesExample | globe-app/utils/countryMapping.ts:18 | `"United States of America"` normalises to `"United_States"` |
| CountryMapping.CzechRepublicExample | globe-app/utils/countryMapping.ts:26 | `"Czech Republic"` normalises to `"Czechia"` |
| CountryMapping.CoteDIvoireUnaliased | globe-app/utils/countryMapping.ts:24 | the correctly encoded `"Côte d'Ivoire"` matches no key and becomes `"Côte_d'Ivoire"` |
| CountryMapping.IvoryCoastOnlyFromMisencodedKey | globe-app/utils/countryMapping.ts:24 | a name normalises to `Ivory_Coast` iff its underscored form is the table's mis-encoded key or `Ivory_Coast` itself |
| CountryMapping.GetCountryProfilePath | globe-app/utils/countryMapping.ts:37-40 | the path is `/country-profiles/country_profile_`, then the normalised name, then `.png` |
| CountryMapping.ProfileNameOf | globe-app/utils/countryMapping.ts:37-40 | the country part of a profile path is never longer than the path |
| CountryMapping.ProfilePathRoundTrip | globe-app/utils/countryMapping.ts:37-40 | the country part of a name's profile path is its normalised name |
| CountryMapping.ProfilePathInjective | globe-app/utils/countryMapping.ts:37-40 | two names share a profile path iff they normalise alike |
| CountryMapping.HasCountryProfile | globe-app/utils/countryMapping.ts:66-71 | `hasCountryProfile`: the normalised name is non-empty |
| CountryMapping.HasProfileIffNonEmpty | globe-app/utils/countryMapping.ts:66-71 | a name has a profile iff its normal form is non-empty, iff the name is non-empty |
| CountryMapping.BlankNameHasProfile | globe-app/utils/countryMapping.ts:66-71 | a non-empty name made only of whitespace normalises to `_` and so counts as having a profile |
| CountryMapping.BlankNameExamples | globe-app/utils/countryMapping.ts:66-71 | `""` has no profile; `" "` has one, named `_` |
| CountryMapping.Africa | globe-app/utils/countryMapping.ts:46-57 | `regions.Africa`: the fifty names in the source's order |
| CountryMapping.AfricaIsNormalized | globe-app/utils/countryMapping.ts:46-57 | every name in the African list is its own normal form, so it names its own profile image |
| MetricTabs.Click | globe-app/components/MetricTabs.tsx:31-39 | the clicked tab becomes active; the card is shown after switching tabs and toggled when the active tab is clicked; the callback hears the tab iff it was not the active one |
| MetricTabs.ClickActiveTab | globe-app/components/MetricTabs.tsx:32-33 | clicking the active tab only flips the card and reports nothing |
| MetricTabs.DoubleClickRestores | globe-app/components/MetricTabs.tsx:32-33 | clicking the active tab twice restores the state, and reports nothing |
| MetricTabs.Run | globe-app/components/MetricTabs.tsx:31-39 | a click sequence reports at most one metric per click |
| MetricTabs.RunNotifications | globe-app/components/MetricTabs.tsx:31-39 | the callback never hears the same metric twice in a row; its first metric differs from the starting tab; its last metric is the final active tab, and with no reports the active tab is unchanged |
| MetricTabs.FirstNotificationIsNotLosses | globe-app/components/MetricTabs.tsx:28-39 | from mount, the first metric reported is never losses |
| MetricTabs.RunEndsOnLastClick | globe-app/components/MetricTabs.tsx:31-39 | after any clicks the last tab clicked is active |
| MetricTabs.ShownCards | globe-app/components/MetricTabs.tsx:55-89 | the cards the markup renders: one per `cardVisible && activeTab === ...` condition that holds |
| MetricTabs.ShownCardIsActiveTab | globe-app/components/MetricTabs.tsx:55-89 | the rendered cards are the active tab's alone while the card is visible, and none otherwise |
| MetricTabs.MetricTabsView.constructor | globe-app/components/MetricTabs.tsx:28-29 | the component mounts on losses with its card shown |
| MetricTabs.MetricTabsView.HandleTabClick | globe-app/components/MetricTabs.tsx:31-39 | the new fields and the reported metric are those of `Click` |
| Dashboard.Clamp | globe-app/components/Dashboard.tsx:47-48 | `Math.max(lo, Math.min(hi, v))` is `v` inside `[lo, hi]`, `lo` below it and `hi` above it (or `lo` when `hi < lo`) |
| Dashboard.ClampMonotone | globe-app/components/Dashboard.tsx:47-48 | clamping preserves order |
| Dashboard.ResizedSize | globe-app/components/Dashboard.tsx:44-48 | a move's size is 300 to 800 wide and at least 300 tall; its height is at most the window height less 64, unless that is below 300 |
| Dashboard.ResizedSizeUnclamped | globe-app/components/Dashboard.tsx:44-48 | within the limits the new size is the start size plus the leftward and downward drag |
| Dashboard.ResizedSizeMonotone | globe-app/components/Dashboard.tsx:43-48 | moving the pointer further left never narrows the panel; moving it down never shortens it |
| Dashboard.Step | globe-app/components/Dashboard.tsx:26-57 | one handler's effect on the state and refs: select, clear, start a drag, move (ignored unless dragging), release |
| Dashboard.Run | globe-app/components/Dashboard.tsx:26-57 | the handlers applied to a sequence of events in order |
| Dashboard.PanelShown | globe-app/components/Dashboard.tsx:74 | `{selectedCountry && ...}`: the panel is rendered when a name is selected and is not empty |
| Dashboard.InitialState | globe-app/components/Dashboard.tsx:20-24 | at mount no panel is shown and the size is 400 by 500 within the limits, with no drag under way |
| Dashboard.SelectionSteps | globe-app/components/Dashboard.tsx:26-32 | a click selects the name and shows the panel iff the name is non-empty; closing clears the selection and hides the panel; the size is untouched |
| Dashboard.StepPreservesSize | globe-app/components/Dashboard.tsx:34-57 | each handler keeps the panel within 300–800 by at least 300, and keeps the start size there while a drag is under way |
| Dashboard.RunKeepsSize | globe-app/components/Dashboard.tsx:34-57 | any sequence of events keeps those limits |
| Dashboard.MoveRespectsWindow | globe-app/components/Dashboard.tsx:48 | after a move during a drag the height is at most `max(300, innerHeight - 64)` |
| Dashboard.MoveForgetsEarlierMoves | globe-app/components/Dashboard.tsx:40-51 | a move's effect does not depend on earlier moves of the same drag |
| Dashboard.MovesOnly | globe-app/components/Dashboard.tsx:40-51 | during a drag, a run of moves leaves the size of the last move computed from the drag's start, and changes nothing else |
| Dashboard.MovesAfterUpAreInert | globe-app/components/Dashboard.tsx:41-54 | mouse-up ends the drag without changing the size, and moves after it change nothing |
| Dashboard.DashboardView.constructor | globe-app/components/Dashboard.tsx:20-24 | the fields start as the initial state; `Valid` holds: the panel is within 300–800 by at least 300 |
| Dashboard.DashboardView.HandleCountryClick | globe-app/components/Dashboard.tsx:26-28 | the new fields are `Step` of a country click; `Valid` (the size limits) is kept |
| Dashboard.DashboardView.HandleCloseProfile | globe-app/components/Dashboard.tsx:30-32 | the new fields are `Step` of closing the profile; `Valid` (the size limits) is kept |
| Dashboard.DashboardView.HandleResizeStart | globe-app/components/Dashboard.tsx:34-38 | the new fields are `Step` of a drag start: resizing, the pointer and the current size recorded; `Valid` (the size limits) is kept |
| Dashboard.DashboardView.HandleMouseMove | globe-app/components/Dashboard.tsx:40-51 | the new fields are `Step` of a move: nothing changes unless a drag is under way, else the clamped size; `Valid` (the size limits) is kept |
| Dashboard.DashboardView.HandleMouseUp | globe-app/components/Dashboard.tsx:53-57 | the new fields are `Step` of mouse-up: the drag ends; `Valid` (the size limits) is kept |

## Left out

- The rest of the app is not modelled: Globe3D's rendering and data loading, CountryProfile, RadarChart,
  LoadingScreen, the page and the data scripts. `Globe3D.tsx` is used only for the `"80"` side colour.
- Numbers are exact `real`s (losses) and `int`s (pixels). NaN, floating-point rounding and fractional mouse
  coordinates are not modelled.
- ColorMapping.ColorForLosses: models only real (finite) losses. In the source, `+Infinity` and NaN are not
  below 1000 and lie in no range (`Infinity < Infinity` is false), so they reach the fallback at
  colorMapping.ts:45 and get the top colour; the model has neither value.
- `rgbToHex` works on code points; the JavaScript engine works on UTF-16 code units. These agree for every
  character the pattern reads.
- RgbColor.ParseRgb: `parseInt` of a digit group is modelled as its exact value. In JavaScript, values
  beyond 2^53 lose precision, and a group above `Number.MAX_VALUE` parses to `Infinity`, for which
  `toString(16)` writes `"Infinity"`; the model writes the exact value's hex digits instead.
- RgbColor.HexToRgb is the model's reading-back partner. It accepts only lower-case digits, which is what
  `toString(16)` writes; nothing in the source parses hex.
- The scale's colour strings are related to `#rrggbb` through their channels (`HexToRgb` of the result),
  not as literal hex strings.
- CountryMapping.ProfileNameOf is the model's reading-back partner for the path template; nothing in the
  source parses profile paths.
- `specialCases` lookups of keys that are properties of `Object.prototype` (such as `constructor`) return
  functions in JavaScript. The model's table holds only the nine listed entries, so such names are returned
  unchanged.
- CountryMapping.Africa is written as ten five-name parts joined in order. `regions` has no operation and no
  other region.
- CountryMapping.UnitedStatesExample takes the name as a parameter equal to the literal; this states the
  same fact as a literal argument.
- Dashboard:
  - Listener registration and removal (`addEventListener`/`removeEventListener`) are not modelled, nor
    `preventDefault`. Moves and mouse-up are events that reach the handlers, and the `isResizing` check
    decides whether a move counts. A second drag start before a mouse-up would leave two listener pairs in
    the browser; the model has one set of handlers.
  - `window.innerHeight` is a parameter of each move.
  - The resize handle exists only while the panel is shown. The model lets a drag start in any state, and
    every property above holds regardless.
  - React's deferred state updates and re-renders are not modelled: each handler sees the current state.
    The move handler reads only refs, so this matters only for the `panelSize` captured at a drag's start,
    which the `[panelSize]` dependency keeps current.
- `MetricTabs`: the `setCardVisible(v => !v)` updater is applied at once. Two clicks batched into one render
  are modelled as two successive clicks. The card markup is reduced to which cards are rendered.
