/**
  The analysis settings and the control panel of
  `components/control-panel.tsx`: the three settings, the options the panel
  offers for each, the per-field setters, the generate button's disabled
  condition and the image-count badge.

  The temperature is a slider from 0 to 1 in steps of 0.1; it is kept here
  as a whole number of tenths (0 to 10). Focus and processing stay strings,
  as in the `AnalysisSettings` record, because the prompt generator compares
  them as strings.
 */
module ControlPanel {
  import opened Strings

  /** `AnalysisSettings`, with `temperature` in tenths. */
  datatype AnalysisSettings = AnalysisSettings(temperature: nat, analysisFocus: string, processingOption: string)

  const MaxTemperature: nat := 10

  const FocusOptions: seq<string> := ["web", "mobile", "desktop", "ui", "landing"]
  const ProcessingOptions: seq<string> := ["standard", "enhanced", "expert"]

  /** The panel's starting settings: 0.7, "web", "standard". */
  const InitialSettings: AnalysisSettings := AnalysisSettings(7, "web", "standard")

  /** Settings the panel's own controls can produce. */
  predicate Offered(s: AnalysisSettings) {
    s.temperature <= MaxTemperature && s.analysisFocus in FocusOptions && s.processingOption in ProcessingOptions
  }

  /** The initial settings are among those the controls offer. */
  lemma InitialOffered()
    ensures Offered(InitialSettings)
    ensures InitialSettings.temperature == 7
    ensures InitialSettings.analysisFocus == FocusOptions[0]
    ensures InitialSettings.processingOption == ProcessingOptions[0]
  {
  }

  /** The focus select's `onValueChange`. */
  function ChooseFocus(s: AnalysisSettings, value: string): (r: AnalysisSettings)
    ensures r.analysisFocus == value
    ensures r.temperature == s.temperature && r.processingOption == s.processingOption
  {
    s.(analysisFocus := value)
  }

  /** The slider's `onValueChange`; the slider only produces values from 0 to 1. */
  function ChooseTemperature(s: AnalysisSettings, tenths: nat): (r: AnalysisSettings)
    requires tenths <= MaxTemperature
    ensures r.temperature == tenths
    ensures r.analysisFocus == s.analysisFocus && r.processingOption == s.processingOption
  {
    s.(temperature := tenths)
  }

  /** A processing tile's `onClick`. */
  function ChooseProcessing(s: AnalysisSettings, value: string): (r: AnalysisSettings)
    ensures r.processingOption == value
    ensures r.temperature == s.temperature && r.analysisFocus == s.analysisFocus
  {
    s.(processingOption := value)
  }

  /** One interaction with the panel: a listed focus, a slider position or a listed processing tile. */
  datatype Choice = Focus(focusIndex: nat) | Temperature(tenths: nat) | Processing(processingIndex: nat)

  predicate ValidChoice(c: Choice) {
    match c
    case Focus(k) => k < |FocusOptions|
    case Temperature(t) => t <= MaxTemperature
    case Processing(k) => k < |ProcessingOptions|
  }

  function Apply(s: AnalysisSettings, c: Choice): AnalysisSettings
    requires ValidChoice(c)
  {
    match c
    case Focus(k) => ChooseFocus(s, FocusOptions[k])
    case Temperature(t) => ChooseTemperature(s, t)
    case Processing(k) => ChooseProcessing(s, ProcessingOptions[k])
  }

  function ApplyAll(s: AnalysisSettings, cs: seq<Choice>): AnalysisSettings
    requires forall k :: 0 <= k < |cs| ==> ValidChoice(cs[k])
    decreases |cs|
  {
    if |cs| == 0 then s else ApplyAll(Apply(s, cs[0]), cs[1..])
  }

  /** Whatever the user does with the panel, the settings stay among the offered ones. */
  lemma {:induction false} ChoicesStayOffered(s: AnalysisSettings, cs: seq<Choice>)
    requires Offered(s)
    requires forall k :: 0 <= k < |cs| ==> ValidChoice(cs[k])
    ensures Offered(ApplyAll(s, cs))
    decreases |cs|
  {
    if |cs| > 0 {
      ChoicesStayOffered(Apply(s, cs[0]), cs[1..]);
    }
  }

  /** The generate button is disabled while generating or when there is nothing to analyse. */
  function GenerateDisabled(isGenerating: bool, hasImages: bool): (disabled: bool)
    ensures !disabled <==> !isGenerating && hasImages
  {
    isGenerating || !hasImages
  }

  /** The badge text, shown only when there are images; "image" in the singular only for one. */
  function Badge(hasImages: bool, imageCount: nat): (r: Option<string>)
    ensures r.Some? <==> hasImages
    ensures r.Some? && imageCount == 1 ==> r.value == "1 image selected"
    ensures r.Some? && imageCount != 1 ==> r.value == NatToString(imageCount) + " images selected"
  {
    if !hasImages then None
    else Some(NatToString(imageCount) + " " + (if imageCount == 1 then "image" else "images") + " selected")
  }
}
