/**
  `generatePrompt` of `lib/prompt-generator.ts`, and the canned
  `mockGeneratePrompt` of `hooks/use-prompt-generator.ts`.

  What the generators take from outside is passed in: the uuid, the creation
  time, the ISO timestamp printed in the trailer, and for each image the
  index of the phrase `getRandomAnalysis` picks. The artificial delay is not
  modelled. A call without project information (`projectInfo` undefined)
  throws when it reads `projectInfo.name`, so the promise rejects: that is
  the `None` result.
 */
module PromptGenerator {
  import opened Strings
  import opened ImageUtils
  import opened ControlPanel
  import ProjectInfo
  import opened PromptTemplate

  const TitlePrefix: string := "# UI Implementation Specification for "
  const OverviewHeading: string := "## Overview"
  const CustomHeading: string := "## Custom Requirements"
  const SummaryHeading: string := "## Image Analysis Summary"
  const ConsolidatedHeading: string := "## Consolidated Requirements"
  const PerformanceHeading: string := "## Performance Optimization"
  const AnimationHeading: string := "## Animation Guidelines"

  const NameFallback: string := "Unnamed Project"
  const AuthorFallback: string := "Anonymous"
  const DescriptionFallback: string := "A web application"

  /** The headings of the eight sections every specification carries. */
  const FixedHeadings: seq<string> := [
    "## Layout Structure", "## Color Palette", "## Typography", "## Component Specifications",
    "## Interactions", "## Responsive Breakpoints", "## Accessibility Requirements", "## Implementation Notes"
  ]

  lemma FixedSectionsHeadings(third: seq<string>)
    ensures Headings(FixedSections(third)) == FixedHeadings
  {
  }

  /** The record `generatePrompt` resolves to. */
  datatype GeneratedPrompt = GeneratedPrompt(id: string, document: Document, createdAt: int, imageIds: seq<string>)

  /** `value || fallback` on a string: the empty string is the only falsy one. */
  function OrDefault(value: string, fallback: string): (r: string)
    ensures value != "" ==> r == value
    ensures value == "" ==> r == fallback
  {
    if value != "" then value else fallback
  }

  /** `images.map((img) => img.id)` */
  function ImageIds(images: seq<UploadedImage>): (r: seq<string>)
    ensures |r| == |images|
    ensures forall k :: 0 <= k < |images| ==> r[k] == images[k].id
  {
    seq(|images|, k requires 0 <= k < |images| => images[k].id)
  }

  /** The mockup phrase of the overview. */
  function ImageText(n: nat): string {
    if n == 1 then "the uploaded mockup" else "the " + NatToString(n) + " uploaded mockups"
  }

  /** The singular phrase is used for exactly one image. */
  lemma ImageTextSingular(n: nat)
    ensures ImageText(n) == "the uploaded mockup" <==> n == 1
    ensures n != 1 ==> StartsWith(ImageText(n), "the " + NatToString(n) + " ")
    ensures n != 1 ==> ImageText(n) == "the " + NatToString(n) + " uploaded mockups"
  {
    if n != 1 {
      assert |ImageText(n)| > |"the uploaded mockup"|;
      assert ImageText(n) == ("the " + NatToString(n) + " ") + "uploaded mockups";
    }
  }

  /**
    `${settings.temperature}` for a slider value of `t` tenths: the whole
    part, then a point and the tenths digit unless that digit is 0.
   */
  function TemperatureText(t: nat): (r: string)
    ensures |r| >= 1
    ensures t == 0 ==> r == "0"
    ensures t == 10 ==> r == "1"
    ensures 0 < t < 10 ==> r == ['0', '.', ('0' as int + t) as char]
  {
    if t % 10 == 0 then NatToString(t / 10)
    else
      assert t < 10 ==> NatToString(t / 10) == "0";
      NatToString(t / 10) + "." + [DigitChar(t % 10)]
  }

  /** A whole temperature prints as its decimal digits, which read back as the number. */
  lemma TemperatureTextWhole(t: nat)
    requires t % 10 == 0
    ensures forall i :: 0 <= i < |TemperatureText(t)| ==> IsDigit(TemperatureText(t)[i])
    ensures DecimalValue(TemperatureText(t)) == t / 10
  {
    NatToStringRoundTrip(t / 10);
  }

  /** The nine phrases of `getRandomAnalysis` that do not mention the focus. */
  const OtherAnalyses: seq<string> := [
    "Displays a navigation structure with dropdown menus",
    "Features a card-based layout with hover effects",
    "Shows form elements with validation states",
    "Demonstrates a responsive grid layout",
    "Illustrates a modal dialog with backdrop blur",
    "Shows a data visualization component",
    "Features a multi-step wizard interface",
    "Displays a notification system with different states",
    "Shows a file upload component with progress indicators"
  ]

  /** Phrase `k` of the ten `getRandomAnalysis` picks from; the first names the focus. */
  function Analysis(focus: string, k: nat): string
    requires k < 10
  {
    if k == 0 then "Shows a clean " + focus + " interface with dark theme and blue accents"
    else OtherAnalyses[k - 1]
  }

  /** `- **Image i**: name - phrase`, numbering from 1. */
  function SummaryLine(position: nat, name: string, phrase: string): string {
    "- **Image " + NatToString(position) + "**: " + name + " - " + phrase
  }

  predicate ValidChoices(choices: seq<nat>, n: nat) {
    |choices| == n && forall k :: 0 <= k < n ==> choices[k] < 10
  }

  /** One summary line per image, in input order. */
  function SummaryLines(images: seq<UploadedImage>, focus: string, choices: seq<nat>): (r: seq<string>)
    requires ValidChoices(choices, |images|)
    ensures |r| == |images|
    ensures forall k :: 0 <= k < |images| ==>
      r[k] == SummaryLine(k + 1, images[k].name, Analysis(focus, choices[k]))
  {
    seq(|images|, k requires 0 <= k < |images| => SummaryLine(k + 1, images[k].name, Analysis(focus, choices[k])))
  }

  function OverviewLine(imageText: string, description: string, author: string): string {
    "Create a modern web application with a dark-themed UI as shown in " + imageText
      + ". The application is " + description + " by " + author + "."
  }

  function ConsolidatedLine(n: nat): string {
    "The following specifications are derived from analyzing all " + NatToString(n) + " images:"
  }

  function TrailerHead(temperature: nat, processing: string): string {
    "Temperature: " + TemperatureText(temperature) + " | Processing: " + processing + " | Generated at: "
  }

  function Trailer(settings: AnalysisSettings, generatedAt: string, n: nat): string {
    TrailerHead(settings.temperature, settings.processingOption) + generatedAt + " | Images: " + NatToString(n)
  }

  predicate IsExpert(settings: AnalysisSettings) {
    settings.processingOption == "expert"
  }

  predicate IsEnhancedOrExpert(settings: AnalysisSettings) {
    settings.processingOption == "enhanced" || settings.processingOption == "expert"
  }

  lemma HeadingsAppend(a: seq<Section>, b: seq<Section>)
    ensures Headings(a + b) == Headings(a) + Headings(b)
  {
  }

  function OverviewSection(n: nat, info: ProjectInfo.Info): (r: Section)
    ensures r.heading == OverviewHeading
  {
    Section(OverviewHeading, [OverviewLine(ImageText(n), OrDefault(info.description, DescriptionFallback),
                                           OrDefault(info.author, AuthorFallback))])
  }

  /** The custom-requirements block, present only for a non-empty custom prompt. */
  function CustomPart(info: ProjectInfo.Info): (r: seq<Section>)
    ensures Headings(r) == if info.customPrompt != "" then [CustomHeading] else []
  {
    if info.customPrompt != "" then [Section(CustomHeading, [info.customPrompt])] else []
  }

  /** The per-image summary and the consolidated-requirements lead-in, present only for several images. */
  function SummaryPart(images: seq<UploadedImage>, focus: string, choices: seq<nat>): (r: seq<Section>)
    requires ValidChoices(choices, |images|)
    ensures Headings(r) == if |images| > 1 then [SummaryHeading, ConsolidatedHeading] else []
  {
    if |images| > 1 then
      [Section(SummaryHeading, SummaryLines(images, focus, choices)),
       Section(ConsolidatedHeading, [ConsolidatedLine(|images|)])]
    else []
  }

  function PerformancePart(settings: AnalysisSettings): (r: seq<Section>)
    ensures Headings(r) == if IsExpert(settings) then [PerformanceHeading] else []
  {
    if IsExpert(settings) then [PerformanceOptimization] else []
  }

  function AnimationPart(settings: AnalysisSettings): (r: seq<Section>)
    ensures Headings(r) == if IsEnhancedOrExpert(settings) then [AnimationHeading] else []
  {
    if IsEnhancedOrExpert(settings) then [AnimationGuidelines] else []
  }

  /** The sections of the specification, in template order. */
  function Sections(images: seq<UploadedImage>, settings: AnalysisSettings, info: ProjectInfo.Info, choices: seq<nat>): seq<Section>
    requires ValidChoices(choices, |images|)
  {
    [OverviewSection(|images|, info)]
    + CustomPart(info)
    + SummaryPart(images, settings.analysisFocus, choices)
    + FixedSections(ImageGallerySpec)
    + PerformancePart(settings)
    + AnimationPart(settings)
  }

  /** The trailer opens with the settings and closes with the image count. */
  lemma TrailerShape(settings: AnalysisSettings, generatedAt: string, n: nat)
    ensures StartsWith(Trailer(settings, generatedAt, n), TrailerHead(settings.temperature, settings.processingOption))
    ensures EndsWith(Trailer(settings, generatedAt, n), " | Images: " + NatToString(n))
  {
    var head := TrailerHead(settings.temperature, settings.processingOption);
    var tail := " | Images: " + NatToString(n);
    var trailer := Trailer(settings, generatedAt, n);
    assert trailer == head + (generatedAt + tail);
    assert trailer[..|head|] == head;
    assert trailer == (head + generatedAt) + tail;
    assert trailer[|trailer| - |tail|..] == tail;
  }

  function GeneratePrompt(
    images: seq<UploadedImage>, settings: AnalysisSettings, info: Option<ProjectInfo.Info>,
    choices: seq<nat>, id: string, createdAt: int, generatedAt: string): (r: Option<GeneratedPrompt>)
    requires ValidChoices(choices, |images|)
    ensures r.None? <==> info.None?
    ensures r.Some? ==> |r.value.imageIds| == |images|
    ensures r.Some? ==> forall k :: 0 <= k < |images| ==> r.value.imageIds[k] == images[k].id
    ensures r.Some? ==> r.value.id == id && r.value.createdAt == createdAt
    ensures r.Some? ==> r.value.document.title == TitlePrefix + OrDefault(info.value.name, NameFallback)
    ensures r.Some? ==> StartsWith(r.value.document.trailer, TrailerHead(settings.temperature, settings.processingOption))
    ensures r.Some? ==> EndsWith(r.value.document.trailer, " | Images: " + NatToString(|images|))
    ensures r.Some? ==> r.value.document.sections == Sections(images, settings, info.value, choices)
    ensures r.Some? ==> (|r.value.document.sections| > 0 && r.value.document.sections[0] ==
      Section(OverviewHeading, [OverviewLine(ImageText(|images|), OrDefault(info.value.description, DescriptionFallback),
                                             OrDefault(info.value.author, AuthorFallback))]))
  {
    if info.None? then None
    else
      var trailer := Trailer(settings, generatedAt, |images|);
      TrailerShape(settings, generatedAt, |images|);
      var doc := Document(TitlePrefix + OrDefault(info.value.name, NameFallback),
                          Sections(images, settings, info.value, choices), trailer);
      Some(GeneratedPrompt(id, doc, createdAt, ImageIds(images)))
  }

  /** The overview line starts with the mockup phrase and ends with the author. */
  lemma OverviewLineParts(imageText: string, description: string, author: string)
    ensures StartsWith(OverviewLine(imageText, description, author),
                       "Create a modern web application with a dark-themed UI as shown in " + imageText + ".")
    ensures EndsWith(OverviewLine(imageText, description, author), " by " + author + ".")
    ensures Contains(OverviewLine(imageText, description, author), ". The application is " + description + " by ")
  {
    var pre := "Create a modern web application with a dark-themed UI as shown in " + imageText;
    var mid := ". The application is " + description + " by ";
    var line := OverviewLine(imageText, description, author);
    assert line == pre + mid + (author + ".");
    var head := pre + ".";
    assert line == head + (" The application is " + description + " by " + author + ".");
    assert line[..|head|] == head;
    var tail := " by " + author + ".";
    assert line == (pre + ". The application is " + description) + tail;
    assert line[|line| - |tail|..] == tail;
    ContainsInfix(pre, mid, author + ".");
  }

  /**
    What the overview line says: it names the mockups, then the description
    (or "A web application" when it is empty), then the author (or
    "Anonymous" when empty).
   */
  lemma OverviewLineShape(imageText: string, description: string, author: string)
    ensures var line := OverviewLine(imageText, OrDefault(description, DescriptionFallback), OrDefault(author, AuthorFallback));
      StartsWith(line, "Create a modern web application with a dark-themed UI as shown in " + imageText + ".")
      && Contains(line, ". The application is " + OrDefault(description, DescriptionFallback) + " by ")
      && (author != "" ==> EndsWith(line, " by " + author + "."))
      && (author == "" ==> EndsWith(line, " by Anonymous."))
      && (description == "" ==> Contains(line, ". The application is A web application by "))
  {
    var d := OrDefault(description, DescriptionFallback);
    var a := OrDefault(author, AuthorFallback);
    assert " by " + AuthorFallback + "." == " by Anonymous.";
    assert ". The application is " + DescriptionFallback + " by " == ". The application is A web application by ";
    OverviewLineParts(imageText, d, a);
  }

  /**
    The overview of a generated specification: the first section, whose one
    line names "the uploaded mockup" or "the N uploaded mockups" and falls
    back to "A web application" and "Anonymous" for an empty description
    and author.
   */
  lemma GeneratedOverview(images: seq<UploadedImage>, settings: AnalysisSettings, info: ProjectInfo.Info,
                          choices: seq<nat>, id: string, createdAt: int, generatedAt: string)
    requires ValidChoices(choices, |images|)
    ensures var d := GeneratePrompt(images, settings, Some(info), choices, id, createdAt, generatedAt).value.document;
      |d.sections| > 0 && d.sections[0].heading == OverviewHeading && |d.sections[0].body| == 1
      && StartsWith(d.sections[0].body[0], "Create a modern web application with a dark-themed UI as shown in "
                                           + ImageText(|images|) + ".")
      && (|images| == 1 ==> ImageText(|images|) == "the uploaded mockup")
      && (|images| != 1 ==> ImageText(|images|) == "the " + NatToString(|images|) + " uploaded mockups")
      && (info.author != "" ==> EndsWith(d.sections[0].body[0], " by " + info.author + "."))
      && (info.author == "" ==> EndsWith(d.sections[0].body[0], " by Anonymous."))
      && (info.description != "" ==> Contains(d.sections[0].body[0], ". The application is " + info.description + " by "))
      && (info.description == "" ==> Contains(d.sections[0].body[0], ". The application is A web application by "))
  {
    ImageTextSingular(|images|);
    OverviewLineShape(ImageText(|images|), info.description, info.author);
  }

  /** The headings of a generated specification, as a list built from the settings alone. */
  function ExpectedHeadings(n: nat, hasCustom: bool, expert: bool, enhancedOrExpert: bool): seq<string> {
    [OverviewHeading]
    + (if hasCustom then [CustomHeading] else [])
    + (if n > 1 then [SummaryHeading, ConsolidatedHeading] else [])
    + FixedHeadings
    + (if expert then [PerformanceHeading] else [])
    + (if enhancedOrExpert then [AnimationHeading] else [])
  }

  /** The section order of the template: overview, custom, summary, fixed sections, performance, animation. */
  lemma SectionHeadings(images: seq<UploadedImage>, settings: AnalysisSettings, info: ProjectInfo.Info, choices: seq<nat>)
    requires ValidChoices(choices, |images|)
    ensures Headings(Sections(images, settings, info, choices))
      == ExpectedHeadings(|images|, info.customPrompt != "", IsExpert(settings), IsEnhancedOrExpert(settings))
  {
    var a := [OverviewSection(|images|, info)];
    var b := CustomPart(info);
    var c := SummaryPart(images, settings.analysisFocus, choices);
    var d := FixedSections(ImageGallerySpec);
    var e := PerformancePart(settings);
    var f := AnimationPart(settings);
    HeadingsAppend(a + b + c + d + e, f);
    HeadingsAppend(a + b + c + d, e);
    HeadingsAppend(a + b + c, d);
    HeadingsAppend(a + b, c);
    HeadingsAppend(a, b);
    FixedSectionsHeadings(ImageGallerySpec);
    calc {
      Headings(Sections(images, settings, info, choices));
      Headings(a + b + c + d + e + f);
      Headings(a) + Headings(b) + Headings(c) + Headings(d) + Headings(e) + Headings(f);
      { assert Headings(a) == [OverviewHeading]; }
      [OverviewHeading] + Headings(b) + Headings(c) + FixedHeadings + Headings(e) + Headings(f);
    }
  }

  /** No conditional heading is one of the fixed ones, and they differ from each other. */
  lemma ConditionalHeadingsDistinct()
    ensures CustomHeading !in FixedHeadings && SummaryHeading !in FixedHeadings
    ensures ConsolidatedHeading !in FixedHeadings && PerformanceHeading !in FixedHeadings
    ensures AnimationHeading !in FixedHeadings && OverviewHeading !in FixedHeadings
    ensures |{OverviewHeading, CustomHeading, SummaryHeading, ConsolidatedHeading, PerformanceHeading, AnimationHeading}| == 6
  {
  }

  /** Each conditional heading occurs in the expected list exactly when its condition holds. */
  lemma ExpectedHeadingsPresence(n: nat, hasCustom: bool, expert: bool, enhancedOrExpert: bool)
    ensures CustomHeading in ExpectedHeadings(n, hasCustom, expert, enhancedOrExpert) <==> hasCustom
    ensures SummaryHeading in ExpectedHeadings(n, hasCustom, expert, enhancedOrExpert) <==> n > 1
    ensures ConsolidatedHeading in ExpectedHeadings(n, hasCustom, expert, enhancedOrExpert) <==> n > 1
    ensures PerformanceHeading in ExpectedHeadings(n, hasCustom, expert, enhancedOrExpert) <==> expert
    ensures AnimationHeading in ExpectedHeadings(n, hasCustom, expert, enhancedOrExpert) <==> enhancedOrExpert
    ensures forall h :: h in FixedHeadings ==> h in ExpectedHeadings(n, hasCustom, expert, enhancedOrExpert)
  {
    ConditionalHeadingsDistinct();
  }

  /**
    Which sections a specification has: custom requirements exactly when a
    custom prompt was given, the image summary and consolidated requirements
    exactly for more than one image, performance exactly for "expert", and
    animation exactly for "enhanced" or "expert".
   */
  lemma SectionPresence(images: seq<UploadedImage>, settings: AnalysisSettings, info: ProjectInfo.Info,
                        choices: seq<nat>, id: string, createdAt: int, generatedAt: string)
    requires ValidChoices(choices, |images|)
    ensures var d := GeneratePrompt(images, settings, Some(info), choices, id, createdAt, generatedAt).value.document;
      && (HasSection(d, CustomHeading) <==> info.customPrompt != "")
      && (HasSection(d, SummaryHeading) <==> |images| > 1)
      && (HasSection(d, ConsolidatedHeading) <==> |images| > 1)
      && (HasSection(d, PerformanceHeading) <==> settings.processingOption == "expert")
      && (HasSection(d, AnimationHeading) <==> settings.processingOption in ["enhanced", "expert"])
      && (forall h :: h in FixedHeadings ==> HasSection(d, h))
  {
    var d := GeneratePrompt(images, settings, Some(info), choices, id, createdAt, generatedAt).value.document;
    var hasCustom, expert, enhancedOrExpert := info.customPrompt != "", IsExpert(settings), IsEnhancedOrExpert(settings);
    assert Headings(d.sections) == ExpectedHeadings(|images|, hasCustom, expert, enhancedOrExpert) by {
      assert d.sections == Sections(images, settings, info, choices);
      SectionHeadings(images, settings, info, choices);
    }
    ExpectedHeadingsPresence(|images|, hasCustom, expert, enhancedOrExpert);
    assert enhancedOrExpert <==> settings.processingOption in ["enhanced", "expert"];
  }

  /** The section with a given heading, when there is one. */
  function SectionWith(ss: seq<Section>, heading: string): Option<Section> {
    if |ss| == 0 then None
    else if ss[0].heading == heading then Some(ss[0])
    else SectionWith(ss[1..], heading)
  }

  /** Looking a heading up past sections that do not carry it. */
  lemma {:induction false} SectionWithAppend(a: seq<Section>, b: seq<Section>, heading: string)
    requires heading !in Headings(a)
    ensures SectionWith(a + b, heading) == SectionWith(b, heading)
    decreases |a|
  {
    if |a| == 0 {
      assert a + b == b;
    } else {
      assert (a + b)[1..] == a[1..] + b;
      assert Headings(a[1..]) == Headings(a)[1..];
      SectionWithAppend(a[1..], b, heading);
    }
  }

  /** Looking a heading up in a list that carries it ignores what follows. */
  lemma {:induction false} SectionWithPrefix(a: seq<Section>, b: seq<Section>, heading: string)
    requires heading in Headings(a)
    ensures SectionWith(a + b, heading) == SectionWith(a, heading)
    decreases |a|
  {
    if a[0].heading != heading {
      assert (a + b)[1..] == a[1..] + b;
      assert Headings(a[1..]) == Headings(a)[1..];
      SectionWithPrefix(a[1..], b, heading);
    }
  }

  /**
    The contents of the dynamic sections: the custom section holds the custom
    prompt verbatim; the summary lists, for each image in input order, its
    number from 1, its name and the chosen phrase for the focus.
   */
  lemma SectionContents(images: seq<UploadedImage>, settings: AnalysisSettings, info: ProjectInfo.Info, choices: seq<nat>)
    requires ValidChoices(choices, |images|)
    ensures info.customPrompt != "" ==>
      SectionWith(Sections(images, settings, info, choices), CustomHeading) == Some(Section(CustomHeading, [info.customPrompt]))
    ensures |images| > 1 ==>
      SectionWith(Sections(images, settings, info, choices), SummaryHeading)
        == Some(Section(SummaryHeading, SummaryLines(images, settings.analysisFocus, choices)))
  {
    if info.customPrompt != "" {
      CustomSectionContent(images, settings, info, choices);
    }
    if |images| > 1 {
      SummarySectionContent(images, settings, info, choices);
    }
  }

  /** The sections split after the custom block, after the summary block, and at the end. */
  lemma SectionsSplit(images: seq<UploadedImage>, settings: AnalysisSettings, info: ProjectInfo.Info, choices: seq<nat>)
    requires ValidChoices(choices, |images|)
    ensures Sections(images, settings, info, choices)
      == ([OverviewSection(|images|, info)] + CustomPart(info))
         + (SummaryPart(images, settings.analysisFocus, choices)
            + (FixedSections(ImageGallerySpec) + PerformancePart(settings) + AnimationPart(settings)))
  {
    Regroup([OverviewSection(|images|, info)], CustomPart(info), SummaryPart(images, settings.analysisFocus, choices),
            FixedSections(ImageGallerySpec), PerformancePart(settings), AnimationPart(settings));
  }

  lemma Regroup<T>(a: seq<T>, b: seq<T>, c: seq<T>, d: seq<T>, e: seq<T>, f: seq<T>)
    ensures a + b + c + d + e + f == (a + b) + (c + (d + e + f))
  {
  }

  lemma CustomSectionContent(images: seq<UploadedImage>, settings: AnalysisSettings, info: ProjectInfo.Info, choices: seq<nat>)
    requires ValidChoices(choices, |images|) && info.customPrompt != ""
    ensures SectionWith(Sections(images, settings, info, choices), CustomHeading) == Some(Section(CustomHeading, [info.customPrompt]))
  {
    var a := [OverviewSection(|images|, info)];
    var b := CustomPart(info);
    var rest := SummaryPart(images, settings.analysisFocus, choices)
      + (FixedSections(ImageGallerySpec) + PerformancePart(settings) + AnimationPart(settings));
    SectionsSplit(images, settings, info, choices);
    assert Headings(a) == [OverviewHeading];
    assert CustomHeading != OverviewHeading;
    HeadingsAppend(a, b);
    SectionWithAppend(a, b, CustomHeading);
    SectionWithPrefix(a + b, rest, CustomHeading);
  }

  lemma SummarySectionContent(images: seq<UploadedImage>, settings: AnalysisSettings, info: ProjectInfo.Info, choices: seq<nat>)
    requires ValidChoices(choices, |images|) && |images| > 1
    ensures SectionWith(Sections(images, settings, info, choices), SummaryHeading)
      == Some(Section(SummaryHeading, SummaryLines(images, settings.analysisFocus, choices)))
  {
    var a := [OverviewSection(|images|, info)] + CustomPart(info);
    var c := SummaryPart(images, settings.analysisFocus, choices);
    var rest := FixedSections(ImageGallerySpec) + PerformancePart(settings) + AnimationPart(settings);
    SectionsSplit(images, settings, info, choices);
    assert Headings([OverviewSection(|images|, info)]) == [OverviewHeading];
    HeadingsAppend([OverviewSection(|images|, info)], CustomPart(info));
    assert SummaryHeading !in Headings(a);
    SectionWithAppend(a, c + rest, SummaryHeading);
    assert SummaryHeading in Headings(c);
    SectionWithPrefix(c, rest, SummaryHeading);
  }

  /** The options `usePromptGenerator` passes to its mock. */
  datatype MockOptions = MockOptions(temperature: nat, focus: string, processing: string)

  const MockOverview: string :=
    "Create a modern web application with a dark-themed UI as shown in the uploaded mockup. "
    + "The application is a prompt generator tool called \"CopyCoder\" by RowdyRaedon."

  /**
    `mockGeneratePrompt`: a fixed specification whose title names the focus
    and whose trailer reports the temperature and processing option, with no
    image count and no optional sections.
   */
  function MockGeneratePrompt(options: MockOptions, generatedAt: string): (d: Document)
    ensures d.title == TitlePrefix + options.focus
    ensures StartsWith(d.trailer, TrailerHead(options.temperature, options.processing))
    ensures !HasSection(d, CustomHeading) && !HasSection(d, SummaryHeading)
    ensures !HasSection(d, PerformanceHeading) && !HasSection(d, AnimationHeading)
  {
    var trailer := TrailerHead(options.temperature, options.processing) + generatedAt;
    assert trailer[..|TrailerHead(options.temperature, options.processing)|] == TrailerHead(options.temperature, options.processing);
    var d := Document(TitlePrefix + options.focus, [Section(OverviewHeading, [MockOverview])] + FixedSections(ImagePreviewSpec), trailer);
    HeadingsAppend([Section(OverviewHeading, [MockOverview])], FixedSections(ImagePreviewSpec));
    FixedSectionsHeadings(ImagePreviewSpec);
    d
  }

  /**
    For one image, no custom prompt and standard processing, the generator
    and the mock produce the same sequence of section headings.
   */
  lemma MockMatchesGeneratorHeadings(image: UploadedImage, settings: AnalysisSettings, info: ProjectInfo.Info,
                                     choice: nat, options: MockOptions, generatedAt: string)
    requires choice < 10 && info.customPrompt == "" && settings.processingOption == "standard"
    ensures Headings(MockGeneratePrompt(options, generatedAt).sections)
         == Headings(Sections([image], settings, info, [choice]))
  {
    SectionHeadings([image], settings, info, [choice]);
    HeadingsAppend([Section(OverviewHeading, [MockOverview])], FixedSections(ImagePreviewSpec));
    FixedSectionsHeadings(ImagePreviewSpec);
  }
}
