/**
  The page component in its three revisions: `ActualApp`
  (`app/actual-app.tsx`), `DynamicApp` (`components/dynamic-app.tsx`) and
  `Home` (`app/page.tsx`). They share the state, the theme toggle and the
  generate handler; they differ in the upload cap, in where the theme is
  kept, and in whether project information (`projectInfo`) reaches the generator.

  The generate handler is asynchronous. It is modelled by the state it
  leaves while the generator runs (`during`, absent when it returns early),
  the state it leaves at the end (`after`) and the notice it shows.
 */
module AppShell {
  import opened Strings
  import opened ImageUtils
  import opened ControlPanel
  import ProjectInfo
  import opened PromptGenerator
  import Theme
  import MultiFileUpload

  datatype Revision = ActualApp | DynamicApp | HomePage

  /** The `maxFiles` each revision gives its upload area. */
  function MaxFiles(rev: Revision): (cap: nat)
    ensures rev == HomePage <==> cap == 10
    ensures rev != HomePage <==> cap == 50
  {
    match rev
    case ActualApp => 50
    case DynamicApp => 50
    case HomePage => 10
  }

  /**
    The upload area of a revision: the batch goes through the multi-file
    upload handler with the revision's own cap, so a collection within the cap
    stays within it, and a batch that would exceed it is refused whole.
   */
  method UploadIntoPage(rev: Revision, images: seq<UploadedImage>, files: seq<FileInfo>, minted: seq<MultiFileUpload.Minted>)
    returns (result: seq<UploadedImage>, notices: seq<MultiFileUpload.Notice>)
    requires |minted| == |files|
    ensures |images| <= MaxFiles(rev) ==> |result| <= MaxFiles(rev)
    ensures |images| + |files| > MaxFiles(rev) ==> result == images && notices == [MultiFileUpload.TooManyFiles(MaxFiles(rev))]
    ensures |result| >= |images| && result[..|images|] == images
  {
    MultiFileUpload.AcceptedCount(files, minted);
    result, notices := MultiFileUpload.HandleFilesUpload(images, files, minted, MaxFiles(rev));
  }

  /**
    `Home` caps the collection at ten images while the other two revisions
    allow fifty: with ten images present, a further valid image is refused by
    `Home` and accepted by `ActualApp` and `DynamicApp`. That holds for a drop
    through the current upload handler (and for the file input, by
    `UploadIntoPage`); the drop handler as written checks the batch alone and
    lets the eleventh image into `Home`.
   */
  lemma HomePageCapsAtTen(images: seq<UploadedImage>, file: FileInfo, minted: MultiFileUpload.Minted)
    requires |images| == 10 && ValidateFile(file).Valid?
    ensures MultiFileUpload.HandleDrop(images, [file], [minted], MaxFiles(HomePage)) == images
    ensures |MultiFileUpload.HandleDrop(images, [file], [minted], MaxFiles(ActualApp))| == 11
    ensures |MultiFileUpload.HandleDrop(images, [file], [minted], MaxFiles(DynamicApp))| == 11
    ensures |MultiFileUpload.HandleDropAsWritten(images, [file], [minted], MaxFiles(HomePage))| == 11
  {
    assert MultiFileUpload.CountValid([file]) == 1;
    MultiFileUpload.AcceptedCount([file], [minted]);
  }

  /** Only `ActualApp` and `DynamicApp` keep project information and pass it on; `Home` passes `undefined`. */
  predicate PassesProjectInfo(rev: Revision) {
    rev != HomePage
  }

  datatype AppState = AppState(
    isDarkMode: bool,
    images: seq<UploadedImage>,
    prompt: Option<GeneratedPrompt>,
    isGenerating: bool,
    info: ProjectInfo.Info)

  /** The state on mount, before any effect: dark, nothing uploaded, nothing generated, blank project information. */
  function InitialState(isDarkMode: bool): (s: AppState)
    ensures s.isDarkMode == isDarkMode && |s.images| == 0 && s.prompt.None? && !s.isGenerating
    ensures forall f :: ProjectInfo.Get(s.info, f) == ""
  {
    AppState(isDarkMode, [], None, false, ProjectInfo.Blank)
  }

  /**
    The mode a revision starts in, as it is meant to work. `ActualApp` starts
    dark and its load effect replaces that with the stored preference;
    `DynamicApp` reads the cookie jar; `Home` keeps nothing and starts dark.
   */
  function MountedDarkMode(rev: Revision, storage: map<string, string>, parse: string -> Theme.Parsed, jar: string): bool {
    match rev
    case ActualApp => Theme.LoadTheme(storage, parse)
    case DynamicApp => Theme.DecodeCookie(jar)
    case HomePage => true
  }

  /** A reload of `ActualApp` restores the mode its theme effect saved. */
  lemma ActualAppThemeSurvivesReload(storage: map<string, string>, isDarkMode: bool,
                                     parse: string -> Theme.Parsed, jar: string)
    requires Theme.ParsesThemeNames(parse)
    ensures MountedDarkMode(ActualApp, Theme.SaveTheme(storage, isDarkMode), parse, jar) == isDarkMode
  {
    Theme.SaveLoadRoundTrip(storage, isDarkMode, parse);
  }

  /** A reload of `DynamicApp` restores the mode whose cookie the browser kept among other cookies. */
  lemma DynamicAppThemeSurvivesReload(storage: map<string, string>, parse: string -> Theme.Parsed, jar: string,
                                      before: seq<string>, after: seq<string>, isDarkMode: bool)
    requires Split(jar, ';') == before + [Theme.CookiePair(isDarkMode)] + after
    requires forall k :: 0 <= k < |before| ==> Theme.OtherCookie(before[k])
    ensures MountedDarkMode(DynamicApp, storage, parse, jar) == isDarkMode
  {
    Theme.CookieRoundTrip(jar, before, after, isDarkMode);
  }

  /** `Home` keeps no preference: it always comes back dark. */
  lemma HomePageForgetsTheme(storage: map<string, string>, parse: string -> Theme.Parsed, jar: string)
    ensures MountedDarkMode(HomePage, storage, parse, jar)
  {
  }

  /**
    The mount of `ActualApp` as written. After the first render both effects
    run in the order they are declared, so the save effect writes the initial
    dark mode before the load effect reads the preference: with a parser that
    reads the theme names back, the page always comes up dark.
   */
  function ActualAppMountAsWritten(storage: map<string, string>, parse: string -> Theme.Parsed): (isDarkMode: bool)
    ensures Theme.ParsesThemeNames(parse) ==> isDarkMode
  {
    var saved := Theme.SaveTheme(storage, InitialState(true).isDarkMode);
    assert saved[Theme.ThemeKey] == Theme.Stringify(Theme.Dark) != "";
    Theme.LoadTheme(saved, parse)
  }

  /** A saved light theme is lost on reload as written, and restored when the preference is read before it is saved. */
  lemma ActualAppForgetsLightTheme(storage: map<string, string>, parse: string -> Theme.Parsed, jar: string)
    requires Theme.ParsesThemeNames(parse)
    ensures ActualAppMountAsWritten(Theme.SaveTheme(storage, false), parse)
    ensures !MountedDarkMode(ActualApp, Theme.SaveTheme(storage, false), parse, jar)
  {
    Theme.SaveLoadRoundTrip(storage, false, parse);
  }

  /** `toggleTheme`: only the mode changes, to its opposite. */
  function ToggleTheme(s: AppState): (r: AppState)
    ensures r.isDarkMode != s.isDarkMode
    ensures r.images == s.images && r.prompt == s.prompt && r.isGenerating == s.isGenerating && r.info == s.info
  {
    s.(isDarkMode := !s.isDarkMode)
  }

  /** Toggling twice gives back the state. */
  lemma ToggleThemeTwice(s: AppState)
    ensures ToggleTheme(ToggleTheme(s)) == s
  {
  }

  /** The notices of the generate handler. */
  datatype Notice =
    | NoImagesUploaded
    | ImagesStillUploading
    | PromptGenerated(imageCount: nat)
    | GenerationFailed

  /** `uploadedImages.some((img) => img.status === "uploading")` */
  predicate StillUploading(images: seq<UploadedImage>) {
    exists k :: 0 <= k < |images| && images[k].status == Uploading
  }

  datatype Handled = Handled(during: Option<AppState>, after: AppState, notice: Notice)

  /**
    `handleGeneratePrompt(settings)`. `choices` stands for the analysis
    phrases the generator draws, `id`, `createdAt` and `generatedAt` for the
    fresh id and the clock. The generator's promise is rejected exactly when
    it is given no project information (`projectInfo` undefined), which is
    how `Home` calls it; empty fields only fall back to defaults.
   */
  function HandleGeneratePrompt(rev: Revision, s: AppState, settings: AnalysisSettings,
                                choices: seq<nat>, id: string, createdAt: int, generatedAt: string): (h: Handled)
    requires ValidChoices(choices, |s.images|)
    ensures |s.images| == 0 ==> h == Handled(None, s, NoImagesUploaded)
    ensures |s.images| > 0 && StillUploading(s.images) ==> h == Handled(None, s, ImagesStillUploading)
    ensures |s.images| > 0 && !StillUploading(s.images) ==>
      h.during == Some(s.(isGenerating := true, prompt := None))
      && h.after == s.(isGenerating := false, prompt := h.after.prompt)
      && (h.after.prompt.None? <==> h.notice == GenerationFailed)
      && (h.after.prompt.Some? <==> PassesProjectInfo(rev))
  {
    if |s.images| == 0 then Handled(None, s, NoImagesUploaded)
    else if StillUploading(s.images) then Handled(None, s, ImagesStillUploading)
    else
      var during := s.(isGenerating := true, prompt := None);
      var info := if PassesProjectInfo(rev) then Some(s.info) else None;
      match GeneratePrompt(s.images, settings, info, choices, id, createdAt, generatedAt)
      case Some(p) => Handled(Some(during), during.(isGenerating := false, prompt := Some(p)), PromptGenerated(|s.images|))
      case None => Handled(Some(during), during.(isGenerating := false), GenerationFailed)
  }

  /**
    With project information, a successful run stores the generator's prompt for
    exactly the uploaded images and reports their number.
   */
  lemma GeneratedPromptCoversImages(rev: Revision, s: AppState, settings: AnalysisSettings,
                                    choices: seq<nat>, id: string, createdAt: int, generatedAt: string)
    requires ValidChoices(choices, |s.images|)
    requires |s.images| > 0 && !StillUploading(s.images) && PassesProjectInfo(rev)
    ensures var h := HandleGeneratePrompt(rev, s, settings, choices, id, createdAt, generatedAt);
      h.notice == PromptGenerated(|s.images|)
      && h.after.prompt == GeneratePrompt(s.images, settings, Some(s.info), choices, id, createdAt, generatedAt)
      && |h.after.prompt.value.imageIds| == |s.images|
      && (forall k :: 0 <= k < |s.images| ==> h.after.prompt.value.imageIds[k] == s.images[k].id)
  {
  }

  /**
    The generate button and the handler agree: an enabled button never meets
    the "No images uploaded" gate, and while the generator runs the button
    is disabled.
   */
  lemma EnabledButtonPassesImageGate(rev: Revision, s: AppState, settings: AnalysisSettings,
                                     choices: seq<nat>, id: string, createdAt: int, generatedAt: string)
    requires ValidChoices(choices, |s.images|)
    requires !GenerateDisabled(s.isGenerating, |s.images| > 0)
    ensures var h := HandleGeneratePrompt(rev, s, settings, choices, id, createdAt, generatedAt);
      h.notice != NoImagesUploaded
      && (h.during.Some? ==> GenerateDisabled(h.during.value.isGenerating, |h.during.value.images| > 0))
      && (h.during.Some? ==> !GenerateDisabled(h.after.isGenerating, |h.after.images| > 0))
  {
  }

  /** `Home` calls the generator with `projectInfo` undefined, so every run that gets past the gate fails. */
  lemma HomePageAlwaysFails(s: AppState, settings: AnalysisSettings,
                            choices: seq<nat>, id: string, createdAt: int, generatedAt: string)
    requires ValidChoices(choices, |s.images|)
    requires |s.images| > 0 && !StillUploading(s.images)
    ensures var h := HandleGeneratePrompt(HomePage, s, settings, choices, id, createdAt, generatedAt);
      h.notice == GenerationFailed && h.after.prompt.None? && !h.after.isGenerating
  {
  }

  /**
    The handler never looks at `isGenerating`: a second request while one is
    running gets the same notice and leaves the same prompt.
   */
  lemma HandlerIgnoresFlag(rev: Revision, s: AppState, flag: bool, settings: AnalysisSettings,
                           choices: seq<nat>, id: string, createdAt: int, generatedAt: string)
    requires ValidChoices(choices, |s.images|)
    ensures var h := HandleGeneratePrompt(rev, s, settings, choices, id, createdAt, generatedAt);
      var g := HandleGeneratePrompt(rev, s.(isGenerating := flag), settings, choices, id, createdAt, generatedAt);
      g.notice == h.notice && g.after.prompt == h.after.prompt
  {
  }

  /** After the handler finishes, whatever happened, no generation is in progress unless one already was. */
  lemma FlagResetAfterRun(rev: Revision, s: AppState, settings: AnalysisSettings,
                          choices: seq<nat>, id: string, createdAt: int, generatedAt: string)
    requires ValidChoices(choices, |s.images|)
    ensures var h := HandleGeneratePrompt(rev, s, settings, choices, id, createdAt, generatedAt);
      h.during.Some? ==> h.during.value.isGenerating && !h.after.isGenerating
    ensures var h := HandleGeneratePrompt(rev, s, settings, choices, id, createdAt, generatedAt);
      h.during.None? ==> h.after.isGenerating == s.isGenerating
  {
  }
}
