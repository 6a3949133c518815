/**
  The shared application state of `context/app-context.tsx`: the current
  file and prompt, the busy flag, the settings with their theme, and two
  histories (files and prompts), newest first and at most ten long.

  The record types it uses are not defined in `types/index.ts`; they are
  taken here as the shapes the provider reads: a file has a `url`, a prompt
  does not, so `"url" in item` is the choice between the two constructors of
  `HistoryItem`.
 */
module AppContext {
  import opened Strings
  import ControlPanel
  import SingleUpload
  import PromptGenerator

  datatype ThemeName = DarkTheme | LightTheme

  /** `AppSettings`, with the temperature in tenths. */
  datatype AppSettings = AppSettings(theme: ThemeName, temperature: nat, analysisFocus: string, processingOption: string)

  datatype History = History(files: seq<SingleUpload.UploadedFile>, prompts: seq<PromptGenerator.GeneratedPrompt>)

  datatype AppState = AppState(
    currentFile: Option<SingleUpload.UploadedFile>,
    currentPrompt: Option<PromptGenerator.GeneratedPrompt>,
    isGenerating: bool,
    settings: AppSettings,
    history: History)

  /** How many entries each history keeps. */
  const HistoryCap: nat := 10

  const DefaultSettings: AppSettings := AppSettings(DarkTheme, 7, "web", "standard")

  const DefaultState: AppState := AppState(None, None, false, DefaultSettings, History([], []))

  /**
    The defaults: dark, nothing current, not busy, empty histories, and the
    same analysis settings the control panel starts with.
   */
  lemma DefaultsAgreeWithControlPanel()
    ensures DefaultState.settings.theme == DarkTheme
    ensures DefaultState.currentFile.None? && DefaultState.currentPrompt.None? && !DefaultState.isGenerating
    ensures |DefaultState.history.files| == 0 && |DefaultState.history.prompts| == 0
    ensures var s := DefaultState.settings;
      ControlPanel.AnalysisSettings(s.temperature, s.analysisFocus, s.processingOption) == ControlPanel.InitialSettings
  {
  }

  /** `setCurrentFile` */
  function SetCurrentFile(s: AppState, file: Option<SingleUpload.UploadedFile>): (r: AppState)
    ensures r.currentFile == file
    ensures r.currentPrompt == s.currentPrompt && r.isGenerating == s.isGenerating
    ensures r.settings == s.settings && r.history == s.history
  {
    s.(currentFile := file)
  }

  /** `setCurrentPrompt` */
  function SetCurrentPrompt(s: AppState, prompt: Option<PromptGenerator.GeneratedPrompt>): (r: AppState)
    ensures r.currentPrompt == prompt
    ensures r.currentFile == s.currentFile && r.isGenerating == s.isGenerating
    ensures r.settings == s.settings && r.history == s.history
  {
    s.(currentPrompt := prompt)
  }

  /** `setIsGenerating` */
  function SetIsGenerating(s: AppState, isGenerating: bool): (r: AppState)
    ensures r.isGenerating == isGenerating
    ensures r.currentFile == s.currentFile && r.currentPrompt == s.currentPrompt
    ensures r.settings == s.settings && r.history == s.history
  {
    s.(isGenerating := isGenerating)
  }

  /**
    The three setters touch disjoint parts of the state: any two of them
    commute, and of two calls to the same setter the later one wins.
   */
  lemma SettersIndependent(s: AppState, file: Option<SingleUpload.UploadedFile>, file2: Option<SingleUpload.UploadedFile>,
                           prompt: Option<PromptGenerator.GeneratedPrompt>, busy: bool, busy2: bool)
    ensures SetCurrentPrompt(SetCurrentFile(s, file), prompt) == SetCurrentFile(SetCurrentPrompt(s, prompt), file)
    ensures SetIsGenerating(SetCurrentFile(s, file), busy) == SetCurrentFile(SetIsGenerating(s, busy), file)
    ensures SetIsGenerating(SetCurrentPrompt(s, prompt), busy) == SetCurrentPrompt(SetIsGenerating(s, busy), prompt)
    ensures SetCurrentFile(SetCurrentFile(s, file), file2) == SetCurrentFile(s, file2)
    ensures SetIsGenerating(SetIsGenerating(s, busy), busy2) == SetIsGenerating(s, busy2)
  {
  }

  /** A `Partial<AppSettings>`: a field is either supplied or absent. */
  datatype SettingsPatch = SettingsPatch(
    theme: Option<ThemeName>,
    temperature: Option<nat>,
    analysisFocus: Option<string>,
    processingOption: Option<string>)

  const EmptyPatch: SettingsPatch := SettingsPatch(None, None, None, None)

  function Pick<T>(supplied: Option<T>, current: T): T {
    if supplied.Some? then supplied.value else current
  }

  /** `{ ...prev.settings, ...patch }` */
  function MergeSettings(settings: AppSettings, patch: SettingsPatch): AppSettings {
    AppSettings(
      Pick(patch.theme, settings.theme),
      Pick(patch.temperature, settings.temperature),
      Pick(patch.analysisFocus, settings.analysisFocus),
      Pick(patch.processingOption, settings.processingOption))
  }

  /** `updateSettings`: every supplied field is taken, every absent one kept, and nothing outside the settings changes. */
  function UpdateSettings(s: AppState, patch: SettingsPatch): (r: AppState)
    ensures r.settings.theme == (if patch.theme.Some? then patch.theme.value else s.settings.theme)
    ensures r.settings.temperature == (if patch.temperature.Some? then patch.temperature.value else s.settings.temperature)
    ensures r.settings.analysisFocus == (if patch.analysisFocus.Some? then patch.analysisFocus.value else s.settings.analysisFocus)
    ensures r.settings.processingOption ==
      (if patch.processingOption.Some? then patch.processingOption.value else s.settings.processingOption)
    ensures r.currentFile == s.currentFile && r.currentPrompt == s.currentPrompt
    ensures r.isGenerating == s.isGenerating && r.history == s.history
  {
    s.(settings := MergeSettings(s.settings, patch))
  }

  /** An empty patch changes nothing. */
  lemma EmptyPatchIsIdentity(s: AppState)
    ensures UpdateSettings(s, EmptyPatch) == s
  {
  }

  /** Two patches in a row act as one in which the later patch's supplied fields win. */
  function Combine(first: SettingsPatch, second: SettingsPatch): SettingsPatch {
    SettingsPatch(
      if second.theme.Some? then second.theme else first.theme,
      if second.temperature.Some? then second.temperature else first.temperature,
      if second.analysisFocus.Some? then second.analysisFocus else first.analysisFocus,
      if second.processingOption.Some? then second.processingOption else first.processingOption)
  }

  lemma UpdateSettingsCombine(s: AppState, first: SettingsPatch, second: SettingsPatch)
    ensures UpdateSettings(UpdateSettings(s, first), second) == UpdateSettings(s, Combine(first, second))
  {
  }

  /** `[item, ...list].slice(0, 10)` */
  function Push<T>(item: T, list: seq<T>): (r: seq<T>)
    ensures |r| == if |list| + 1 < HistoryCap then |list| + 1 else HistoryCap
    ensures r[0] == item
    ensures r[1..] == list[..|r| - 1]
  {
    ([item] + list)[..if |list| + 1 < HistoryCap then |list| + 1 else HistoryCap]
  }

  /** The entries a history holds. */
  datatype HistoryItem = FileItem(file: SingleUpload.UploadedFile) | PromptItem(prompt: PromptGenerator.GeneratedPrompt)

  /** `addToHistory`: a file goes to the front of the file history, a prompt to the front of the prompt history. */
  function AddToHistory(s: AppState, item: HistoryItem): (r: AppState)
    ensures item.FileItem? ==> r.history.files == Push(item.file, s.history.files) && r.history.prompts == s.history.prompts
    ensures item.PromptItem? ==> r.history.prompts == Push(item.prompt, s.history.prompts) && r.history.files == s.history.files
    ensures r.currentFile == s.currentFile && r.currentPrompt == s.currentPrompt
    ensures r.isGenerating == s.isGenerating && r.settings == s.settings
  {
    match item
    case FileItem(f) => s.(history := s.history.(files := Push(f, s.history.files)))
    case PromptItem(p) => s.(history := s.history.(prompts := Push(p, s.history.prompts)))
  }

  /** Both histories are within the cap. */
  predicate Bounded(s: AppState) {
    |s.history.files| <= HistoryCap && |s.history.prompts| <= HistoryCap
  }

  /** Adding keeps the histories within the cap; the defaults start there. */
  lemma AddToHistoryBounded(s: AppState, item: HistoryItem)
    requires Bounded(s)
    ensures Bounded(AddToHistory(s, item))
    ensures Bounded(DefaultState)
  {
  }

  /** Pushing a run of items, oldest first. */
  function PushAll<T>(list: seq<T>, items: seq<T>): seq<T>
    decreases |items|
  {
    if |items| == 0 then list else PushAll(Push(items[0], list), items[1..])
  }

  function Reverse<T>(s: seq<T>): (r: seq<T>)
    ensures |r| == |s|
    ensures forall k :: 0 <= k < |s| ==> r[k] == s[|s| - 1 - k]
  {
    if |s| == 0 then []
    else
      var r := Reverse(s[1..]) + [s[0]];
      assert forall k :: 0 <= k < |s| - 1 ==> r[k] == s[1..][|s| - 2 - k];
      r
  }

  /** The first `n` entries, or all of them when there are fewer. */
  function Take<T>(s: seq<T>, n: nat): (r: seq<T>)
    ensures |r| == if |s| < n then |s| else n
  {
    if |s| < n then s else s[..n]
  }

  lemma TakeAfterPrefix<T>(a: seq<T>, x: T, b: seq<T>)
    ensures Take(a + Push(x, b), HistoryCap) == Take(a + [x] + b, HistoryCap)
  {
    var p := Push(x, b);
    assert p == Take([x] + b, HistoryCap);
    var lhs := Take(a + p, HistoryCap);
    var rhs := Take(a + [x] + b, HistoryCap);
    assert |lhs| == |rhs|;
    forall k | 0 <= k < |lhs|
      ensures lhs[k] == rhs[k]
    {
      if k >= |a| {
        assert lhs[k] == p[k - |a|];
        assert rhs[k] == ([x] + b)[k - |a|];
      }
    }
  }

  /**
    A history within the cap that receives a run of items holds the newest
    ten of them and of what it held before, newest first.
   */
  lemma {:induction false} PushAllNewestFirst<T>(list: seq<T>, items: seq<T>)
    requires |list| <= HistoryCap
    ensures PushAll(list, items) == Take(Reverse(items) + list, HistoryCap)
    decreases |items|
  {
    if |items| == 0 {
      assert Reverse(items) + list == list;
    } else {
      var rest := items[1..];
      PushAllNewestFirst(Push(items[0], list), rest);
      TakeAfterPrefix(Reverse(rest), items[0], list);
      assert Reverse(items) == Reverse(rest) + [items[0]];
      assert Reverse(rest) + [items[0]] + list == Reverse(items) + list;
    }
  }

  /** `clearHistory`: both histories empty, everything else kept. */
  function ClearHistory(s: AppState): (r: AppState)
    ensures |r.history.files| == 0 && |r.history.prompts| == 0
    ensures r.currentFile == s.currentFile && r.currentPrompt == s.currentPrompt
    ensures r.isGenerating == s.isGenerating && r.settings == s.settings
  {
    s.(history := History([], []))
  }

  /** Clearing twice is clearing once. */
  lemma ClearHistoryIdempotent(s: AppState)
    ensures ClearHistory(ClearHistory(s)) == ClearHistory(s)
  {
  }

  /** `toggleTheme`: dark becomes light and anything else becomes dark; nothing else changes. */
  function ToggleTheme(s: AppState): (r: AppState)
    ensures r.settings.theme != s.settings.theme
    ensures r.settings.temperature == s.settings.temperature
    ensures r.settings.analysisFocus == s.settings.analysisFocus
    ensures r.settings.processingOption == s.settings.processingOption
    ensures r.currentFile == s.currentFile && r.currentPrompt == s.currentPrompt
    ensures r.isGenerating == s.isGenerating && r.history == s.history
  {
    s.(settings := s.settings.(theme := if s.settings.theme == DarkTheme then LightTheme else DarkTheme))
  }

  /** Toggling twice gives back the state. */
  lemma ToggleThemeTwice(s: AppState)
    ensures ToggleTheme(ToggleTheme(s)) == s
  {
  }
}
