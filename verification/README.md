# CopyCoder, modelled in Dafny

CopyCoder is a Next.js application. A user uploads UI mockups, picks analysis settings and optional project information (name, author, description, custom prompt), and gets back a Markdown "UI Implementation Specification" to paste into a code generator. Around that flow sit:

- a theme switch that is remembered across reloads;
- a capped history of files and prompts;
- a searchable list of saved prompts;
- two mock logins: a magic link checked by an API route, and an in-memory verification code;
- a plain-JavaScript page loader with a progress bar.

This project models the logic of those pieces as pure functions over immutable values. It proves what the code promises about them.

- The clock, uuids, `Math.random()`, object URLs and timers are parameters.
- The browser's storage is a value passed in and returned.
- Each component or library file is one module:
  - `ImageUtils`, `MultiFileUpload`, `SingleUpload`, `AddPictures`, `Gallery`: the image collection;
  - `ControlPanel`, `ProjectInfo`, `PromptTemplate`, `PromptGenerator`, `PromptHook`, `PromptDisplay`: the prompt pipeline;
  - `Theme`, `AppShell`: the three page revisions;
  - `AppContext`, `PromptsSection`: the shared state and the saved prompts;
  - `AuthUtils`, `AuthService`: the two logins;
  - `Loader`: the page loader;
  - `Strings`: the JavaScript string operations they share.

Units chosen so that all arithmetic is exact:

- Upload progress is a `real`.
- The loader's progress is counted in half-percent units.
- Temperatures are in tenths.
- The clock is in milliseconds.

The generated specification is modelled by its structure, not its exact text: a title line, a list of sections (a heading plus body lines), and a trailer line. This covers which sections appear, in what order, and what they contain.

Where the code and its description differ, the model follows the code:

- `Home` (`app/page.tsx`) calls the generator without project information (`projectInfo` is `undefined`). Every generation there therefore ends in "Generation failed" (`AppShell.HomePageAlwaysFails`).
- A delete in the saved-prompts list also drops saved prompts that the search hides (`PromptsSection.DeleteKeepsOnlyShown`).
- The gallery's `activeIndex` is never clamped when the list shrinks (`Gallery.RemovingActiveLastFails`).
- The multi-file upload hook's unmount cleanup revokes nothing, so every object URL live at teardown leaks (`MultiFileUpload.UnmountLeaksUrls`, Finding 4).
- `removeImage` in `components/add-pictures.tsx` (lines 36-40) drops the picture without revoking its object URL, and nothing else in that component revokes one. `AddPictures.RemoveImage` keeps that behaviour.

## Model

| member | source | states |
|---|---|---|
| ImageUtils.ValidateFile | lib/image-utils.ts:5-24 | A file is valid iff its size is at most 10485760 bytes and its type starts with "image/"; the size check comes first; a file of exactly the limit passes |
| ImageUtils.Message | lib/image-utils.ts:14-21 | An oversized file's message starts with "File size exceeds 10MB limit"; a wrong type gives "Only image files are allowed" |
| ImageUtils.SizeCheckFirst | lib/image-utils.ts:14-21 | An oversized non-image is reported for its size, never with the type message |
| ImageUtils.CreateUploadedImage | lib/image-utils.ts:46-57 | The record copies name, size and type, takes the given id and URL, and is complete at 100% |
| ImageUtils.Reports | lib/image-utils.ts:65-80 | The reported progress values never decrease, stay within [start, 100], and all but the last are below 100 |
| ImageUtils.ReportsFinishIff | lib/image-utils.ts:65-80 | The reports end with exactly 100 iff the random increments reach 100; otherwise there is one report per increment |
| ImageUtils.SimulateImageUpload | lib/image-utils.ts:65-80 | From 0: non-decreasing reports, every one but the last below 100 |
| ImageUtils.RevokedUrls | lib/image-utils.ts:86-92 | Exactly the images' URLs that start with "blob:" are revoked, in the images' order and once per such image (a subsequence of the URLs as long as the number of "blob:" images) |
| MultiFileUpload.NewEntry | hooks/use-multi-file-upload.ts:75-78 | A new entry copies the file's fields and starts at progress 0, status uploading |
| MultiFileUpload.AcceptedCount | hooks/use-multi-file-upload.ts:62-81 | A batch yields one entry per valid file and one refusal per invalid file |
| MultiFileUpload.HandleFilesUpload | hooks/use-multi-file-upload.ts:49-108 | Over the cap, the whole batch is refused with "Too many files" (invalid files count) and nothing changes. Otherwise the valid files are appended in order after the unchanged entries, as uploading at 0, with one "Upload failed" per invalid file |
| MultiFileUpload.UpdateImageProgress | hooks/use-multi-file-upload.ts:41-47 | Only entries with the id change: they get the progress, and status complete iff progress is 100, else uploading |
| MultiFileUpload.ApplyReportsCompletes | hooks/use-multi-file-upload.ts:41-88 | After a report stream ending at 100, the entry is complete at 100 and every other entry is unchanged |
| MultiFileUpload.UploadLifecycle | hooks/use-multi-file-upload.ts:75-88 | An accepted file is appended as uploading and ends complete at 100 once its simulated upload finishes; the earlier entries are untouched |
| MultiFileUpload.MarkUploadFailed | hooks/use-multi-file-upload.ts:93-97 | Only entries with the id become status error with error "Upload failed" |
| MultiFileUpload.RemoveImage | hooks/use-multi-file-upload.ts:110-118 | Entries with the id are dropped; every other entry keeps its order and its number of occurrences. The first match's URL, if non-empty, is revoked. An absent id changes nothing |
| MultiFileUpload.RemoveImageIdempotent | hooks/use-multi-file-upload.ts:110-118 | Removing an id twice is removing it once, and the second removal revokes nothing |
| MultiFileUpload.ClearAllImages | hooks/use-multi-file-upload.ts:120-123 | The collection ends empty, and exactly its "blob:" URLs are revoked, in order and once per image |
| MultiFileUpload.Unmount | hooks/use-multi-file-upload.ts:15-20 | The intended unmount cleanup revokes exactly the "blob:" URLs live at teardown, in order and once per image |
| MultiFileUpload.UnmountAsWritten | hooks/use-multi-file-upload.ts:15-20 | The cleanup as written keeps the first render's empty collection and revokes nothing |
| MultiFileUpload.UnmountLeaksUrls | hooks/use-multi-file-upload.ts:15-20 | A "blob:" URL live at teardown stays unrevoked as written, and is revoked by the intended cleanup, as by `clearAllImages` |
| MultiFileUpload.ClearAllImagesTwice | hooks/use-multi-file-upload.ts:120-123 | Clearing an emptied collection revokes nothing more |
| MultiFileUpload.RemoveThenClearRevokes | hooks/use-multi-file-upload.ts:110-123 | After a removal, clearing still revokes the "blob:" URL of every image the removal kept |
| MultiFileUpload.HandleDrop | hooks/use-multi-file-upload.ts:31-39 | A drop that goes through the current upload handler keeps a collection within the cap within it |
| MultiFileUpload.HandleDropAsWritten | hooks/use-multi-file-upload.ts:31-52 | The memoised drop handler checks the cap against the batch alone and appends to the current collection |
| MultiFileUpload.DropOverflowsCap | hooks/use-multi-file-upload.ts:10-52 | With 10 images present, one valid dropped file makes 11 as written; the intended handler refuses it |
| SingleUpload.LiveUrl | hooks/use-file-upload.ts:49-66 | A URL is revoked only for a present file with a non-empty URL |
| SingleUpload.HandleFileUpload | hooks/use-file-upload.ts:34-63 | A refused file leaves the slot and raises "Upload failed" with the message. An accepted file takes the slot, revoking the previous file's URL exactly when there was one |
| SingleUpload.HandleDrop | hooks/use-file-upload.ts:24-32 | Only the first dropped file is uploaded, and a replaced file's URL is revoked; an empty drop changes nothing |
| SingleUpload.HandleDropAsWritten | hooks/use-file-upload.ts:24-51 | The memoised drop handler sees an empty slot, so it never revokes anything, though the slot and notice are as intended |
| SingleUpload.DropLeaksReplacedUrl | hooks/use-file-upload.ts:24-51 | Dropping over a file with a URL revokes nothing as written; the intended handler revokes the old URL |
| SingleUpload.RemoveFile | hooks/use-file-upload.ts:65-70 | No file or no URL: nothing changes. Otherwise the URL is revoked and the slot emptied |
| SingleUpload.ReplaceThenRemove | hooks/use-file-upload.ts:48-70 | Replacing a file and removing the new one revokes both URLs in turn and leaves the slot empty |
| AddPictures.MakePicture | components/add-pictures.tsx:20-27 | An entry copies name, size and type, keeps its URL, and has status "uploaded" |
| AddPictures.HandleFileInputChange | components/add-pictures.tsx:18-34 | An empty selection reports nothing. Otherwise every selected file is appended, in order and without validation or cap, after the unchanged entries |
| AddPictures.RemoveImage | components/add-pictures.tsx:36-40 | An index in range drops exactly that one picture from the multiset of pictures; an index past the end changes nothing |
| AddPictures.RemoveImageExactlyOne | components/add-pictures.tsx:36-40 | An index in range removes exactly that entry, the rest in order. An index past the end changes nothing. A negative index counts from the end |
| AddPictures.AppendThenRemoveLast | components/add-pictures.tsx:18-40 | Removing the entry just appended gives back the earlier list |
| Strings.SpliceOne | components/add-pictures.tsx:38 | `splice(index, 1)`: the start index as JavaScript computes it, and the result without that one element |
| Gallery.Next | components/image-gallery.tsx:27-29 | The next index is always inside the gallery; from an index inside it, one step up, with the last wrapping to 0 |
| Gallery.Previous | components/image-gallery.tsx:31-33 | The previous index is always inside the gallery; from an index inside it, one step down, with 0 wrapping to the last |
| Gallery.NextValue | components/image-gallery.tsx:27-29 | `goToNext` moves to the following index and wraps from the last to 0 |
| Gallery.PreviousValue | components/image-gallery.tsx:31-33 | `goToPrevious` moves to the preceding index and wraps from 0 to the last |
| Gallery.NextPreviousInverse | components/image-gallery.tsx:27-33 | Next then previous, and previous then next, give back the index |
| Gallery.NextTimesValue | components/image-gallery.tsx:28 | k steps forward from i land on i + k, wrapped once |
| Gallery.NextCycle | components/image-gallery.tsx:28 | n steps forward return to the start |
| Gallery.Render | components/image-gallery.tsx:20-98 | Nothing is rendered iff the list is empty. The active image is shown iff the index is in range. Navigation appears iff there is more than one image |
| Gallery.NavigationStaysRenderable | components/image-gallery.tsx:27-33 | Any index reached by navigation is in range |
| Gallery.RemovingActiveLastFails | components/image-gallery.tsx:20-25 | The index is not clamped: removing the last image while it is active leaves no image to show |
| ControlPanel.InitialOffered | components/control-panel.tsx:20-56 | The initial settings are 0.7, "web", "standard", all among the offered options |
| ControlPanel.ChooseFocus | components/control-panel.tsx:79 | Choosing a focus changes only the focus |
| ControlPanel.ChooseTemperature | components/control-panel.tsx:102-107 | Moving the slider (0 to 1 in tenths) changes only the temperature |
| ControlPanel.ChooseProcessing | components/control-panel.tsx:127 | Choosing a processing option changes only that option |
| ControlPanel.ChoicesStayOffered | components/control-panel.tsx:20-127 | Any run of choices made through the controls keeps the settings among the offered values |
| ControlPanel.GenerateDisabled | components/control-panel.tsx:150 | Generate is enabled iff not generating and there are images |
| AppShell.EnabledButtonPassesImageGate | app/actual-app.tsx:136-146 | A click on an enabled button never meets the "No images uploaded" gate; the button is disabled while the generator runs and enabled again after |
| ControlPanel.Badge | components/control-panel.tsx:141-145 | The badge appears iff there are images and reads "image" for exactly one, "images" otherwise |
| ProjectInfo.With | components/project-info-form.tsx:33-35 | Setting a field by name sets that field and keeps the other three |
| ProjectInfo.WithCommutes | components/project-info-form.tsx:33-35 | Edits to different fields commute |
| ProjectInfo.WithTwice | components/project-info-form.tsx:33-35 | A later edit of the same field overrides an earlier one |
| ProjectInfo.InitialFormInfo | components/project-info-form.tsx:24-31 | The form starts from `initialInfo` if given, else with all four fields empty |
| ProjectInfo.FormHandleChange | components/project-info-form.tsx:33-38 | A change sets only the named field and reports the updated record at once |
| ProjectInfo.FormRetypeUnchanged | components/project-info-form.tsx:33-38 | Re-entering a field's current value reports the same record |
| ProjectInfo.SectionInit | components/project-info-section.tsx:19 | Definition of the one-line initial state (the buffer is the prop); the properties are in SaveAfterEdits and ResyncDiscardsEdits |
| ProjectInfo.SectionResync | components/project-info-section.tsx:21-23 | When the `projectInfo` prop changes, the buffer becomes the new prop, whatever was typed before |
| ProjectInfo.SectionEdit | components/project-info-section.tsx:25-29 | An edit updates only the named field of the buffer |
| ProjectInfo.SectionSave | components/project-info-section.tsx:31-33 | Definition of the one-line handler (Save reports the buffer); the properties are in SaveAfterEdits and ResyncDiscardsEdits |
| ProjectInfo.SaveAfterEdits | components/project-info-section.tsx:25-33 | A field no edit touched is saved as it was |
| ProjectInfo.ResyncDiscardsEdits | components/project-info-section.tsx:21-33 | A new prop overwrites unsaved edits: saving then reports the prop |
| PromptTemplate.Lines | lib/prompt-generator.ts:28-185 | The document starts with its title line and ends with its trailer line |
| PromptTemplate.TextLines | lib/prompt-generator.ts:28-185 | Splitting the text at line breaks gives back the lines |
| PromptTemplate.FixedSections | lib/prompt-generator.ts:51-160 | Every specification has the same eight fixed sections |
| PromptGenerator.FixedSectionsHeadings | lib/prompt-generator.ts:51-154 | The fixed sections are, in order, Layout Structure through Implementation Notes |
| PromptGenerator.OrDefault | lib/prompt-generator.ts:18-20 | An empty field falls back to its default; a non-empty one is used verbatim |
| PromptGenerator.ImageIds | lib/prompt-generator.ts:15 | `imageIds` lists the images' ids in order |
| PromptGenerator.ImageTextSingular | lib/prompt-generator.ts:25 | "the uploaded mockup" iff exactly one image, else "the N uploaded mockups" |
| PromptGenerator.OverviewLineParts | lib/prompt-generator.ts:31 | The overview line opens with the mockup phrase, names the description, and ends with the author |
| PromptGenerator.OverviewLineShape | lib/prompt-generator.ts:18-31 | An empty author reads "Anonymous" and an empty description "A web application"; non-empty ones appear verbatim |
| PromptGenerator.GeneratedOverview | lib/prompt-generator.ts:15-31 | The generated document's first section is the overview, whose one line carries the mockup phrase for the image count and the author and description fallbacks |
| PromptGenerator.TemperatureText | lib/prompt-generator.ts:185 | Every slider value prints as JavaScript prints it: 0 as "0", 1 as "1", and t tenths in between as "0.t" |
| PromptGenerator.TemperatureTextWhole | lib/prompt-generator.ts:185 | A whole temperature prints as decimal digits that read back as the number |
| PromptGenerator.SummaryLines | lib/prompt-generator.ts:43 | One "- **Image i**: name - phrase" line per image, i from 1, in input order |
| PromptGenerator.CustomPart | lib/prompt-generator.ts:33-40 | A Custom Requirements section iff the custom prompt is non-empty |
| PromptGenerator.SummaryPart | lib/prompt-generator.ts:41-48 | The summary and consolidated sections iff more than one image |
| PromptGenerator.PerformancePart | lib/prompt-generator.ts:161-171 | A Performance Optimization section iff processing is "expert" |
| PromptGenerator.AnimationPart | lib/prompt-generator.ts:173-183 | An Animation Guidelines section iff processing is "enhanced" or "expert" |
| PromptGenerator.GeneratePrompt | lib/prompt-generator.ts:6-193 | Without project information (`projectInfo` undefined) the promise is rejected; empty fields do not reject. Otherwise `imageIds` are the image ids in order, the title names the project (or "Unnamed Project"), the first section is the overview line built from the mockup phrase, the description (or "A web application") and the author (or "Anonymous"), the sections are exactly the template's `Sections` for those inputs, and the trailer carries temperature, processing and image count |
| PromptGenerator.SectionHeadings | lib/prompt-generator.ts:28-183 | The section order: overview, custom, summary and consolidated, the fixed eight, performance, animation |
| PromptGenerator.ExpectedHeadingsPresence | lib/prompt-generator.ts:33-183 | Each optional heading is present iff its condition holds; the fixed ones always are |
| PromptGenerator.SectionPresence | lib/prompt-generator.ts:33-183 | In a generated document each optional section is present iff its condition holds, and every fixed section is present |
| PromptGenerator.SectionContents | lib/prompt-generator.ts:33-47 | In the sections a generated document holds, the custom section holds the custom text and the summary section holds the per-image lines |
| PromptGenerator.MockGeneratePrompt | hooks/use-prompt-generator.ts:9-137 | The mock's title names the focus, its trailer reports temperature and processing, and it has none of the optional sections |
| PromptGenerator.MockMatchesGeneratorHeadings | hooks/use-prompt-generator.ts:20-136 | The mock has the headings the generator gives one image with standard processing and no custom text |
| PromptHook.Generate | hooks/use-prompt-generator.ts:144-186 | An empty id gives "No image selected", returns null and changes nothing. Otherwise the flag is set and the prompt cleared during the call; afterwards the flag is reset and the prompt is what was returned, null exactly on failure |
| PromptHook.StoredPromptIsMock | hooks/use-prompt-generator.ts:155-170 | A stored prompt is the mock's document for that one image |
| PromptDisplay.FormatLine | components/prompt-display.tsx:38-58 | Each marker picks its fragment and drops exactly its own length. A blank line is a spacer. Anything else, "####" and "#x" included, is a paragraph |
| PromptDisplay.FormatLineRoundTrip | components/prompt-display.tsx:38-58 | Nothing but the marker is lost: each line is recoverable from its fragment, except blank ones |
| PromptDisplay.OtherHashLinesAreParagraphs | components/prompt-display.tsx:40-57 | A "#" line that is no heading marker is a paragraph, unchanged |
| PromptDisplay.HtmlKeepsText | components/prompt-display.tsx:41-57 | No escaping: the text appears verbatim in the HTML |
| PromptDisplay.RenderAppend | components/prompt-display.tsx:36-60 | The output is the fragments concatenated in line order, with no separator |
| PromptDisplay.FormatMarkdown | components/prompt-display.tsx:35-61 | Text without a line break renders as the single fragment of that line |
| PromptDisplay.FormatMarkdownLineBreak | components/prompt-display.tsx:36-60 | A first line contributes its own fragment, and the rest renders on its own |
| PromptDisplay.FormatDocument | components/prompt-display.tsx:36-60 | A generated document renders as its title's fragment followed by the rest |
| PromptDisplay.GeneratedTitleIsH1 | components/prompt-display.tsx:40-41 | The generator's title renders as an h1 |
| PromptDisplay.HandleCopy | components/prompt-display.tsx:20-32 | Copy acts iff the content is non-empty, and copies it verbatim |
| PromptDisplay.CopyGeneratedDocument | components/prompt-display.tsx:20-32 | Copying a generated specification always acts and copies its whole text, which is never empty |
| Theme.SaveTheme | app/actual-app.tsx:31-37 | The theme key holds the JSON string "dark" or "light"; other keys are untouched |
| Theme.SafeGet | app/actual-app.tsx:21-29 | A missing, empty or unparsable item gives the fallback; otherwise the parsed value |
| Theme.LoadTheme | app/actual-app.tsx:115-118 | Dark iff the value read is "dark", and a missing or empty value reads as dark |
| Theme.SaveLoadRoundTrip | app/actual-app.tsx:110-118 | Loading what was saved gives back the mode |
| Theme.WrittenCookiePair | components/dynamic-app.tsx:61-65 | The name=value pair is what precedes the cookie's attributes |
| Theme.FindCookie | components/dynamic-app.tsx:34-35 | The first cookie with the prefix, or none iff no cookie has it |
| Theme.CookieValue | components/dynamic-app.tsx:37 | The value is the text between the first and the second "=" |
| Theme.DecodeNamed | components/dynamic-app.tsx:31-41 | Light exactly when a cookie with the name is found and its value is "light"; no such cookie gives dark |
| Theme.DecodeCookie | components/dynamic-app.tsx:31-41 | `DynamicApp` starts light exactly when the first trimmed `copycoder-theme=` cookie holds "light", and dark otherwise, a missing cookie included |
| Theme.DecodeFound | components/dynamic-app.tsx:36-38 | A found cookie gives light exactly for the value "light" |
| Theme.CookieRoundTrip | components/dynamic-app.tsx:31-67 | A jar holding the written pair, after any other cookies, decodes to the mode written |
| Theme.JarPieces | components/dynamic-app.tsx:34 | Joining cookies without ";" and splitting at ";" gives them back |
| AppShell.MaxFiles | app/page.tsx:116 | `Home` gives its upload area a cap of 10, and `ActualApp` and `DynamicApp` a cap of 50 |
| AppShell.UploadIntoPage | app/actual-app.tsx:195 | A page hands its upload area its own cap (50 here, 10 in `Home`); a collection within the cap stays within it, and a batch that would pass it is refused whole with "Too many files" |
| AppShell.HomePageCapsAtTen | app/page.tsx:116 | With ten images present, a further valid image dropped through the current upload handler is refused in `Home` and accepted in the two revisions that allow fifty (the file input refuses it too, by `UploadIntoPage`). The drop handler as written lets it into `Home`, making eleven (Finding 1) |
| AppShell.InitialState | app/actual-app.tsx:67-76 | Nothing is uploaded or generated, the flag is clear and the project information is blank |
| AppShell.ActualAppThemeSurvivesReload | app/actual-app.tsx:110-118 | With the preference read before anything is saved, a reload restores the saved mode |
| AppShell.ActualAppMountAsWritten | app/actual-app.tsx:67-118 | As written, the save effect runs first and stores "dark", so the page always comes up dark |
| AppShell.ActualAppForgetsLightTheme | app/actual-app.tsx:67-118 | A saved light theme is lost as written and kept by the intended order |
| AppShell.DynamicAppThemeSurvivesReload | components/dynamic-app.tsx:31-67 | A reload restores the mode whose cookie the browser kept |
| AppShell.HomePageForgetsTheme | app/page.tsx:29 | `Home` always starts dark |
| AppShell.ToggleTheme | app/actual-app.tsx:121-123 | Only the mode changes, to its opposite |
| AppShell.ToggleThemeTwice | components/dynamic-app.tsx:70-72 | Toggling twice is the identity |
| AppShell.HandleGeneratePrompt | app/actual-app.tsx:136-184 | Empty gives "No images uploaded"; then any uploading gives "Images still uploading", both with no state change. Otherwise the flag is set and the prompt cleared during the call, and the flag is reset after. The prompt is stored exactly on success, and failure says "Generation failed" |
| AppShell.GeneratedPromptCoversImages | components/dynamic-app.tsx:107-118 | A successful run stores the generator's prompt for exactly the uploaded images and reports their number |
| AppShell.HomePageAlwaysFails | app/page.tsx:81-102 | `Home` passes `projectInfo` undefined, so every run past the gate fails and resets the flag |
| AppShell.HandlerIgnoresFlag | app/page.tsx:59-105 | The handler never tests `isGenerating` |
| AppShell.FlagResetAfterRun | app/page.tsx:81-102 | The flag is set during a run and clear after it |
| AppContext.DefaultsAgreeWithControlPanel | context/app-context.tsx:9-26 | Dark, 0.7, web, standard, nothing current, not generating, empty histories |
| AppContext.SetCurrentFile | context/app-context.tsx:70-72 | Only the current file changes |
| AppContext.SetCurrentPrompt | context/app-context.tsx:74-76 | Only the current prompt changes |
| AppContext.SetIsGenerating | context/app-context.tsx:78-80 | Only the flag changes |
| AppContext.SettersIndependent | context/app-context.tsx:70-80 | The three setters commute with each other, and of two calls to one setter the later wins |
| AppContext.UpdateSettings | context/app-context.tsx:82-87 | Supplied fields are taken, absent ones kept, and nothing outside the settings changes |
| AppContext.EmptyPatchIsIdentity | context/app-context.tsx:82-87 | An empty patch changes nothing |
| AppContext.UpdateSettingsCombine | context/app-context.tsx:82-87 | Two patches act as one in which the later patch's fields win |
| AppContext.Push | context/app-context.tsx:97-106 | The head is the item, the tail is a prefix of the old list, and the length is min(old + 1, 10) |
| AppContext.AddToHistory | context/app-context.tsx:89-111 | A file goes to the front of the files and a prompt to the front of the prompts; the other list and all other fields are unchanged |
| AppContext.AddToHistoryBounded | context/app-context.tsx:97-106 | Both histories stay within 10 entries |
| AppContext.PushAllNewestFirst | context/app-context.tsx:97-106 | After a run of additions a history holds the newest ten items, newest first |
| AppContext.ClearHistory | context/app-context.tsx:113-118 | Both histories empty, everything else unchanged |
| AppContext.ClearHistoryIdempotent | context/app-context.tsx:113-118 | Clearing twice is clearing once |
| AppContext.ToggleTheme | context/app-context.tsx:120-144 | The theme swaps and nothing else changes |
| AppContext.ToggleThemeTwice | context/app-context.tsx:120-144 | Toggling twice is the identity |
| PromptsSection.InitialSaved | components/prompts-section.tsx:16 | Definition of the one-line initial state: the prompt passed in, if any, else nothing |
| PromptsSection.Samples | components/prompts-section.tsx:19-30 | The two built-in samples |
| PromptsSection.Filter | components/prompts-section.tsx:33-35 | The shown entries are an order-preserving subsequence, and an entry is shown iff it matches the lower-cased query |
| PromptsSection.EmptyQueryKeepsAll | components/prompts-section.tsx:33-35 | An empty search shows everything |
| PromptsSection.FilterAppend | components/prompts-section.tsx:33 | Saved entries are shown before samples |
| PromptsSection.DeletePrompt | components/prompts-section.tsx:49-53 | After a delete the saved list holds no sample |
| PromptsSection.DeleteKeepsOnlyShown | components/prompts-section.tsx:49-53 | Only saved entries the search shows survive a delete |
| PromptsSection.DeleteWithoutSearch | components/prompts-section.tsx:49-53 | With no search, deleting a saved entry removes exactly it and deleting a sample keeps the saved list |
| AuthUtils.RoleFor | lib/auth-utils.ts:21 | Admin iff the email contains "admin" or "rowdy" |
| AuthUtils.GenerateVerificationToken | lib/auth-utils.ts:15-40 | An unknown email gets a new user and a known one keeps its record. The email's token is replaced by one expiring 15 minutes later |
| AuthUtils.VerifyToken | lib/auth-utils.ts:45-75 | Checks run in order: an entry, the token, the expiry, the user. A mismatch keeps the entry, expiry deletes it, and success deletes it and returns the user |
| AuthUtils.IssuedLinkVerifies | lib/auth-utils.ts:15-75 | A link followed within 15 minutes logs in the email's user |
| AuthUtils.ExpiryIsInclusive | lib/auth-utils.ts:29-59 | The expiry instant passes and one millisecond later does not |
| AuthUtils.SingleUse | lib/auth-utils.ts:71-74 | After success the same link is invalid |
| AuthUtils.ExpiredThenInvalid | lib/auth-utils.ts:59-63 | After expiry a retry is an invalid link |
| AuthUtils.WrongTokenKeepsEntry | lib/auth-utils.ts:54-56 | A wrong token neither logs in nor uses up the entry |
| AuthUtils.ConsistentPreserved | lib/auth-utils.ts:15-75 | Every token belongs to a user filed under its email, before and after each operation |
| AuthUtils.UserAlwaysFound | lib/auth-utils.ts:66-69 | With consistent records, "User not found" never happens |
| AuthUtils.EncodeQuery | app/api/auth/verify/route.ts:19 | The error in the URL has no raw spaces, and text without special characters is kept as it is |
| AuthUtils.VerifyRoute | app/api/auth/verify/route.ts:4-27 | A missing or empty parameter goes to "/?error=invalid_link" without a check. An invalid result goes to "/?error=" plus the error. A valid one creates the session and goes to "/?login=success" |
| AuthUtils.SessionIffSuccess | app/api/auth/verify/route.ts:11-26 | A session is created exactly when the redirect is the success page |
| AuthUtils.IssuedLinkRedirectsToSuccess | app/api/auth/verify/route.ts:16-26 | An issued link followed in time logs in, redirects to success and uses the token up |
| AuthService.IsValidEmail | lib/auth-service.ts:146-149 | The scan accepts exactly the strings matching `^[^\s@]+@[^\s@]+\.[^\s@]+$` |
| AuthService.EmailAtFacts | lib/auth-service.ts:147 | A match has no whitespace, exactly one "@" that is not first, and a "." strictly inside the domain |
| AuthService.EmailPatternExamples | lib/auth-service.ts:146-149 | "a@b.c" matches and the empty string does not |
| AuthService.GenerateVerificationCode | lib/auth-service.ts:141-144 | The code is the decimal text of floor(100000 + r * 900000) for the draw r: all digits, reading back as that number |
| AuthService.CodeIsSixDigits | lib/auth-service.ts:141-144 | A code is six decimal digits, without a leading zero, of a number in [100000, 999999] |
| AuthService.RequestEmailLogin | lib/auth-service.ts:17-36 | An empty or non-matching email gets "Please enter a valid email address" with no change. Otherwise the email's code is set, replacing any earlier one |
| AuthService.NewUser | lib/auth-service.ts:53-58 | The user gets the fresh id, the email, and admin iff the email contains "admin" or "rowdy" |
| AuthService.VerifyEmailLogin | lib/auth-service.ts:39-68 | No code or a wrong code gives "Invalid verification code" with no change. Success deletes the code and authenticates the new user |
| AuthService.AutoVerifyForDemo | lib/auth-service.ts:71-91 | Any email is authenticated with the same role rule |
| AuthService.LogIn | lib/auth-service.ts:132-139 | The user is set in memory and in the session, with a mock token |
| AuthService.Logout | lib/auth-service.ts:93-102 | The user and flag are cleared in memory and in the session; the codes stay |
| AuthService.LogoutIdempotent | lib/auth-service.ts:93-102 | Logging out twice is logging out once |
| AuthService.GetCurrentUser | lib/auth-service.ts:104-126 | The user in memory, or else the session's user, which is taken into memory |
| AuthService.IsLoggedIn | lib/auth-service.ts:128-130 | Logged in iff there is a user in memory or in the session; a positive answer leaves the user in memory, and a negative one changes nothing |
| AuthService.IsLoggedInIffUser | lib/auth-service.ts:128-130 | `isLoggedIn` holds iff `getCurrentUser` finds a user |
| AuthService.CoherentPreserved | lib/auth-service.ts:12-117 | The flag agrees with the user in memory, and that user is the session's, under every operation |
| AuthService.LoggedOutStaysOut | lib/auth-service.ts:93-130 | After logout nobody is logged in, even after a reload |
| AuthService.RequestedCodeLogsInOnce | lib/auth-service.ts:26-67 | A requested code logs its email in, survives a reload, and then fails a second time |
| AuthService.WrongCodeKeepsCode | lib/auth-service.ts:43-47 | A wrong code changes nothing and the right code still works |
| Loader.Tick | public/client-app.js:196-198 | A tick adds 5% below 50%, 2% below 80% and 0.5% otherwise, and never passes 90% |
| Loader.StartProgressBar | public/client-app.js:179-208 | With a bar, progress and width go to 0 and a fresh interval runs |
| Loader.TickEvent | public/client-app.js:194-207 | One firing ticks and stops the interval once 90% is reached |
| Loader.TicksFromZero | public/client-app.js:184-207 | From 0, the closed form for the counter after n ticks; still running before the 45th |
| Loader.ShownLoaderStopsAfter45 | public/client-app.js:146-207 | A shown loader reaches 90% in exactly 45 ticks and then stays put |
| Loader.RunToCap | public/client-app.js:194-207 | The values shown increase strictly, stay within 90%, and the last is 90%; from 0 there are 45 |
| Loader.ShowLoader | public/client-app.js:146-163 | With the overlay and texts, the loader is on with both messages recorded and the bar restarted; without them nothing changes |
| Loader.HideLoader | public/client-app.js:166-176 | With the overlay, the loader is off and the bar completed |
| Loader.CompleteProgressBar | public/client-app.js:211-223 | The interval stops and the bar shows 100%; the counter is left as it was |
| Loader.ResetBar | public/client-app.js:226-229 | The pending timeout empties the bar |
| Loader.ShowThenHide | public/client-app.js:146-236 | Hiding stops the ticks and fills the bar; the later reset empties it |
| Loader.SetButtonLoading | public/client-app.js:275-287 | Loading disables the button with the loader markup; done re-enables it with the text; no button, no change |
| Loader.ButtonLoadingRoundTrip | public/client-app.js:278-286 | Loading then done gives an enabled button showing the text |

## Left out

- The DOM: class and colour-scheme toggling, `innerHTML`, focus, animations and clipboard writes. The models keep the state those handlers compute.
- Toast titles and descriptions. Only their kind is kept, plus the few messages the properties mention.
- Timers and artificial latencies. An asynchronous handler is its state during the awaited call and its state afterwards. Two handlers interleaving is not modelled.
- `formatFileSize` and `resizeImageForPreview` (lib/image-utils.ts:31-39,100-130). They are logarithms, `toFixed` and canvas drawing; the size message is a parameter.
- `validateFile` and `createUploadedFile` of the single-file hook, and `createGeneratedPrompt` of the prompt hook. They are imported from lib/utils.ts, which does not define them, so their results are parameters.
- `PromptTemplate.FixedSections`: the fixed sections' body lines are stored text. The blank-line layout between sections is not modelled.
- `PromptGenerator.TemperatureText`: the rendering covers the tenths 0..10 the slider produces, not every JavaScript number.
- Local-storage load and save of the whole application state (context/app-context.tsx:45-67). This is JSON of a whole record.
- `SettingsPatch` fields that are present but explicitly `undefined`. The spread would copy the `undefined`; the model has only supplied or absent.
- `Strings.ToLower` is the ASCII mapping. Unicode case folding beyond ASCII is not modelled, so search results may differ for non-ASCII text.
- `AuthUtils.EncodeQuery` covers the characters the three error messages can contain. Non-ASCII percent-encoding and "#" are not modelled.
- `AuthUtils.GenerateVerificationToken`: the expiry is "now plus 15 minutes" in milliseconds. The wall-clock effect of `setMinutes` across a daylight-saving change is not modelled.
- Prototype keys: emails such as "constructor" look up inherited properties in the plain-object stores of lib/auth-utils.ts. The model's maps have no such keys.
- `createSession`, `getCurrentUser` and `clearSession` of lib/auth-utils.ts (cookies), the nodemailer action, and the logout route. They are network and cookie I/O; the route reports the user a session is made for.
- The server side of lib/auth-service.ts, where `typeof window` is "undefined" and session storage is skipped. The model is the browser case.
- `AuthService.CodeIsSixDigits`: `Math.random() * 900000` is computed in exact reals rather than doubles. The bound holds in doubles too, but that is not proved.
- `JSON.parse` of the session user. The session holds the user record itself, so a corrupt entry (the catch branch of `getCurrentUser`) is not modelled.
- `simulateLoadingProcess`, `simulateInitialLoading` and the event wiring of public/client-app.js. They are timers around `showLoader`/`hideLoader` and the same bar reset as `ResetBar`.
- A `ResetBar` timeout that fires after a new `showLoader` is not modelled; the model applies it only when asked.

## Findings

| source | as written | input that shows it | evidently intended | confidence | as-written member | corrected member |
|---|---|---|---|---|---|---|
| hooks/use-multi-file-upload.ts:31-39 | `handleDrop` is memoised with no dependencies, so it calls the first render's `handleFilesUpload`, which sees zero images: the cap is checked against the batch alone | 10 images present, maxFiles 10, one valid image dropped: the collection grows to 11 | dropped files are counted with the images already there, as the file-input path does | medium, not executed | MultiFileUpload.DropOverflowsCap | MultiFileUpload.HandleDrop |
| hooks/use-file-upload.ts:24-32 | `handleDrop` is memoised with no dependencies, so the `handleFileUpload` it calls sees `file` as null and never revokes the replaced file's object URL | a file with a blob URL in the slot, a valid image dropped over it: the old URL is never revoked | the replaced file's URL is revoked, as an upload through the input does | medium, not executed | SingleUpload.DropLeaksReplacedUrl | SingleUpload.HandleDrop |
| app/actual-app.tsx:100-118 | the effect that saves the theme is declared before the one that loads it, so on mount it writes the initial "dark" before the stored preference is read | "light" saved, then the page reloaded: it comes up dark and "dark" is stored | a reload restores the saved preference | high, not executed | AppShell.ActualAppForgetsLightTheme | AppShell.ActualAppThemeSurvivesReload |
| hooks/use-multi-file-upload.ts:15-20 | the unmount cleanup is registered with no dependencies, so it keeps the first render's `images`, which is empty, and `revokeImageUrls([])` revokes nothing | two images with "blob:" URLs uploaded, then the component unmounted: neither URL is revoked | every object URL live at teardown is revoked, as the comment above the effect says | medium, not executed | MultiFileUpload.UnmountLeaksUrls | MultiFileUpload.Unmount |
