/**
  The `usePromptGenerator` hook of `hooks/use-prompt-generator.ts`: a prompt
  slot, a busy flag and `generatePrompt(imageId, options)`, which runs the
  mock generator and wraps its text with `createGeneratedPrompt`.

  `createGeneratedPrompt` is imported from `lib/utils.ts`, which does not
  define it, so it is the parameter `create`; `None` stands for a call that
  throws.
 */
module PromptHook {
  import opened Strings
  import opened PromptTemplate
  import opened PromptGenerator

  datatype HookState = HookState(prompt: Option<GeneratedPrompt>, isGenerating: bool)

  const InitialHookState: HookState := HookState(None, false)

  datatype HookNotice = NoImageSelected | Generated | Failed

  /** The state while the mock runs (absent on an early return), the final state, the value returned and the notice. */
  datatype HookRun = HookRun(during: Option<HookState>, after: HookState, returned: Option<GeneratedPrompt>, notice: HookNotice)

  /** `generatePrompt(imageId, options)` */
  function Generate(s: HookState, imageId: string, options: MockOptions, generatedAt: string,
                    create: (Document, string) -> Option<GeneratedPrompt>): (run: HookRun)
    ensures imageId == "" ==> run == HookRun(None, s, None, NoImageSelected)
    ensures imageId != "" ==>
      run.during == Some(HookState(None, true))
      && run.after == HookState(run.returned, false)
      && run.returned == create(MockGeneratePrompt(options, generatedAt), imageId)
      && (run.notice == Failed <==> run.returned.None?)
      && run.notice != NoImageSelected
  {
    if imageId == "" then HookRun(None, s, None, NoImageSelected)
    else
      var created := create(MockGeneratePrompt(options, generatedAt), imageId);
      HookRun(Some(HookState(None, true)), HookState(created, false), created,
              if created.Some? then Generated else Failed)
  }

  /** `createGeneratedPrompt` keeps the content it is given and records the one image. */
  ghost predicate KeepsContent(create: (Document, string) -> Option<GeneratedPrompt>) {
    forall d, imageId :: create(d, imageId).Some? ==>
      create(d, imageId).value.document == d && create(d, imageId).value.imageIds == [imageId]
  }

  /**
    A prompt stored by a request is the mock's specification: its title names the focus,
    its trailer reports temperature and processing, and it has none of the
    optional sections.
   */
  lemma StoredPromptIsMock(s: HookState, imageId: string, options: MockOptions, generatedAt: string,
                           create: (Document, string) -> Option<GeneratedPrompt>)
    requires KeepsContent(create)
    ensures var run := Generate(s, imageId, options, generatedAt, create);
      imageId != "" && run.after.prompt.Some? ==>
        var d := run.after.prompt.value.document;
        d.title == TitlePrefix + options.focus
        && StartsWith(d.trailer, TrailerHead(options.temperature, options.processing))
        && !HasSection(d, CustomHeading) && !HasSection(d, SummaryHeading)
        && !HasSection(d, PerformanceHeading) && !HasSection(d, AnimationHeading)
        && run.after.prompt.value.imageIds == [imageId]
  {
    var run := Generate(s, imageId, options, generatedAt, create);
    if imageId != "" && run.after.prompt.Some? {
      var d := MockGeneratePrompt(options, generatedAt);
      assert run.after.prompt == create(d, imageId);
    }
  }
}
