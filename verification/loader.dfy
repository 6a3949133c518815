/**
  The page loader of `public/client-app.js`: an overlay with two messages
  and a progress bar that creeps towards 90% while work is under way and
  jumps to 100% when it ends; and the loading state of a button.

  Progress is counted in half-percent units, so the increments 5, 2 and 0.5
  are 10, 4 and 1 and the 90% cap is 180; every value the page reaches is a
  multiple of 0.5, so the count is exact. The interval timer is the flag
  `ticking`; one firing of it is `TickEvent`. Whether each element exists in
  the page is the `Page` record.
 */
module Loader {
  import opened Strings

  /** 90% in half-percent units. */
  const Cap: nat := 180
  /** 100% in half-percent units. */
  const Full: nat := 200

  const DefaultMessage: string := "Loading..."
  const DefaultSubMessage: string := "Please wait while we prepare your experience"

  /**
    `loaderState` together with the bar's shown width: `ticking` is a
    running `progressInterval`, `bar` the width the bar shows.
   */
  datatype LoaderState = LoaderState(
    isLoading: bool,
    progress: nat,
    ticking: bool,
    message: string,
    subMessage: string,
    bar: nat)

  const InitialLoader: LoaderState := LoaderState(false, 0, false, DefaultMessage, DefaultSubMessage, 0)

  /** Which of the loader's elements the page holds: the overlay, its two text lines, the bar. */
  datatype Page = Page(hasContainer: bool, hasTexts: bool, hasBar: bool)

  /** The increment of one tick: 5% below 50%, 2% below 80%, 0.5% above. */
  function Increment(progress: nat): (inc: nat)
    ensures progress < 100 ==> inc == 10
    ensures 100 <= progress < 160 ==> inc == 4
    ensures 160 <= progress ==> inc == 1
  {
    if progress < 100 then 10 else if progress < 160 then 4 else 1
  }

  /** `Math.min(progressValue + increment, 90)` */
  function Tick(progress: nat): (r: nat)
    ensures r <= Cap
    ensures progress <= Cap ==> progress <= r
    ensures progress < Cap ==> progress < r
    ensures progress >= Cap ==> r == Cap
  {
    if progress + Increment(progress) < Cap then progress + Increment(progress) else Cap
  }

  /** `startProgressBar()`: with a bar, progress and width go back to 0 and a fresh interval runs. */
  function StartProgressBar(s: LoaderState, page: Page): (r: LoaderState)
    ensures !page.hasBar ==> r == s
    ensures page.hasBar ==> r == s.(progress := 0, bar := 0, ticking := true)
  {
    if !page.hasBar then s else s.(progress := 0, bar := 0, ticking := true)
  }

  /** One firing of the interval: a tick, and the interval stops once the cap is reached. */
  function TickEvent(s: LoaderState): (r: LoaderState)
    ensures !s.ticking ==> r == s
    ensures s.ticking ==> r.progress == Tick(s.progress) && r.bar == r.progress
    ensures s.ticking ==> (r.ticking <==> r.progress < Cap)
    ensures r.isLoading == s.isLoading && r.message == s.message && r.subMessage == s.subMessage
  {
    if !s.ticking then s
    else
      var p := Tick(s.progress);
      s.(progress := p, bar := p, ticking := p < Cap)
  }

  /** `completeProgressBar()`: the interval stops and the bar shows 100%; the counter itself is left as it was. */
  function CompleteProgressBar(s: LoaderState, page: Page): (r: LoaderState)
    ensures !page.hasBar ==> r == s
    ensures page.hasBar ==> r == s.(ticking := false, bar := Full)
  {
    if !page.hasBar then s else s.(ticking := false, bar := Full)
  }

  /** The timeout `completeProgressBar` leaves behind: the bar is emptied. */
  function ResetBar(s: LoaderState, page: Page): (r: LoaderState)
    ensures !page.hasBar ==> r == s
    ensures page.hasBar ==> r == s.(bar := 0)
  {
    if !page.hasBar then s else s.(bar := 0)
  }

  /** `showLoader(message, subMessage)`: acts only when the overlay and both text lines exist. */
  function ShowLoader(s: LoaderState, page: Page, message: string, subMessage: string): (r: LoaderState)
    ensures !(page.hasContainer && page.hasTexts) ==> r == s
    ensures page.hasContainer && page.hasTexts ==>
      r.isLoading && r.message == message && r.subMessage == subMessage
      && r == StartProgressBar(s.(isLoading := true, message := message, subMessage := subMessage), page)
  {
    if page.hasContainer && page.hasTexts then
      StartProgressBar(s.(isLoading := true, message := message, subMessage := subMessage), page)
    else s
  }

  /** `hideLoader()`: acts whenever the overlay exists. */
  function HideLoader(s: LoaderState, page: Page): (r: LoaderState)
    ensures !page.hasContainer ==> r == s
    ensures page.hasContainer ==> !r.isLoading && r == CompleteProgressBar(s.(isLoading := false), page)
    ensures r.message == s.message && r.subMessage == s.subMessage
  {
    if page.hasContainer then CompleteProgressBar(s.(isLoading := false), page) else s
  }

  /** `n` firings of the interval. */
  function TickEvents(s: LoaderState, n: nat): LoaderState
    decreases n
  {
    if n == 0 then s else TickEvents(TickEvent(s), n - 1)
  }

  /** Where the counter is after `n` ticks from 0: ten steps of 5%, fifteen of 2%, then steps of 0.5% up to 90%. */
  function ProgressAfter(n: nat): nat {
    if n <= 10 then 10 * n
    else if n <= 25 then 100 + 4 * (n - 10)
    else if n <= 45 then 160 + (n - 25)
    else Cap
  }

  /** One more tick moves the closed form one step. */
  lemma TickFollowsProgressAfter(n: nat)
    ensures Tick(ProgressAfter(n)) == ProgressAfter(n + 1)
  {
  }

  /** Starting from a fresh start, after `n` firings the counter is at `ProgressAfter(n)`, still running before the 45th. */
  lemma {:induction false} TicksFromZero(s: LoaderState, n: nat)
    requires s.ticking && s.progress == 0
    ensures TickEvents(s, n).progress == ProgressAfter(n)
    ensures TickEvents(s, n).ticking <==> n < 45
  {
    TicksFrom(s, 0, n);
  }

  lemma {:induction false} TicksFrom(s: LoaderState, done: nat, n: nat)
    requires done <= 45
    requires s.progress == ProgressAfter(done) && (s.ticking <==> done < 45)
    ensures TickEvents(s, n).progress == ProgressAfter(done + n)
    ensures TickEvents(s, n).ticking <==> done + n < 45
    decreases n
  {
    if n > 0 {
      if done < 45 {
        TickFollowsProgressAfter(done);
        TicksFrom(TickEvent(s), done + 1, n - 1);
      } else {
        TicksFrom(TickEvent(s), done, n - 1);
      }
    }
  }

  /**
    The loader shown on a page with all its elements reaches 90% after
    exactly 45 ticks and stops there; 44 ticks leave it below, still running.
   */
  lemma ShownLoaderStopsAfter45(s: LoaderState, page: Page, message: string, subMessage: string)
    requires page.hasContainer && page.hasTexts && page.hasBar
    ensures var shown := ShowLoader(s, page, message, subMessage);
      TickEvents(shown, 45).progress == Cap && !TickEvents(shown, 45).ticking
      && TickEvents(shown, 44).progress < Cap && TickEvents(shown, 44).ticking
      && TickEvents(shown, 46) == TickEvents(shown, 45)
  {
    var shown := ShowLoader(s, page, message, subMessage);
    TicksFromZero(shown, 44);
    TicksFromZero(shown, 45);
    TicksFromZero(shown, 46);
    TickEventsSplit(shown, 45, 1);
  }

  lemma {:induction false} TickEventsSplit(s: LoaderState, m: nat, n: nat)
    ensures TickEvents(s, m + n) == TickEvents(TickEvents(s, m), n)
    decreases m
  {
    if m > 0 {
      TickEventsSplit(TickEvent(s), m - 1, n);
    }
  }

  /**
    The interval run as a loop from `start`: the values it shows, in order.
    They never decrease, stay within 90%, and the last is 90%; from 0 there
    are 45 of them.
   */
  method RunToCap(start: nat) returns (shown: seq<nat>)
    requires start <= Cap
    ensures forall k :: 0 <= k < |shown| ==> shown[k] <= Cap
    ensures forall k :: 0 < k < |shown| ==> shown[k - 1] < shown[k]
    ensures |shown| > 0 ==> start < shown[0] && shown[|shown| - 1] == Cap
    ensures forall k :: 0 <= k < |shown| - 1 ==> shown[k] < Cap
    ensures start < Cap <==> |shown| > 0
    ensures start == 0 ==> |shown| == 45
  {
    var progress := start;
    shown := [];
    while progress < Cap
      invariant progress <= Cap
      invariant |shown| == 0 ==> progress == start
      invariant |shown| > 0 ==> start < shown[0] && shown[|shown| - 1] == progress
      invariant forall k :: 0 <= k < |shown| ==> shown[k] <= progress
      invariant forall k :: 0 < k < |shown| ==> shown[k - 1] < shown[k]
      invariant forall k :: 0 <= k < |shown| - 1 ==> shown[k] < Cap
      invariant start == 0 ==> progress == ProgressAfter(|shown|) && |shown| <= 45
      decreases Cap - progress
    {
      if start == 0 {
        TickFollowsProgressAfter(|shown|);
      }
      progress := Tick(progress);
      shown := shown + [progress];
    }
  }

  /** A button: whether it is disabled, its markup, whether it carries the `active` class. */
  datatype Button = Button(disabled: bool, html: string, active: bool)

  const DefaultButtonText: string := "Get Started"
  const LoadingMarkup: string := "<span class=\"button-loader\"></span> Loading..."

  /** `setButtonLoading(button, isLoading, text)`; a missing button is left alone. */
  function SetButtonLoading(button: Option<Button>, isLoading: bool, text: string): (r: Option<Button>)
    ensures button.None? ==> r.None?
    ensures button.Some? && isLoading ==> r == Some(Button(true, LoadingMarkup, true))
    ensures button.Some? && !isLoading ==> r == Some(Button(false, text, false))
  {
    match button
    case None => None
    case Some(_) => if isLoading then Some(Button(true, LoadingMarkup, true)) else Some(Button(false, text, false))
  }

  /** Loading then done gives an enabled button showing `text`, whatever it was before. */
  lemma ButtonLoadingRoundTrip(b: Button, text: string)
    ensures SetButtonLoading(SetButtonLoading(Some(b), true, text), false, text) == Some(Button(false, text, false))
    ensures SetButtonLoading(Some(b), true, text).value.disabled
  {
  }

  /**
    Hiding a shown loader stops the interval and fills the bar; the counter
    keeps its value until the next show, and the pending timeout empties the bar.
   */
  lemma ShowThenHide(s: LoaderState, page: Page, message: string, subMessage: string, ticks: nat)
    requires page.hasContainer && page.hasTexts && page.hasBar
    ensures var running := TickEvents(ShowLoader(s, page, message, subMessage), ticks);
      var hidden := HideLoader(running, page);
      !hidden.isLoading && !hidden.ticking && hidden.bar == Full
      && hidden.progress == ProgressAfter(ticks)
      && TickEvent(hidden) == hidden
      && ResetBar(hidden, page).bar == 0
  {
    TicksFromZero(ShowLoader(s, page, message, subMessage), ticks);
  }
}
