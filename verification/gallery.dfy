/**
  The gallery cursor of `components/image-gallery.tsx`: `activeIndex` starts
  at 0, `goToNext` and `goToPrevious` move it modulo the number of images,
  and the navigation controls are shown only when there is more than one.

  JavaScript's `%` truncates toward zero, but both operands here are never
  negative (`prev - 1 + n >= 0` whenever `prev >= 0` and `n >= 1`), so
  Dafny's `%` gives the same value.
 */
module Gallery {
  import opened Strings
  import opened ImageUtils
  import MultiFileUpload

  const InitialIndex: nat := 0

  /** `goToNext` */
  function Next(i: nat, n: nat): (r: nat)
    requires n > 0
    ensures r < n
    ensures i < n ==> r == if i + 1 < n then i + 1 else 0
  {
    (i + 1) % n
  }

  /** `goToPrevious` */
  function Previous(i: nat, n: nat): (r: nat)
    requires n > 0
    ensures r < n
    ensures i < n ==> r == if i == 0 then n - 1 else i - 1
  {
    (i - 1 + n) % n
  }

  lemma ModBelow(a: int, n: int)
    requires 0 <= a < n
    ensures a % n == a
  {
  }

  lemma ModShift(a: int, n: int)
    requires 0 <= a < n
    ensures (a + n) % n == a
  {
  }

  /** `goToNext` from inside the range: one step up, wrapping to 0 after the last. */
  lemma NextValue(i: nat, n: nat)
    requires i < n
    ensures Next(i, n) == if i + 1 < n then i + 1 else 0
  {
    if i + 1 < n { ModBelow(i + 1, n); } else { ModShift(0, n); }
  }

  /** `goToPrevious` from inside the range: one step down, wrapping to the last from 0. */
  lemma PreviousValue(i: nat, n: nat)
    requires i < n
    ensures Previous(i, n) == if i == 0 then n - 1 else i - 1
  {
    if i == 0 { ModBelow(n - 1, n); } else { ModShift(i - 1, n); }
  }

  /** Inside the range, `goToNext` and `goToPrevious` undo each other. */
  lemma NextPreviousInverse(i: nat, n: nat)
    requires i < n
    ensures Previous(Next(i, n), n) == i
    ensures Next(Previous(i, n), n) == i
  {
    NextValue(i, n);
    PreviousValue(i, n);
    NextValue(Previous(i, n), n);
    PreviousValue(Next(i, n), n);
  }

  /** `k` presses of "next" from `i`. */
  function NextTimes(i: nat, n: nat, k: nat): (r: nat)
    requires n > 0
    ensures k > 0 ==> r < n
  {
    if k == 0 then i else Next(NextTimes(i, n, k - 1), n)
  }

  /** Up to `n` presses of "next" walk around the cycle. */
  lemma {:induction false} NextTimesValue(i: nat, n: nat, k: nat)
    requires i < n && k <= n
    ensures NextTimes(i, n, k) == if i + k < n then i + k else i + k - n
  {
    if k > 0 {
      NextTimesValue(i, n, k - 1);
      var prev := NextTimes(i, n, k - 1);
      NextValue(prev, n);
    }
  }

  /** `n` presses of "next" come back to where they started. */
  lemma NextCycle(i: nat, n: nat)
    requires i < n
    ensures NextTimes(i, n, n) == i
  {
    NextTimesValue(i, n, n);
  }

  /**
    What the component renders: nothing for an empty list; the active image
    and whether the previous/next controls appear otherwise. An index past
    the end (the list shrank; the index is never clamped) makes
    `activeImage.id` read a property of `undefined`, which throws.
   */
  datatype View = Nothing | Shown(active: UploadedImage, navigation: bool) | RenderError

  function Render(images: seq<UploadedImage>, activeIndex: nat): (v: View)
    ensures |images| == 0 <==> v == Nothing
    ensures v.Shown? <==> 0 < |images| && activeIndex < |images|
    ensures v.Shown? ==> v.active == images[activeIndex] && (v.navigation <==> |images| > 1)
  {
    if |images| == 0 then Nothing
    else if activeIndex < |images| then Shown(images[activeIndex], |images| > 1)
    else RenderError
  }

  /** Navigating a non-empty list never produces an index that fails to render. */
  lemma NavigationStaysRenderable(images: seq<UploadedImage>, i: nat)
    requires |images| > 0
    ensures Render(images, Next(i, |images|)).Shown?
    ensures Render(images, Previous(i, |images|)).Shown?
  {
  }

  /**
    Removing the last image while it is the active one leaves an index past
    the end, so the next render fails.
   */
  lemma RemovingActiveLastFails(a: UploadedImage, b: UploadedImage)
    requires a.id != b.id
    ensures Render([a, b], 1).Shown?
    ensures Render(MultiFileUpload.RemoveImage([a, b], b.id).images, 1) == RenderError
  {
    assert MultiFileUpload.WithoutId([a], b.id) == [a];
    assert [a, b][1..] == [b];
    assert MultiFileUpload.WithoutId([a, b], b.id) == [a];
  }
}
