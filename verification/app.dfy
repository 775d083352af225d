/** The application's state and its handlers: generate, delete, clear,
    open and close the viewer. Each handler is a transition from the state
    before to the state after. */
module App {
  import opened Wrappers
  import opened Strings
  import opened Types
  import opened Effects
  import GeminiService

  const FallbackError: string := "Failed to generate image. Please try again."

  /** The form controls. */
  datatype Controls = Controls(
    prompt: string,
    aspectRatio: AspectRatio,
    isPro: bool,
    resolution: ImageResolution)

  /** The gallery (newest first), the image open in the viewer, the error
      shown under the form and whether a generation is outstanding. */
  datatype AppState = AppState(
    images: seq<GeneratedImage>,
    selected: Option<GeneratedImage>,
    error: Option<string>,
    generating: bool)

  /** The form and the state when the page opens, before the gallery is
      loaded from storage. */
  const InitialControls: Controls := Controls("", Ratio1x1, false, Res1K)
  const InitialState: AppState := AppState([], None, None, false)

  /** No two records of the gallery share an identifier. */
  predicate UniqueIds(images: seq<GeneratedImage>)
  {
    forall i, j :: 0 <= i < j < |images| ==> images[i].id != images[j].id
  }

  /** The page opens with an empty gallery (so identifiers are unique), no
      viewer, no error and nothing pending, and the form starts in the
      standard tier, so a request composed from it would carry no size. */
  lemma InitialConditions()
    ensures UniqueIds(InitialState.images)
    ensures InitialState.selected.None? && InitialState.error.None? && !InitialState.generating
    ensures GeminiService.BuildRequest(ComposeConfig(InitialControls)).imageConfig.imageSize.None?
  {
  }

  /** The prompt starts empty, so pressing "Generate" on the opening page
      changes nothing and calls nothing. */
  lemma InitialGenerateDoesNothing(
    studio: Option<GeminiService.Studio>,
    provider: GeminiService.Request -> GeminiService.ProviderOutcome,
    id: string,
    now: int)
    ensures HandleGenerate(InitialState, InitialControls, studio, provider, id, now)
            == GenerateStep(InitialState, None)
  {
    assert IsBlank(InitialControls.prompt);
  }

  // ---------------------------------------------------------------------
  // Generation

  /** The request the form makes: the resolution goes along only in pro mode. */
  function ComposeConfig(c: Controls): (config: GenerationConfig)
    ensures config.prompt == c.prompt
    ensures config.aspectRatio == c.aspectRatio
    ensures config.isPro == c.isPro
    ensures config.resolution.Some? <==> c.isPro
    ensures c.isPro ==> config.resolution == Some(c.resolution)
  {
    GenerationConfig(c.prompt, c.aspectRatio, c.isPro, if c.isPro then Some(c.resolution) else None)
  }

  /** The size field reaches the provider exactly when the form is in pro
      mode, and then it is the selected resolution. */
  lemma ComposedRequestSize(c: Controls)
    ensures GeminiService.BuildRequest(ComposeConfig(c)).imageConfig.imageSize ==
              (if c.isPro then Some(c.resolution) else None)
  {
  }

  /** The start of a generation: pending, with the previous error cleared. */
  function BeginGeneration(s: AppState): (t: AppState)
    ensures t.generating && t.error.None?
    ensures t.images == s.images && t.selected == s.selected
  {
    s.(generating := true, error := None)
  }

  /** The error shown for a failure: its message, or the fallback text when
      the message is empty. */
  function ErrorText(message: string): (text: string)
    ensures text != ""
    ensures message != "" ==> text == message
    ensures message == "" ==> text == FallbackError
  {
    if message != "" then message else FallbackError
  }

  /** The end of a generation, on the state as it is by then: a new image
      goes in front of the list, a failure sets the error and leaves the list
      alone; either way the pending flag drops. */
  function CompleteGeneration(s: AppState, result: Result<GeneratedImage, string>): (t: AppState)
    ensures !t.generating
    ensures t.selected == s.selected
    ensures result.Success? ==>
              && |t.images| == |s.images| + 1
              && t.images[0] == result.value
              && t.images[1..] == s.images
              && t.error == s.error
    ensures result.Failure? ==>
              && t.images == s.images
              && t.error.Some? && t.error.value != ""
              && (result.error != "" ==> t.error == Some(result.error))
              && (result.error == "" ==> t.error == Some(FallbackError))
  {
    match result
    case Success(image) => s.(images := [image] + s.images, generating := false)
    case Failure(message) => s.(error := Some(ErrorText(message)), generating := false)
  }

  /** One press of "Generate": the resulting state and the service call
      made, if any. */
  datatype GenerateStep = GenerateStep(state: AppState, call: Option<GeminiService.Generation>)

  /** A blank prompt changes nothing and calls nothing. Otherwise the service
      is called with the composed configuration and its result is applied to
      the state as it was when the press started. */
  function HandleGenerate(
    s: AppState,
    c: Controls,
    studio: Option<GeminiService.Studio>,
    provider: GeminiService.Request -> GeminiService.ProviderOutcome,
    id: string,
    now: int): (step: GenerateStep)
    ensures IsBlank(c.prompt) <==> step.call.None?
    ensures IsBlank(c.prompt) ==> step.state == s
    ensures step.call.Some? ==>
              step.call.value == GeminiService.GenerateImage(ComposeConfig(c), studio, provider, id, now)
    ensures step.call.Some? ==>
              var g := step.call.value;
              && g.request.prompt == c.prompt
              && g.request.imageConfig.aspectRatio == c.aspectRatio
              && (g.request.model == GeminiService.ProModel <==> c.isPro)
              && g.request.imageConfig.imageSize == (if c.isPro then Some(c.resolution) else None)
              && !step.state.generating
              && step.state.selected == s.selected
              && (g.result.Success? ==>
                    && step.state.images == [g.result.value] + s.images
                    && step.state.images[0].id == id
                    && step.state.images[0].prompt == c.prompt
                    && step.state.error.None?)
              && (g.result.Failure? ==>
                    && step.state.images == s.images
                    && step.state.error == Some(ErrorText(g.result.error)))
  {
    if Trim(c.prompt) == "" then
      GenerateStep(s, None)
    else
      var config := ComposeConfig(c);
      ComposedRequestSize(c);
      var g := GeminiService.GenerateImage(config, studio, provider, id, now);
      GenerateStep(CompleteGeneration(BeginGeneration(s), g.result), Some(g))
  }

  /** A completed generation with a fresh identifier keeps identifiers unique. */
  lemma CompletePreservesUniqueIds(s: AppState, result: Result<GeneratedImage, string>)
    requires UniqueIds(s.images)
    requires result.Success? ==> forall k :: 0 <= k < |s.images| ==> s.images[k].id != result.value.id
    ensures UniqueIds(CompleteGeneration(s, result).images)
  {
  }

  // ---------------------------------------------------------------------
  // Deletion

  /** The gallery without the records carrying `id`, others in their order. */
  function RemoveId(images: seq<GeneratedImage>, id: string): (r: seq<GeneratedImage>)
    ensures |r| <= |images|
    ensures forall x :: x in r <==> x in images && x.id != id
    ensures (forall k :: 0 <= k < |images| ==> images[k].id != id) ==> r == images
  {
    if |images| == 0 then []
    else if images[0].id == id then RemoveId(images[1..], id)
    else
      assert images == [images[0]] + images[1..];
      [images[0]] + RemoveId(images[1..], id)
  }

  /** Removal works piecewise, so the survivors keep their relative order. */
  lemma {:induction false} RemoveIdAppend(a: seq<GeneratedImage>, b: seq<GeneratedImage>, id: string)
    ensures RemoveId(a + b, id) == RemoveId(a, id) + RemoveId(b, id)
  {
    if |a| == 0 {
      assert a + b == b;
    } else {
      assert (a + b)[0] == a[0];
      assert (a + b)[1..] == a[1..] + b;
      RemoveIdAppend(a[1..], b, id);
    }
  }

  lemma UniqueIdsTail(images: seq<GeneratedImage>)
    requires |images| > 0 && UniqueIds(images)
    ensures UniqueIds(images[1..])
  {
    forall i, j | 0 <= i < j < |images[1..]|
      ensures images[1..][i].id != images[1..][j].id
    {
      assert images[1..][i] == images[i + 1] && images[1..][j] == images[j + 1];
    }
  }

  lemma UniqueIdsCons(x: GeneratedImage, rest: seq<GeneratedImage>)
    requires UniqueIds(rest)
    requires forall k :: 0 <= k < |rest| ==> rest[k].id != x.id
    ensures UniqueIds([x] + rest)
  {
    var r := [x] + rest;
    forall i, j | 0 <= i < j < |r|
      ensures r[i].id != r[j].id
    {
      assert r[j] == rest[j - 1];
      if i > 0 {
        assert r[i] == rest[i - 1];
      }
    }
  }

  /** Removal keeps identifiers unique. */
  lemma {:induction false} RemoveIdPreservesUniqueIds(images: seq<GeneratedImage>, id: string)
    requires UniqueIds(images)
    ensures UniqueIds(RemoveId(images, id))
  {
    if |images| > 0 {
      UniqueIdsTail(images);
      RemoveIdPreservesUniqueIds(images[1..], id);
      if images[0].id != id {
        var rest := RemoveId(images[1..], id);
        forall k | 0 <= k < |rest|
          ensures rest[k].id != images[0].id
        {
          assert rest[k] in images[1..];
          var m :| 0 <= m < |images[1..]| && images[1..][m] == rest[k];
          assert images[m + 1] == rest[k];
        }
        UniqueIdsCons(images[0], rest);
      }
    }
  }

  /** The delete handler: every record with that identifier goes, and the
      viewer closes exactly when it shows such a record. */
  function HandleDeleteImage(s: AppState, id: string): (t: AppState)
    ensures forall x :: x in t.images <==> x in s.images && x.id != id
    ensures t.images == RemoveId(s.images, id)
    ensures t.selected.None? <==> s.selected.None? || s.selected.value.id == id
    ensures t.selected.Some? ==> t.selected == s.selected
    ensures t.error == s.error && t.generating == s.generating
  {
    s.(images := RemoveId(s.images, id),
       selected := if s.selected.Some? && s.selected.value.id == id then None else s.selected)
  }

  /** Deleting twice is deleting once. */
  lemma DeleteIdempotent(s: AppState, id: string)
    ensures HandleDeleteImage(HandleDeleteImage(s, id), id) == HandleDeleteImage(s, id)
  {
  }

  // ---------------------------------------------------------------------
  // Clearing and the viewer

  /** The clear handler: the gallery empties only when the user confirms;
      nothing else changes either way. */
  function HandleClearHistory(s: AppState, confirmed: bool): (t: AppState)
    ensures confirmed ==> t == s.(images := [])
    ensures !confirmed ==> t == s
  {
    if confirmed then s.(images := []) else s
  }

  /** The parent's reaction to what a card or the viewer reports. Downloads
      and clipboard writes leave the state alone. */
  function ApplyEffect(s: AppState, e: Effect): (t: AppState)
    ensures e.DeleteRequested? ==> t == HandleDeleteImage(s, e.id)
    ensures e.ViewRequested? ==> t == s.(selected := Some(e.image))
    ensures e.ViewerClosed? ==> t == s.(selected := None)
    ensures e.SaveFile? || e.ClipboardWrite? ==> t == s
  {
    match e
    case DeleteRequested(id) => HandleDeleteImage(s, id)
    case ViewRequested(image) => s.(selected := Some(image))
    case ViewerClosed => s.(selected := None)
    case SaveFile(_, _) => s
    case ClipboardWrite(_) => s
  }
}
