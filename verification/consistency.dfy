/** Facts that relate several components: what the service records and what
    the card and the viewer show, what the card reports and what the parent
    does with it, and what the picker chooses and what the provider is sent. */
module Consistency {
  import opened Wrappers
  import opened Strings
  import opened Types
  import GeminiService
  import ImageCard
  import ImageViewer
  import AspectRatioSelector
  import App

  /** For both model names the service can record, the card's badge and the
      viewer's label both tell the tier the image was made with. */
  lemma {:induction false} TierDisplaysAgree(isPro: bool)
    ensures ImageCard.TierBadge(GeminiService.ModelName(isPro)) ==
              (if isPro then ImageCard.ProBadge else ImageCard.FastBadge)
    ensures ImageViewer.ModelLabel(GeminiService.ModelName(isPro)) ==
              (if isPro then ImageViewer.ProLabel else ImageViewer.FlashLabel)
  {
    if isPro {
      assert OccursAt(GeminiService.ProModel, "pro", 9);
      OccurrenceContained(GeminiService.ProModel, "pro", 9);
    } else {
      assert 'p' !in GeminiService.FlashModel;
      AbsentCharNotContained(GeminiService.FlashModel, "pro");
    }
  }

  /** The two displays use different tests, so they can disagree on a record
      whose model the service never writes (one read back from storage, say):
      such a name gets the pro badge on the card and the flash label in the
      viewer. */
  lemma BadgeAndLabelDisagreeOnForeignModel()
    ensures ImageCard.TierBadge("gemini-pro-vision") == ImageCard.ProBadge
    ensures ImageViewer.ModelLabel("gemini-pro-vision") == ImageViewer.FlashLabel
  {
    assert OccursAt("gemini-pro-vision", "pro", 7);
  }

  /** The card and the viewer download an image identically. */
  lemma CardAndViewerDownloadAgree(image: GeneratedImage)
    ensures ImageCard.OnCardAction(image, ImageCard.ClickDownload)
         == ImageViewer.OnViewerAction(image, ImageViewer.ClickDownload)
  {
  }

  /** Deleting from a card removes that image from the gallery and closes the
      viewer when it was showing an image with the same identifier. */
  lemma CardDeleteRemovesImage(s: App.AppState, image: GeneratedImage)
    ensures var t := App.ApplyEffect(s, ImageCard.OnCardAction(image, ImageCard.ClickDelete));
            && image !in t.images
            && (s.selected.Some? && s.selected.value.id == image.id ==> t.selected.None?)
  {
  }

  /** Clicking picker button `i` and generating sends that button's ratio. */
  lemma SelectedRatioReachesProvider(c: App.Controls, i: nat)
    requires i < |AspectRatioSelector.RatioOptions|
    ensures GeminiService.BuildRequest(
              App.ComposeConfig(c.(aspectRatio := AspectRatioSelector.OnSelect(i)))).imageConfig.aspectRatio
            == AspectRatioSelector.RatioOptions[i].value
  {
  }

  /** A successful generation shows its tier on the card and in the viewer. */
  lemma {:induction false} GeneratedImageShowsTier(
    s: App.AppState,
    c: App.Controls,
    studio: Option<GeminiService.Studio>,
    provider: GeminiService.Request -> GeminiService.ProviderOutcome,
    id: string,
    now: int)
    ensures var step := App.HandleGenerate(s, c, studio, provider, id, now);
            step.call.Some? && step.call.value.result.Success? ==>
            var image := step.state.images[0];
            && ImageCard.TierBadge(image.model) == (if c.isPro then ImageCard.ProBadge else ImageCard.FastBadge)
            && ImageViewer.ModelLabel(image.model) == (if c.isPro then ImageViewer.ProLabel else ImageViewer.FlashLabel)
  {
    var step := App.HandleGenerate(s, c, studio, provider, id, now);
    if step.call.Some? && step.call.value.result.Success? {
      var image := step.state.images[0];
      assert image == step.call.value.result.value;
      assert image.model == GeminiService.ModelName(c.isPro);
      TierDisplaysAgree(c.isPro);
    }
  }

  /** A provider that answers every request with one inline PNG part. */
  function OnePngProvider(r: GeminiService.Request): GeminiService.ProviderOutcome
  {
    GeminiService.Responded(GeminiService.Response(
      [GeminiService.Candidate(Some([GeminiService.InlineData(Some("image/png"), "iVBORw0KGgo=")]))]))
  }

  lemma RedFoxPromptNotBlank(prompt: string)
    requires prompt == "a red fox in snow"
    ensures !IsBlank(prompt)
  {
    assert !IsWhitespace(prompt[0]);
  }

  /** The image address the service builds from `OnePngProvider`'s answer. */
  lemma OnePngImageUrl(r: GeminiService.Request)
    ensures GeminiService.ImageUrl(OnePngProvider(r).response) == Some("data:image/png;base64,iVBORw0KGgo=")
  {
    var parts := OnePngProvider(r).response.candidates[0].parts.value;
    assert GeminiService.FirstInlineIndex(parts) == Some(0);
    OnePngDataUri();
  }

  /** The data URI of `OnePngProvider`'s part, spelled out. */
  lemma OnePngDataUri()
    ensures GeminiService.DataUri(Some("image/png"), "iVBORw0KGgo=") == "data:image/png;base64,iVBORw0KGgo="
  {
  }

  /** The service's answer to the red-fox request of `RedFoxScenario`. */
  lemma RedFoxGeneration(config: GenerationConfig)
    requires config == GenerationConfig("a red fox in snow", Ratio1x1, false, None)
    ensures GeminiService.GenerateImage(config, None, OnePngProvider, "fox-1", 1700000000000).result
         == Success(GeneratedImage("fox-1", "data:image/png;base64,iVBORw0KGgo=", "a red fox in snow",
                                   Ratio1x1, 1700000000000, GeminiService.FlashModel))
  {
    OnePngImageUrl(GeminiService.BuildRequest(config));
  }

  /** A standard-tier generation of "a red fox in snow" at 1:1, answered
      with one inline PNG part, puts a 1:1 flash-model record with the given
      identifier in front of the gallery, and the request carries no size. */
  lemma RedFoxScenario(s: App.AppState, c: App.Controls)
    requires c == App.Controls("a red fox in snow", Ratio1x1, false, Res2K)
    ensures var step := App.HandleGenerate(s, c, None, OnePngProvider, "fox-1", 1700000000000);
            && step.call.Some? && |step.state.images| > 0
            && step.state.images[0] == GeneratedImage(
                 "fox-1", "data:image/png;base64,iVBORw0KGgo=", "a red fox in snow",
                 Ratio1x1, 1700000000000, GeminiService.FlashModel)
            && step.state.images[1..] == s.images
            && step.call.value.request.imageConfig.imageSize.None?
  {
    RedFoxPromptNotBlank(c.prompt);
    var config := App.ComposeConfig(c);
    RedFoxGeneration(config);
  }
}
