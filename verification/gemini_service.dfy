/** The image-generation service: credential check, request composition,
    interpretation of the provider's response and rewriting of errors.
    The provider itself, the hosting page's key dialog, the random identifier
    and the clock are inputs. */
module GeminiService {
  import opened Wrappers
  import opened Strings
  import opened Types

  const ProModel: string := "gemini-3-pro-image-preview"
  const FlashModel: string := "gemini-2.5-flash-image"
  const DefaultMimeType: string := "image/png"
  const NoImageMessage: string := "No image data found in response"
  const NotFoundSignature: string := "Requested entity was not found"
  const KeyIssueMessage: string :=
    "API Key issue or Model not found. Please try selecting a key again."

  // ---------------------------------------------------------------------
  // Credential check

  /** The hosting page's key capability, when the page provides one.
      `hasSelectedApiKey` is `None` when that function is missing and
      otherwise holds the answer it gives; `canOpenSelectKey` says whether the
      key dialog can be opened. */
  datatype Studio = Studio(hasSelectedApiKey: Option<bool>, canOpenSelectKey: bool)

  /** What the credential check did. */
  datatype KeyCheck = KeyCheck(askedForKey: bool, openedSelector: bool)

  /** The pro tier asks the page whether a key was selected and opens the key
      dialog only when the answer is no; the standard tier does nothing. */
  function EnsureApiKey(isPro: bool, studio: Option<Studio>): (k: KeyCheck)
    ensures k.askedForKey <==>
              isPro && studio.Some? && studio.value.hasSelectedApiKey.Some?
    ensures k.openedSelector <==>
              isPro && studio.Some? && studio.value.hasSelectedApiKey == Some(false)
              && studio.value.canOpenSelectKey
    ensures k.openedSelector ==> k.askedForKey
  {
    if isPro && studio.Some? && studio.value.hasSelectedApiKey.Some? then
      var hasKey := studio.value.hasSelectedApiKey.value;
      KeyCheck(true, !hasKey && studio.value.canOpenSelectKey)
    else
      KeyCheck(false, false)
  }

  // ---------------------------------------------------------------------
  // Request composition

  /** The pro tier uses the pro model; every other request uses the flash model. */
  function ModelName(isPro: bool): (m: string)
    ensures m == ProModel <==> isPro
    ensures m == FlashModel <==> !isPro
  {
    if isPro then ProModel else FlashModel
  }

  /** The provider-facing image configuration; `imageSize` absent is the
      field left out of the object. */
  datatype ImageConfig = ImageConfig(aspectRatio: AspectRatio, imageSize: Option<ImageResolution>)

  /** The request sent to the provider: a model, one text part, an image
      configuration. */
  datatype Request = Request(model: string, prompt: string, imageConfig: ImageConfig)

  function BuildImageConfig(config: GenerationConfig): (c: ImageConfig)
    ensures c.aspectRatio == config.aspectRatio
    ensures c.imageSize.Some? <==> config.isPro && config.resolution.Some?
    ensures c.imageSize.Some? ==> c.imageSize == config.resolution
  {
    if config.isPro && config.resolution.Some? then
      ImageConfig(config.aspectRatio, config.resolution)
    else
      ImageConfig(config.aspectRatio, None)
  }

  function BuildRequest(config: GenerationConfig): (r: Request)
    ensures r.model == ProModel <==> config.isPro
    ensures r.model == FlashModel <==> !config.isPro
    ensures r.prompt == config.prompt
    ensures r.imageConfig.aspectRatio == config.aspectRatio
    ensures r.imageConfig.imageSize.Some? <==> config.isPro && config.resolution.Some?
    ensures r.imageConfig.imageSize.Some? ==> r.imageConfig.imageSize == config.resolution
  {
    Request(ModelName(config.isPro), config.prompt, BuildImageConfig(config))
  }

  /** A standard-tier request never carries a size, whatever resolution the
      configuration holds. */
  lemma StandardRequestHasNoSize(config: GenerationConfig)
    requires !config.isPro
    ensures BuildRequest(config).imageConfig == ImageConfig(config.aspectRatio, None)
  {
  }

  // ---------------------------------------------------------------------
  // Response interpretation

  /** One part of a candidate's content: inline binary data (with a MIME type
      that may be missing) or text. */
  datatype Part = InlineData(mimeType: Option<string>, data: string) | Text(text: string)

  /** A candidate; `parts` is `None` when the candidate has no content or its
      content has no part list. */
  datatype Candidate = Candidate(parts: Option<seq<Part>>)

  /** The provider's answer; a missing candidate list is the empty one. */
  datatype Response = Response(candidates: seq<Candidate>)

  /** The provider call either answered or threw an error, represented by its
      message (the empty string also stands for a missing message, which the
      code treats the same way). */
  datatype ProviderOutcome = Responded(response: Response) | Threw(message: string)

  /** The declared MIME type when it is present and non-empty, else PNG. */
  function EffectiveMimeType(mimeType: Option<string>): (m: string)
    ensures m != ""
    ensures mimeType.Some? && mimeType.value != "" ==> m == mimeType.value
    ensures mimeType.None? || mimeType.value == "" ==> m == DefaultMimeType
  {
    if mimeType.Some? && mimeType.value != "" then mimeType.value else DefaultMimeType
  }

  /** The `data:` URI embedding base64 data with its MIME type. */
  function DataUri(mimeType: Option<string>, data: string): (uri: string)
    ensures |uri| > 5 && uri[..5] == "data:"
  {
    "data:" + EffectiveMimeType(mimeType) + ";base64," + data
  }

  /** The position of the first occurrence of `c` in `s`. */
  function IndexOfChar(s: string, c: char): (r: Option<nat>)
    ensures r.Some? ==> r.value < |s| && s[r.value] == c && c !in s[..r.value]
    ensures r.None? ==> c !in s
  {
    if |s| == 0 then None
    else if s[0] == c then Some(0)
    else match IndexOfChar(s[1..], c)
      case None => None
      case Some(k) =>
        assert s[..k + 1] == [s[0]] + s[1..][..k];
        Some(k + 1)
  }

  /** The two components of a base64 `data:` URI. */
  datatype DataUriParts = DataUriParts(mimeType: string, data: string)

  /** Reads a base64 `data:` URI back: the MIME type runs up to the first
      `;`, which must be followed by `base64,`. */
  function ParseDataUri(uri: string): (r: Option<DataUriParts>)
    ensures r.Some? ==> uri == "data:" + r.value.mimeType + ";base64," + r.value.data
    ensures r.Some? ==> ';' !in r.value.mimeType
  {
    if |uri| < 5 || uri[..5] != "data:" then None
    else
      var rest := uri[5..];
      match IndexOfChar(rest, ';')
      case None => None
      case Some(k) =>
        var tail := rest[k + 1..];
        if |tail| < 7 || tail[..7] != "base64," then None
        else
          assert uri == "data:" + rest[..k] + ";base64," + tail[7..];
          Some(DataUriParts(rest[..k], tail[7..]))
  }

  /** The URI the service builds reads back as the MIME type it used and the
      data it was given, provided the MIME type has no parameters. */
  lemma DataUriRoundTrip(mimeType: Option<string>, data: string)
    requires ';' !in EffectiveMimeType(mimeType)
    ensures ParseDataUri(DataUri(mimeType, data)) ==
              Some(DataUriParts(EffectiveMimeType(mimeType), data))
  {
    var m := EffectiveMimeType(mimeType);
    var uri := DataUri(mimeType, data);
    var rest := uri[5..];
    assert rest == m + ";base64," + data;
    assert rest[|m|] == ';';
    assert rest[..|m|] == m;
    assert IndexOfChar(rest, ';') == Some(|m|);
    assert rest[|m| + 1..] == "base64," + data;
  }

  /** Part `i` is the first inline-data part of `parts`. */
  predicate IsFirstInline(parts: seq<Part>, i: int)
  {
    && 0 <= i < |parts|
    && parts[i].InlineData?
    && forall j :: 0 <= j < i ==> !parts[j].InlineData?
  }

  /** The scan over a candidate's parts: the index of the first inline part. */
  function FirstInlineIndex(parts: seq<Part>): (r: Option<nat>)
    ensures r.Some? ==> IsFirstInline(parts, r.value)
    ensures r.None? <==> forall j :: 0 <= j < |parts| ==> !parts[j].InlineData?
  {
    if |parts| == 0 then None
    else if parts[0].InlineData? then Some(0)
    else match FirstInlineIndex(parts[1..])
      case None => None
      case Some(k) => Some(k + 1)
  }

  /** Parts after the first inline part, including further images, do not
      change which part wins. */
  lemma {:induction false} LaterPartsIgnored(parts: seq<Part>, more: seq<Part>)
    requires FirstInlineIndex(parts).Some?
    ensures FirstInlineIndex(parts + more) == FirstInlineIndex(parts)
  {
    assert (parts + more)[0] == parts[0];
    if !parts[0].InlineData? {
      assert (parts + more)[1..] == parts[1..] + more;
      LaterPartsIgnored(parts[1..], more);
    }
  }

  /** The image URL of a response: the data URI of the first inline part of
      the first candidate; no other candidate is looked at. */
  function ImageUrl(response: Response): (url: Option<string>)
    ensures url.Some? <==>
              && |response.candidates| > 0
              && response.candidates[0].parts.Some?
              && exists j :: 0 <= j < |response.candidates[0].parts.value|
                             && response.candidates[0].parts.value[j].InlineData?
    ensures url.Some? ==>
              exists j :: IsFirstInline(response.candidates[0].parts.value, j)
                          && var p := response.candidates[0].parts.value[j];
                          url.value == DataUri(p.mimeType, p.data)
  {
    if |response.candidates| == 0 || response.candidates[0].parts.None? then None
    else
      var parts := response.candidates[0].parts.value;
      match FirstInlineIndex(parts)
      case None => None
      case Some(i) => Some(DataUri(parts[i].mimeType, parts[i].data))
  }

  /** Only the first candidate matters. */
  lemma OnlyFirstCandidate(c: Candidate, others: seq<Candidate>)
    ensures ImageUrl(Response([c] + others)) == ImageUrl(Response([c]))
  {
  }

  // ---------------------------------------------------------------------
  // Errors and the whole call

  /** The catch block: a not-found error on the pro tier becomes the key
      message; anything else is rethrown as it is. */
  function RewriteError(message: string, isPro: bool): (m: string)
    ensures isPro && Contains(message, NotFoundSignature) ==> m == KeyIssueMessage
    ensures !(isPro && Contains(message, NotFoundSignature)) ==> m == message
  {
    if Contains(message, NotFoundSignature) && isPro then KeyIssueMessage else message
  }

  /** The service's own no-image error passes the catch block unchanged. */
  lemma NoImageErrorUnchanged(isPro: bool)
    ensures RewriteError(NoImageMessage, isPro) == NoImageMessage
  {
    assert 'R' !in NoImageMessage;
    AbsentCharNotContained(NoImageMessage, NotFoundSignature);
  }

  /** Everything one call of the service does and yields. */
  datatype Generation = Generation(
    keyCheck: KeyCheck,
    request: Request,
    result: Result<GeneratedImage, string>)

  /** One call of the service. `provider` answers a request; `id` and `now`
      are the fresh identifier and the current time. The outcome of the key
      dialog is not an input: the call goes ahead in every case. */
  function GenerateImage(
    config: GenerationConfig,
    studio: Option<Studio>,
    provider: Request -> ProviderOutcome,
    id: string,
    now: int): (g: Generation)
    ensures g.keyCheck == EnsureApiKey(config.isPro, studio)
    ensures g.request == BuildRequest(config)
    ensures g.result.Success? <==>
              provider(g.request).Responded? && ImageUrl(provider(g.request).response).Some?
    ensures g.result.Success? ==>
              var image := g.result.value;
              && image.id == id
              && image.url == ImageUrl(provider(g.request).response).value
              && image.prompt == config.prompt
              && image.aspectRatio == config.aspectRatio
              && image.timestamp == now
              && (image.model == ProModel <==> config.isPro)
              && (image.model == FlashModel <==> !config.isPro)
    ensures provider(g.request).Responded? && g.result.Failure? ==>
              g.result.error == NoImageMessage
    ensures provider(g.request).Threw? ==>
              g.result == Failure(RewriteError(provider(g.request).message, config.isPro))
  {
    var keyCheck := EnsureApiKey(config.isPro, studio);
    var request := BuildRequest(config);
    var result :=
      match provider(request)
      case Threw(message) => Failure(RewriteError(message, config.isPro))
      case Responded(response) =>
        (match ImageUrl(response)
         case None =>
           NoImageErrorUnchanged(config.isPro);
           Failure(RewriteError(NoImageMessage, config.isPro))
         case Some(url) =>
           Success(GeneratedImage(id, url, config.prompt, config.aspectRatio, now, request.model)));
    Generation(keyCheck, request, result)
  }

  /** The service discards what the key check returns and never branches on
      whether the dialog was opened: for the same provider answer, two pages
      that differ only in their key capability get the same result. */
  lemma ResultIndependentOfKeyDialog(
    config: GenerationConfig,
    s1: Option<Studio>,
    s2: Option<Studio>,
    provider: Request -> ProviderOutcome,
    id: string,
    now: int)
    ensures GenerateImage(config, s1, provider, id, now).result
         == GenerateImage(config, s2, provider, id, now).result
  {
  }
}
