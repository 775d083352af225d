# Prisma AI image generator — Dafny model

This project models the logic of a browser client that turns a text prompt into an image
through Google's Gemini image models and keeps the results in a gallery. Three pieces are
modelled:

- **The generation service** (`services/geminiService.ts`). It checks the pro-tier key. It
  picks the model from the tier and builds the image configuration, where the size field is
  sent only for the pro tier. It scans the first candidate of the response for its first
  inline-data part, turns that part into a `data:` URI and builds the gallery record. In the
  pro tier it rewrites a "Requested entity was not found" error into a key message.
- **The application's state handlers** (`App.tsx`): generate, delete, clear, and open or
  close the viewer. The state is `AppState(images, selected, error, generating)`.
- **The display components**: the card's PRO/FAST badge, the viewer's model label, the
  shared download file name, and the aspect-ratio picker's options and highlight.

Everything is a pure function over immutable datatypes. Some inputs are parameters:

- The provider is a function `Request -> ProviderOutcome`. It either answers with candidates
  of tagged parts (`InlineData(mimeType?, data)` or `Text(text)`) or throws a message.
- The page's key capability is an `Option<Studio>` value.
- The fresh identifier, the clock reading and the user's answer to the clear-history
  confirmation are also parameters.

Modules: `Wrappers` (Option, Result), `Strings` (`includes` and `trim`), `Types`,
`GeminiService`, `Effects` (what components ask the browser or their parent to do, and the
download name), `ImageCard`, `ImageViewer`, `AspectRatioSelector`, `App`, and `Consistency`
(facts that span components).

Some behaviour one might expect of such a client is not in the code, and the model follows the code:

- The code has no safety-block or permission-denied classification and no credential flag.
  Every response without an inline image (no candidates, no parts, or text only) gives the
  one message "No image data found in response".
- The not-found rewrite happens only for the pro tier.
- The viewer only displays, downloads and copies. It has no rotation, zoom, filters,
  gestures or rasterizer.

## Model

| member | source | states |
|---|---|---|
| Types.ParseAspectRatio | types.ts:1 | only the five literals "1:1", "3:4", "4:3", "9:16", "16:9" denote an aspect ratio, and each parses to the ratio whose text it is |
| Types.AspectRatioEnumeration | types.ts:1 | there are exactly five aspect ratios, every one is listed, and their texts are pairwise distinct |
| Types.AspectRatioRoundTrip | types.ts:1 | reading back the text of any aspect ratio gives that ratio |
| Types.ParseResolution | types.ts:2 | only "1K", "2K", "4K" denote a resolution, each parsing to its own value |
| Types.ResolutionEnumeration | types.ts:2 | there are exactly three resolutions, all listed, with distinct texts |
| Types.ResolutionRoundTrip | types.ts:2 | reading back the text of any resolution gives that resolution |
| Strings.TrimStart | App.tsx:41 | leading-whitespace removal: the input is a blank prefix followed by the result, and the result does not start with whitespace |
| Strings.TrimEnd | App.tsx:41 | trailing-whitespace removal: the input is the result followed by a blank suffix, and the result does not end with whitespace |
| Strings.Trim | App.tsx:41 | `prompt.trim()` neither starts nor ends with JavaScript whitespace, and it is empty (so `!prompt.trim()` holds) exactly when every character of the prompt is whitespace |
| Strings.TrimIsSlice | App.tsx:41 | the trimmed prompt is a contiguous slice of the prompt with only whitespace on either side |
| Strings.Contains | services/geminiService.ts:80 | `includes` holds exactly when the text occurs at some position of the string; the same test picks the card's badge at components/ImageCard.tsx:51 |
| GeminiService.EnsureApiKey | services/geminiService.ts:5-18 | the page is asked for a key only in the pro tier and only when it offers the check; the key dialog opens only when, in addition, the answer is no and the dialog exists |
| GeminiService.ModelName | services/geminiService.ts:26 | the model is the pro model exactly when the request is pro, and the flash model exactly when it is not |
| GeminiService.BuildImageConfig | services/geminiService.ts:28-34 | the aspect ratio is always the request's; a size is present exactly when the request is pro and has a resolution, and then it is that resolution |
| GeminiService.BuildRequest | services/geminiService.ts:37-45 | the provider receives the model chosen by tier, the prompt as given, the request's aspect ratio, and a size only for a pro request with a resolution |
| GeminiService.StandardRequestHasNoSize | services/geminiService.ts:32-34 | a standard-tier request never carries a size, even when the configuration holds a resolution |
| GeminiService.EffectiveMimeType | services/geminiService.ts:57 | the declared MIME type is used when present and non-empty, otherwise image/png; the result is never empty |
| GeminiService.DataUri | services/geminiService.ts:58 | the image URL always begins with "data:" and is non-empty, so the later empty-URL check fails only when no image part was found |
| GeminiService.ParseDataUri | services/geminiService.ts:58 | a base64 data URI reads back into a MIME type without ';' and data that rebuild the URI exactly |
| GeminiService.DataUriRoundTrip | services/geminiService.ts:57-58 | the URI the service builds reads back as the MIME type it used and the data it was given, when that MIME type has no parameters |
| GeminiService.FirstInlineIndex | services/geminiService.ts:51-61 | the scan stops at the first inline-data part; it finds none exactly when no part has inline data |
| GeminiService.LaterPartsIgnored | services/geminiService.ts:51-60 | parts after the first inline part, including further images, never change the part that wins |
| GeminiService.ImageUrl | services/geminiService.ts:50-62 | a URL is found exactly when there is a first candidate with parts and one of them is inline data; the URL is the data URI of the first such part |
| GeminiService.OnlyFirstCandidate | services/geminiService.ts:50 | candidates after the first are never inspected |
| GeminiService.RewriteError | services/geminiService.ts:77-85 | a pro-tier error whose message contains "Requested entity was not found" becomes the fixed key message; every other error keeps its message |
| GeminiService.NoImageErrorUnchanged | services/geminiService.ts:64-66 | the service's own "No image data found in response" error passes the catch block unchanged in both tiers |
| GeminiService.GenerateImage | services/geminiService.ts:20-86 | the call succeeds exactly when the provider answers with an inline image. The record then carries the fresh id, the data URI, the prompt, the aspect ratio, the time, and the model chosen by tier. Otherwise a thrown error is rewritten as above and an answer without an image fails with the no-image message |
| GeminiService.ResultIndependentOfKeyDialog | services/geminiService.ts:21 | the service discards what the key check returns and never branches on it, so for the same provider answer the result is the same whether or not the dialog was opened |
| Effects.DownloadFilename | components/ImageCard.tsx:18 | the download name is "prisma-" + id + ".png", and the image id can be read back from it |
| Effects.DownloadFilenameInjective | components/ImageCard.tsx:18 | different ids give different download names |
| Effects.DownloadOf | components/ImageViewer.tsx:15-22 | a download saves the image's own URL under a name that identifies the image |
| ImageCard.TierBadge | components/ImageCard.tsx:51 | the badge is PRO exactly when the model name contains "pro", FAST exactly when it does not |
| ImageCard.CaptionOf | components/ImageCard.tsx:46-51 | the overlay shows the prompt, the aspect ratio verbatim (it reads back as the image's ratio) and the tier badge: PRO exactly when the model name contains "pro", FAST exactly when it does not |
| ImageCard.OnCardAction | components/ImageCard.tsx:14-34 | download saves the image under its own name, delete reports exactly the image id, and a click passes the same image, unmodified, to the viewer |
| ImageViewer.ModelLabel | components/ImageViewer.tsx:76 | the label is "Gemini 3 Pro" exactly when the model equals the pro model name, otherwise "Gemini 2.5 Flash" |
| ImageViewer.Render | components/ImageViewer.tsx:13-76 | nothing is rendered exactly when there is no image; otherwise the panel shows the image's URL and prompt, its ratio verbatim, the pro label exactly for the pro model and the flash label for every other model |
| ImageViewer.OnViewerAction | components/ImageViewer.tsx:15-28 | close reports closing, download saves the image under the same name the card uses, and copy writes exactly the prompt |
| AspectRatioSelector.OptionsListEachRatioOnce | components/AspectRatioSelector.tsx:11-17 | every aspect ratio has exactly one button, in the order 1:1, 16:9, 9:16, 4:3, 3:4 |
| AspectRatioSelector.Highlights | components/AspectRatioSelector.tsx:26-28 | a button is highlighted exactly when its value is the current one, so exactly one button is highlighted for any value |
| AspectRatioSelector.OnSelect | components/AspectRatioSelector.tsx:24 | clicking a button emits a value for which that button, and only it, is highlighted, and whose text the option's label contains |
| App.InitialConditions | App.tsx:12-21 | the page opens with an empty gallery (ids trivially unique), no viewer, no error, nothing pending, and a standard-tier form whose request would carry no size |
| App.InitialGenerateDoesNothing | App.tsx:12 | the prompt starts empty, so "Generate" on the opening page changes nothing and calls nothing |
| App.ComposeConfig | App.tsx:46-51 | the configuration carries the form's prompt, ratio and tier; the resolution is present exactly in pro mode and is then the chosen one |
| App.ComposedRequestSize | App.tsx:46-51 | the size reaching the provider is the chosen resolution in pro mode and absent otherwise |
| App.BeginGeneration | App.tsx:43-44 | a started generation is pending with its error cleared, and the gallery and selection are untouched |
| App.ErrorText | App.tsx:57 | the shown error is the failure's message when that is non-empty, else "Failed to generate image. Please try again." |
| App.CompleteGeneration | App.tsx:55-60 | on success the new image is first and the old list follows unchanged (one longer). On failure the list is unchanged and a non-empty error is set. Either way the pending flag is cleared and the selection kept |
| App.HandleGenerate | App.tsx:40-61 | a blank prompt leaves the state unchanged and issues no request. Otherwise exactly one call is made: the service call on the configuration composed from the form, with the given page, provider, id and time. Its request carries the form's values, and its success or failure is applied as above |
| App.CompletePreservesUniqueIds | App.tsx:55 | prepending a record with a fresh id keeps gallery ids unique |
| App.RemoveId | App.tsx:64 | the survivors are exactly the records whose id differs; a list without that id is returned unchanged |
| App.RemoveIdAppend | App.tsx:64 | removal works piecewise over concatenation, so the survivors keep their original relative order |
| App.RemoveIdPreservesUniqueIds | App.tsx:64 | removal keeps gallery ids unique |
| App.HandleDeleteImage | App.tsx:63-66 | every record with the id is removed and the others are kept; the viewer closes exactly when it shows a record with that id; error and pending flag are untouched |
| App.DeleteIdempotent | App.tsx:63-66 | deleting the same id twice is the same as deleting it once |
| App.HandleClearHistory | App.tsx:68-72 | a confirmed clear empties the gallery and changes nothing else; an unconfirmed one changes nothing |
| App.ApplyEffect | App.tsx:211-229 | a card's delete runs the delete handler, a card click opens the viewer on that image, close clears the selection, and downloads and copies leave the state alone |
| Consistency.TierDisplaysAgree | components/ImageCard.tsx:51 | for both model names the service produces, the card badge and the viewer label both state the tier |
| Consistency.BadgeAndLabelDisagreeOnForeignModel | components/ImageViewer.tsx:76 | a stored model name the service never writes, such as "gemini-pro-vision", gets the PRO badge but the flash label |
| Consistency.CardAndViewerDownloadAgree | components/ImageViewer.tsx:18 | the viewer downloads an image exactly as the card does |
| Consistency.CardDeleteRemovesImage | components/ImageCard.tsx:24-27 | deleting from a card removes that image and closes a viewer that shows an image with its id |
| Consistency.SelectedRatioReachesProvider | components/AspectRatioSelector.tsx:24 | the ratio of the clicked button is the ratio sent to the provider |
| Consistency.GeneratedImageShowsTier | services/geminiService.ts:68-75 | a freshly generated image shows its tier on the card and in the viewer |
| Consistency.RedFoxScenario | App.tsx:40-61 | a standard-tier 1:1 "a red fox in snow" answered with one PNG part puts a 1:1 flash-model record with the given id at the front of the gallery, and the request has no size |

## Left out

- Gallery loading from and saving to `localStorage` with JSON (App.tsx:23-38). This is browser I/O. Records read back from storage are where unique ids and known model names stop being guaranteed, so `UniqueIds` is a precondition of the lemmas that keep it.
- The provider client and its construction, `process.env.API_KEY` and `console.error`. These are foreign calls; the provider is a function parameter.
- `crypto.randomUUID()` and `Date.now()`. They are the `id` and `now` parameters; freshness of the id is a precondition where it matters.
- A failure of `hasSelectedApiKey` or `openSelectKey` itself, which would escape outside the `try`. The page's capability is an input that always answers.
- An inline part whose `data` is missing, which JavaScript would embed as the text "undefined". A part's data is always a string here.
- A part carrying both inline data and text. Parts are a tagged union.
- `window.confirm`, clipboard writes, anchor clicks and the two-second reset of the "Copied" flag. These are browser side effects; only the values they receive are modelled (the `confirmed` flag and the `Effect` values).
- The form setters (`setPrompt`, the pro toggle, the resolution buttons) and the generate button's disabled and loading styling. The button component is not part of this model; the same blank-prompt guard is modelled in `App.HandleGenerate`.
- The interleaving of other events while a generation is outstanding. `App.HandleGenerate` applies the result to the state as it was when the press started. `App.CompleteGeneration` models the functional update and can be applied to any later state.
- The key the dialog installs. The client is re-created with `process.env.API_KEY` after the key check (services/geminiService.ts:23-24), so the provider's real answer may depend on the key chosen in the dialog. The model's provider does not see that key, which is why `GeminiService.ResultIndependentOfKeyDialog` speaks only of the same provider answer.
- `GenerationError` (types.ts:20-23), which the code never uses.
- `components/PromptTools.tsx` and `components/StylePresets.tsx`. They are static catalogues of strings with click callbacks and are not used by the application.
- JSX layout, styling and hover state.
- GeminiService.DataUri: its own contract states only that the URI starts with `data:` and is non-empty. The exact layout `data:` + MIME type + `;base64,` + data is stated by `GeminiService.DataUriRoundTrip` through the reader `GeminiService.ParseDataUri`, for MIME types without parameters.
