/** The full-screen viewer: shows one image with its details, downloads it
    and copies its prompt. */
module ImageViewer {
  import opened Wrappers
  import opened Types
  import opened Effects
  import GeminiService

  const ProLabel: string := "Gemini 3 Pro"
  const FlashLabel: string := "Gemini 2.5 Flash"

  /** Only the exact pro model name is labelled pro; anything else is shown
      as the flash model. */
  function ModelLabel(model: string): (shown: string)
    ensures shown == ProLabel <==> model == GeminiService.ProModel
    ensures shown == FlashLabel <==> model != GeminiService.ProModel
  {
    if model == GeminiService.ProModel then ProLabel else FlashLabel
  }

  /** The details panel. */
  datatype Panel = Panel(url: string, prompt: string, ratio: string, modelLabel: string)

  /** Nothing is rendered without an image. */
  function Render(image: Option<GeneratedImage>): (p: Option<Panel>)
    ensures p.Some? <==> image.Some?
    ensures p.Some? ==>
              && p.value.url == image.value.url
              && p.value.prompt == image.value.prompt
              && ParseAspectRatio(p.value.ratio) == Some(image.value.aspectRatio)
              && (p.value.modelLabel == ProLabel <==> image.value.model == GeminiService.ProModel)
              && (p.value.modelLabel == FlashLabel <==> image.value.model != GeminiService.ProModel)
  {
    match image
    case None => None
    case Some(img) =>
      AspectRatioRoundTrip(img.aspectRatio);
      Some(Panel(img.url, img.prompt, img.aspectRatio.Text(), ModelLabel(img.model)))
  }

  datatype ViewerAction = ClickClose | ClickDownload | ClickCopyPrompt

  /** The viewer's handlers: close, download the original under its own
      name, or put exactly the prompt on the clipboard. */
  function OnViewerAction(image: GeneratedImage, action: ViewerAction): (e: Effect)
    ensures action == ClickClose ==> e == ViewerClosed
    ensures action == ClickDownload ==>
              e.SaveFile? && e.href == image.url && IdOfDownloadFilename(e.filename) == Some(image.id)
    ensures action == ClickCopyPrompt ==> e == ClipboardWrite(image.prompt)
  {
    match action
    case ClickClose => ViewerClosed
    case ClickDownload => DownloadOf(image)
    case ClickCopyPrompt => ClipboardWrite(image.prompt)
  }
}
