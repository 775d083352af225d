/** One tile of the gallery grid. */
module ImageCard {
  import opened Wrappers
  import opened Strings
  import opened Types
  import opened Effects

  const ProBadge: string := "PRO"
  const FastBadge: string := "FAST"

  /** The tier badge: any model name containing `pro` counts as pro. */
  function TierBadge(model: string): (badge: string)
    ensures badge == ProBadge <==> Contains(model, "pro")
    ensures badge == FastBadge <==> !Contains(model, "pro")
  {
    if Contains(model, "pro") then ProBadge else FastBadge
  }

  /** What the overlay shows: the prompt, the aspect ratio and the badge. */
  datatype Caption = Caption(prompt: string, ratio: string, badge: string)

  function CaptionOf(image: GeneratedImage): (c: Caption)
    ensures c.prompt == image.prompt
    ensures ParseAspectRatio(c.ratio) == Some(image.aspectRatio)
    ensures c.badge == ProBadge <==> Contains(image.model, "pro")
    ensures c.badge == FastBadge <==> !Contains(image.model, "pro")
  {
    AspectRatioRoundTrip(image.aspectRatio);
    Caption(image.prompt, image.aspectRatio.Text(), TierBadge(image.model))
  }

  datatype CardAction = ClickDownload | ClickDelete | ClickCard

  /** The card's three handlers: download the image itself, report the
      image's identifier for deletion, or pass the image unmodified to the
      viewer. */
  function OnCardAction(image: GeneratedImage, action: CardAction): (e: Effect)
    ensures action == ClickDownload ==>
              e.SaveFile? && e.href == image.url && IdOfDownloadFilename(e.filename) == Some(image.id)
    ensures action == ClickDelete ==> e == DeleteRequested(image.id)
    ensures action == ClickCard ==> e == ViewRequested(image)
  {
    match action
    case ClickDownload => DownloadOf(image)
    case ClickDelete => DeleteRequested(image.id)
    case ClickCard => ViewRequested(image)
  }
}
