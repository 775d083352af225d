/** What the gallery's components ask the browser or their parent to do.
    The browser side (anchor download, clipboard) only receives these values. */
module Effects {
  import opened Wrappers
  import opened Types

  const DownloadPrefix: string := "prisma-"
  const DownloadSuffix: string := ".png"

  /** Reads an image identifier back out of a download file name. */
  function IdOfDownloadFilename(name: string): (id: Option<string>)
    ensures id.Some? ==> name == DownloadPrefix + id.value + DownloadSuffix
  {
    if |name| >= |DownloadPrefix| + |DownloadSuffix|
       && name[..|DownloadPrefix|] == DownloadPrefix
       && name[|name| - |DownloadSuffix|..] == DownloadSuffix
    then
      var id := name[|DownloadPrefix|..|name| - |DownloadSuffix|];
      assert name == name[..|DownloadPrefix|] + id + name[|name| - |DownloadSuffix|..];
      Some(id)
    else
      None
  }

  /** The file name both the card and the viewer give a download. It names
      the image: the identifier can be read back from it. */
  function DownloadFilename(id: string): (name: string)
    ensures IdOfDownloadFilename(name) == Some(id)
  {
    var name := DownloadPrefix + id + DownloadSuffix;
    assert name[..|DownloadPrefix|] == DownloadPrefix;
    assert name[|name| - |DownloadSuffix|..] == DownloadSuffix;
    assert name[|DownloadPrefix|..|name| - |DownloadSuffix|] == id;
    name
  }

  /** Different images download under different names. */
  lemma DownloadFilenameInjective(a: string, b: string)
    requires DownloadFilename(a) == DownloadFilename(b)
    ensures a == b
  {
    assert IdOfDownloadFilename(DownloadFilename(a)) == Some(a);
  }

  datatype Effect =
    | SaveFile(href: string, filename: string)   // anchor with `download` clicked
    | DeleteRequested(id: string)                // `onDelete(id)`
    | ViewRequested(image: GeneratedImage)       // `onView(image)`
    | ViewerClosed                               // `onClose()`
    | ClipboardWrite(text: string)               // `navigator.clipboard.writeText`

  /** Downloading an image saves its own URL under its own name. */
  function DownloadOf(image: GeneratedImage): (e: Effect)
    ensures e.SaveFile? && e.href == image.url
    ensures IdOfDownloadFilename(e.filename) == Some(image.id)
  {
    SaveFile(image.url, DownloadFilename(image.id))
  }
}
