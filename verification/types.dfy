/** The shared vocabulary of the application: aspect ratios, resolutions,
    the generation request and the stored image record. */
module Types {
  import opened Wrappers

  /** The five aspect ratios the generator accepts. */
  datatype AspectRatio = Ratio1x1 | Ratio3x4 | Ratio4x3 | Ratio9x16 | Ratio16x9
  {
    /** The string literal the type stands for. */
    function Text(): string
    {
      match this
      case Ratio1x1 => "1:1"
      case Ratio3x4 => "3:4"
      case Ratio4x3 => "4:3"
      case Ratio9x16 => "9:16"
      case Ratio16x9 => "16:9"
    }
  }

  /** Every aspect ratio, in the order of the type's declaration. */
  const AllAspectRatios: seq<AspectRatio> :=
    [Ratio1x1, Ratio3x4, Ratio4x3, Ratio9x16, Ratio16x9]

  /** The string literal type: only the five texts denote an aspect ratio. */
  function ParseAspectRatio(s: string): (r: Option<AspectRatio>)
    ensures r.Some? ==> r.value.Text() == s
    ensures r.None? ==> forall a: AspectRatio :: a.Text() != s
  {
    if s == "1:1" then Some(Ratio1x1)
    else if s == "3:4" then Some(Ratio3x4)
    else if s == "4:3" then Some(Ratio4x3)
    else if s == "9:16" then Some(Ratio9x16)
    else if s == "16:9" then Some(Ratio16x9)
    else None
  }

  /** Exactly five aspect ratios exist, each listed once, with distinct texts. */
  lemma AspectRatioEnumeration()
    ensures |AllAspectRatios| == 5
    ensures forall a: AspectRatio :: a in AllAspectRatios
    ensures forall i, j :: 0 <= i < j < |AllAspectRatios| ==>
              AllAspectRatios[i].Text() != AllAspectRatios[j].Text()
  {
    forall a: AspectRatio
      ensures a in AllAspectRatios
    {
      match a
      case Ratio1x1 => assert AllAspectRatios[0] == a;
      case Ratio3x4 => assert AllAspectRatios[1] == a;
      case Ratio4x3 => assert AllAspectRatios[2] == a;
      case Ratio9x16 => assert AllAspectRatios[3] == a;
      case Ratio16x9 => assert AllAspectRatios[4] == a;
    }
  }

  /** Reading back the text of an aspect ratio gives that aspect ratio. */
  lemma AspectRatioRoundTrip(a: AspectRatio)
    ensures ParseAspectRatio(a.Text()) == Some(a)
  {
  }

  /** The three output resolutions of the pro tier. */
  datatype ImageResolution = Res1K | Res2K | Res4K
  {
    function Text(): string
    {
      match this
      case Res1K => "1K"
      case Res2K => "2K"
      case Res4K => "4K"
    }
  }

  const AllResolutions: seq<ImageResolution> := [Res1K, Res2K, Res4K]

  function ParseResolution(s: string): (r: Option<ImageResolution>)
    ensures r.Some? ==> r.value.Text() == s
    ensures r.None? ==> forall x: ImageResolution :: x.Text() != s
  {
    if s == "1K" then Some(Res1K)
    else if s == "2K" then Some(Res2K)
    else if s == "4K" then Some(Res4K)
    else None
  }

  /** Exactly three resolutions exist, each listed once, with distinct texts. */
  lemma ResolutionEnumeration()
    ensures |AllResolutions| == 3
    ensures forall x: ImageResolution :: x in AllResolutions
    ensures forall i, j :: 0 <= i < j < |AllResolutions| ==>
              AllResolutions[i].Text() != AllResolutions[j].Text()
  {
    forall x: ImageResolution
      ensures x in AllResolutions
    {
      match x
      case Res1K => assert AllResolutions[0] == x;
      case Res2K => assert AllResolutions[1] == x;
      case Res4K => assert AllResolutions[2] == x;
    }
  }

  lemma ResolutionRoundTrip(x: ImageResolution)
    ensures ParseResolution(x.Text()) == Some(x)
  {
  }

  /** What the user asks for. Every field is required except the resolution. */
  datatype GenerationConfig = GenerationConfig(
    prompt: string,
    aspectRatio: AspectRatio,
    isPro: bool,
    resolution: Option<ImageResolution>)

  /** A gallery record. The aspect ratio is one of the five; the model is any
      string (it names the model that produced the image). `timestamp` is
      milliseconds since the epoch. */
  datatype GeneratedImage = GeneratedImage(
    id: string,
    url: string,
    prompt: string,
    aspectRatio: AspectRatio,
    timestamp: int,
    model: string)
}
