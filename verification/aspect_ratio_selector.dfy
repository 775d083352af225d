/** The aspect-ratio picker: five buttons, one per ratio, the current one
    highlighted. */
module AspectRatioSelector {
  import opened Strings
  import opened Types

  datatype RatioOption = RatioOption(labelText: string, value: AspectRatio)

  /** The options, in display order, each with its descriptive label; the
      button itself shows an icon and the ratio's text. */
  const RatioOptions: seq<RatioOption> := [
    RatioOption("Square (1:1)", Ratio1x1),
    RatioOption("Landscape (16:9)", Ratio16x9),
    RatioOption("Portrait (9:16)", Ratio9x16),
    RatioOption("Landscape (4:3)", Ratio4x3),
    RatioOption("Portrait (3:4)", Ratio3x4)
  ]

  /** Some button carries the value `a`. */
  predicate Offered(a: AspectRatio)
  {
    exists i :: 0 <= i < |RatioOptions| && RatioOptions[i].value == a
  }

  /** Every aspect ratio has exactly one button, in the order square, the two
      wide-screen ratios, then the two photo ratios. */
  lemma OptionsListEachRatioOnce()
    ensures |RatioOptions| == |AllAspectRatios|
    ensures forall a: AspectRatio :: Offered(a)
    ensures forall i, j :: 0 <= i < j < |RatioOptions| ==> RatioOptions[i].value != RatioOptions[j].value
    ensures RatioOptions[0].value.Text() == "1:1" && RatioOptions[1].value.Text() == "16:9"
         && RatioOptions[2].value.Text() == "9:16" && RatioOptions[3].value.Text() == "4:3"
         && RatioOptions[4].value.Text() == "3:4"
  {
    forall a: AspectRatio
      ensures Offered(a)
    {
      match a
      case Ratio1x1 => assert RatioOptions[0].value == a;
      case Ratio16x9 => assert RatioOptions[1].value == a;
      case Ratio9x16 => assert RatioOptions[2].value == a;
      case Ratio4x3 => assert RatioOptions[3].value == a;
      case Ratio3x4 => assert RatioOptions[4].value == a;
    }
  }

  /** Which buttons are drawn highlighted for the current value: for any
      value, exactly one. */
  function Highlights(current: AspectRatio): (h: seq<bool>)
    ensures |h| == |RatioOptions|
    ensures forall i :: 0 <= i < |h| ==> (h[i] <==> RatioOptions[i].value == current)
    ensures exists i :: 0 <= i < |h| && h[i] && forall j :: 0 <= j < |h| && h[j] ==> j == i
  {
    OptionsListEachRatioOnce();
    var h := seq(|RatioOptions|, i requires 0 <= i < |RatioOptions| => RatioOptions[i].value == current);
    assert Offered(current);
    var i :| 0 <= i < |RatioOptions| && RatioOptions[i].value == current;
    assert h[i];
    h
  }

  /** Clicking button `i` reports that button's value: afterwards that
      button, and only it, is highlighted, and the option's label names the ratio. */
  function OnSelect(i: nat): (v: AspectRatio)
    requires i < |RatioOptions|
    ensures Highlights(v)[i]
    ensures forall j :: 0 <= j < |RatioOptions| && j != i ==> !Highlights(v)[j]
    ensures Contains(RatioOptions[i].labelText, v.Text())
  {
    OptionsListEachRatioOnce();
    var v := RatioOptions[i].value;
    var lbl := RatioOptions[i].labelText;
    assert OccursAt(lbl, v.Text(), |lbl| - |v.Text()| - 1);
    OccurrenceContained(lbl, v.Text(), |lbl| - |v.Text()| - 1);
    v
  }
}
