/**
 The percentage tiers that colour a pick's badge. The app and the widget each define their own
 boundaries; both are kept here as written, and the lemmas record where they agree and where
 they do not.
 */
module Tiers {

  /** The badge colour: green (25,194,6) or red (251,55,5). */
  datatype Color = Green | Red

  /** The widget's `Option.symbol`: `arrow.up.right` or `arrow.down.right`. The widget's view never draws it. */
  datatype Symbol = Up | Down

  /** The app's `Option.color`: green only when the percentage is strictly above 30. */
  function AppColor(percentage: real): (c: Color)
    ensures c == Green <==> percentage > 30.0
    ensures percentage == 30.0 ==> c == Red
  {
    if percentage > 30.0 then Green else Red
  }

  /** The app's `background(for:)`, written out separately in the view code. */
  function AppBackground(percentage: real): (c: Color)
    ensures c == AppColor(percentage)
  {
    if percentage > 30.0 then Green else Red
  }

  /** The widget's `Option.symbol`: up only when the percentage is strictly above 40. */
  function WidgetSymbol(percentage: real): (sym: Symbol)
    ensures sym == Up <==> percentage > 40.0
    ensures sym == Up ==> WidgetColor(percentage) == Green
  {
    if percentage > 40.0 then Up else Down
  }

  /** The widget's `Option.color`: red only when the percentage is strictly below 30. */
  function WidgetColor(percentage: real): (c: Color)
    ensures c == Red <==> percentage < 30.0
    ensures percentage == 30.0 ==> c == Green
  {
    if percentage < 30.0 then Red else Green
  }

  /** Every row's badge in the app agrees with the pick's own colour. */
  lemma AppBackgroundAgreesWithColor(percentage: real)
    ensures AppBackground(percentage) == AppColor(percentage)
  {
  }

  /** The app boundary is exclusive: exactly 30 is red, anything above is green. */
  lemma AppBoundary(percentage: real)
    ensures AppColor(30.0) == Red
    ensures AppColor(percentage) == Green <==> percentage > 30.0
  {
  }

  /** The widget boundary is inclusive: exactly 30 is green, anything below is red. */
  lemma WidgetBoundary(percentage: real)
    ensures WidgetColor(30.0) == Green
    ensures WidgetColor(percentage) == Red <==> percentage < 30.0
  {
  }

  /** Both colourings are monotone: raising a percentage never turns a green badge red. */
  lemma ColorsAreMonotone(p: real, q: real)
    requires p <= q
    ensures AppColor(p) == Green ==> AppColor(q) == Green
    ensures WidgetColor(p) == Green ==> WidgetColor(q) == Green
  {
  }

  /** The widget's unused `symbol` is up only where its colour is green; the converse fails between 30 and 40. */
  lemma UpImpliesGreen(percentage: real)
    ensures WidgetSymbol(percentage) == Up ==> WidgetColor(percentage) == Green
    ensures WidgetSymbol(35.0) == Down && WidgetColor(35.0) == Green
  {
  }

  /** The two surfaces colour a percentage differently exactly at 30. */
  lemma SurfacesDisagreeOnlyAtThirty(percentage: real)
    ensures AppColor(percentage) != WidgetColor(percentage) <==> percentage == 30.0
  {
  }
}
