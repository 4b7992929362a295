/** The heatmap colour scale (contribution_color, GUI.py:78-87). */
module Palette {

  /** LIGHT_PALETTE, GUI.py:48: empty, then four greens from light to dark. */
  const LightPalette: seq<string> := ["#ebedf0", "#9be9a8", "#40c463", "#30a14e", "#216e39"]

  /** The palette slot contribution_color picks for a day with `count` modifications. */
  function ColorIndex(count: int): (i: nat)
    ensures i < |LightPalette|
  {
    if count == 0 then 0
    else if count == 1 then 1
    else if count <= 3 then 2
    else if count <= 6 then 3
    else 4
  }

  /** contribution_color(palette, count); the source indexes the palette without a check. */
  function ContributionColor<T>(palette: seq<T>, count: int): (c: T)
    requires ColorIndex(count) < |palette|
    // always a palette colour; an idle day gets the first, a day of seven or more the fifth
    ensures c in palette
    ensures count == 0 ==> c == palette[0]
    ensures count >= 7 ==> c == palette[4]
  {
    palette[ColorIndex(count)]
  }

  /** The buckets: 0 | 1 | 2-3 | 4-6 | 7 and more. */
  lemma ColorBuckets(count: nat)
    ensures ColorIndex(count) == 0 <==> count == 0
    ensures ColorIndex(count) == 1 <==> count == 1
    ensures ColorIndex(count) == 2 <==> 2 <= count <= 3
    ensures ColorIndex(count) == 3 <==> 4 <= count <= 6
    ensures ColorIndex(count) == 4 <==> 7 <= count
  {
  }

  /** A busier day never gets a lighter colour. */
  lemma ColorMonotone(a: nat, b: nat)
    requires a <= b
    ensures ColorIndex(a) <= ColorIndex(b)
  {
  }
}
