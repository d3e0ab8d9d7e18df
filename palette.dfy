/** The server's colour assigner: a uniform pick from twelve fixed colours. */
module Palette {

  const Colors: seq<string> := [
    "#FF6B6B", "#4ECDC4", "#45B7D1", "#FFA07A",
    "#98D8C8", "#F7DC6F", "#BB8FCE", "#85C1E2",
    "#F8B739", "#52B788", "#E63946", "#457B9D"
  ]

  /** `Math.floor(u * colors.length)`: the index drawn by `u`, which lies in [0, 1). */
  function Index(u: real): (k: int)
    requires 0.0 <= u < 1.0
    ensures 0 <= k < |Colors|
    ensures k as real <= u * 12.0 < (k + 1) as real
  {
    (u * 12.0).Floor
  }

  /**
   * `colors[Math.floor(Math.random() * colors.length)]`, with the value of
   * `Math.random()` passed in as `u`.
   */
  function RandomColor(u: real): (c: string)
    requires 0.0 <= u < 1.0
    ensures c in Colors
  {
    Colors[Index(u)]
  }

  /** The twelve colours are pairwise distinct. */
  lemma ColorsDistinct()
    ensures |Colors| == 12
    ensures forall i, j :: 0 <= i < j < |Colors| ==> Colors[i] != Colors[j]
  {
  }

  /**
   * Every colour is picked by exactly the draws in [k/12, (k+1)/12): each of
   * the twelve is chosen with probability 1/12.
   */
  lemma RandomColorPicks(u: real, k: nat)
    requires k < |Colors|
    requires k as real / 12.0 <= u < (k + 1) as real / 12.0
    ensures RandomColor(u) == Colors[k]
  {
    assert k as real <= u * 12.0 < (k + 1) as real;
    assert Index(u) == k;
  }
}
