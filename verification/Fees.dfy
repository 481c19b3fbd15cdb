/** Fees of replacement transactions. Amounts are in wei. */
module Fees {

  datatype Fees = Fees(feeCap: int, tipCap: int)

  function Max(a: int, b: int): int {
    if a <= b then b else a
  }

  /** The fees of the transaction that replaces one with fees `f`. The gas price passed on as
      the suggested fee cap is the fee cap of the replaced transaction itself. */
  function Replacement(f: Fees, suggestedTip: int): Fees {
    var tip := Max(suggestedTip, f.tipCap) * 110 / 100;
    Fees(f.feeCap + tip, tip)
  }

  /** A replacement is always well formed (EIP-1559: the fee cap covers the tip), raises the
      fee cap by exactly its own tip, and its tip is a tenth over the larger of the old tip
      and the suggestion, rounded down. */
  lemma ReplacementFees(f: Fees, suggestedTip: int)
    requires f.feeCap >= 0
    ensures var r := Replacement(f, suggestedTip);
      && r.feeCap >= r.tipCap
      && r.feeCap - f.feeCap == r.tipCap
      && r.tipCap >= f.tipCap * 11 / 10
      && (suggestedTip > f.tipCap ==> 10 * r.tipCap <= 11 * suggestedTip < 10 * r.tipCap + 10)
      && (suggestedTip <= f.tipCap ==> 10 * r.tipCap <= 11 * f.tipCap < 10 * r.tipCap + 10)
  {
  }

  /** The tip grows exactly when the old tip or the suggestion reaches 10 wei, or the
      suggestion is higher than the old tip. */
  lemma TipGrowsExactly(f: Fees, suggestedTip: int)
    requires f.tipCap >= 0
    ensures Replacement(f, suggestedTip).tipCap > f.tipCap <==>
            f.tipCap >= 10 || suggestedTip > f.tipCap
    ensures Replacement(f, suggestedTip).tipCap >= f.tipCap
  {
  }

  /** `a` divided by ten and rounded up. */
  function TenthUp(a: int): (r: int)
    ensures 10 * r - 10 < a <= 10 * r
  {
    (a + 9) / 10
  }

  /** Rounding down reaches a bound exactly when the number itself does. */
  lemma RoundedDownReaches(a: int, bound: int)
    ensures a * 110 / 100 >= bound <==> 11 * a >= 10 * bound
  {
    var q := a * 110 / 100;
    assert 100 * q <= a * 110 < 100 * q + 100;
  }

  lemma RoundedUpReaches(tip: int, cap: int)
    ensures 10 * tip >= cap <==> tip >= TenthUp(cap)
  {
  }

  /** The fee cap, unlike the tip, is not raised by a tenth of itself: it is when, and only
      when, the larger of the old tip and the suggestion, raised by a tenth, reaches a tenth of
      the old fee cap. */
  lemma FeeCapTenthExactly(f: Fees, suggestedTip: int)
    ensures 10 * Replacement(f, suggestedTip).feeCap >= 11 * f.feeCap <==>
            11 * suggestedTip >= 10 * TenthUp(f.feeCap) || 11 * f.tipCap >= 10 * TenthUp(f.feeCap)
  {
    RoundedUpReaches(Replacement(f, suggestedTip).tipCap, f.feeCap);
    RoundedDownReaches(Max(suggestedTip, f.tipCap), TenthUp(f.feeCap));
  }

  lemma FeeCapTenthFails()
    ensures Replacement(Fees(2000, 100), 50) == Fees(2110, 110)
    ensures 10 * 2110 < 11 * 2000
  {
  }

  /** Cancelling a transaction, then the cancellation, and so on. */
  function Chain(f: Fees, suggestions: seq<int>): Fees
    decreases |suggestions|
  {
    if suggestions == [] then f else Chain(Replacement(f, suggestions[0]), suggestions[1..])
  }

  lemma Triangular(k: nat, t: int, t1: int)
    requires t1 >= t + 1
    ensures 2 * t1 + (2 * (k - 1) * t1 + (k - 1) * k) >= 2 * k * t + k * (k + 1)
  {
    assert k * t1 >= k * (t + 1);
    assert 2 * t1 + 2 * (k - 1) * t1 == 2 * (k * t1);
    assert 2 * (k * (t + 1)) + (k - 1) * k == 2 * k * t + k * (k + 1);
  }

  /** Whatever is suggested, a chain of `k` cancellations raises the tip by at least `k` and
      the fee cap by at least `k * tip + k * (k + 1) / 2`. */
  lemma {:induction false} ChainGrows(f: Fees, suggestions: seq<int>)
    requires f.tipCap >= 10
    ensures var k := |suggestions|; var r := Chain(f, suggestions);
      && r.tipCap >= f.tipCap + k
      && 2 * (r.feeCap - f.feeCap) >= 2 * k * f.tipCap + k * (k + 1)
    decreases |suggestions|
  {
    if suggestions != [] {
      var f1 := Replacement(f, suggestions[0]);
      TipGrowsExactly(f, suggestions[0]);
      ChainGrows(f1, suggestions[1..]);
      Triangular(|suggestions|, f.tipCap, f1.tipCap);
    }
  }
}
