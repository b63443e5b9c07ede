/** The two-thumb price filter. */
module PriceSlider {

  /** The lowest of a non-empty list of prices. */
  function SeqMin(s: seq<int>): (m: int)
    requires |s| > 0
    ensures m in s && forall i :: 0 <= i < |s| ==> m <= s[i]
  {
    if |s| == 1 then s[0]
    else
      var rest := SeqMin(s[1..]);
      assert s[1..][0] == s[1];
      if s[0] <= rest then s[0] else rest
  }

  /** The highest of a non-empty list of prices. */
  function SeqMax(s: seq<int>): (m: int)
    requires |s| > 0
    ensures m in s && forall i :: 0 <= i < |s| ==> s[i] <= m
  {
    if |s| == 1 then s[0]
    else
      var rest := SeqMax(s[1..]);
      if s[0] >= rest then s[0] else rest
  }

  class PriceSlider {
    var minPrice: int
    var maxPrice: int
    var currentMinPrice: int
    var currentMaxPrice: int
    /** The arguments of every onPriceChange call, in order. */
    var reported: seq<(int, int)>

    constructor ()
      ensures minPrice == 0 && maxPrice == 0 && currentMinPrice == 0 && currentMaxPrice == 0
      ensures reported == []
    {
      minPrice, maxPrice := 0, 0;
      currentMinPrice, currentMaxPrice := 0, 0;
      reported := [];
    }

    /** The effect run when the item list changes: a non-empty list sets the
        range and both thumbs to its lowest and highest price. */
    method SetItems(prices: seq<int>)
      modifies this`minPrice, this`maxPrice, this`currentMinPrice, this`currentMaxPrice
      ensures |prices| == 0 ==> minPrice == old(minPrice) && maxPrice == old(maxPrice) &&
                                currentMinPrice == old(currentMinPrice) && currentMaxPrice == old(currentMaxPrice)
      ensures |prices| > 0 ==>
        && minPrice == currentMinPrice == SeqMin(prices)
        && maxPrice == currentMaxPrice == SeqMax(prices)
        && minPrice <= maxPrice
    {
      if |prices| > 0 {
        var lowest := SeqMin(prices);
        var highest := SeqMax(prices);
        minPrice, maxPrice := lowest, highest;
        currentMinPrice, currentMaxPrice := lowest, highest;
      }
    }

    /** The lower thumb: clamped one below the upper thumb. */
    method HandleMinPriceChange(value: int)
      modifies this`currentMinPrice, this`reported
      ensures currentMinPrice == if value <= old(currentMaxPrice) - 1 then value else old(currentMaxPrice) - 1
      ensures currentMinPrice < currentMaxPrice == old(currentMaxPrice)
      ensures reported == old(reported) + [(currentMinPrice, currentMaxPrice)]
    {
      var v := if value <= currentMaxPrice - 1 then value else currentMaxPrice - 1;
      currentMinPrice := v;
      reported := reported + [(v, currentMaxPrice)];
    }

    /** The upper thumb: clamped one above the lower thumb. */
    method HandleMaxPriceChange(value: int)
      modifies this`currentMaxPrice, this`reported
      ensures currentMaxPrice == if value >= old(currentMinPrice) + 1 then value else old(currentMinPrice) + 1
      ensures old(currentMinPrice) == currentMinPrice < currentMaxPrice
      ensures reported == old(reported) + [(currentMinPrice, currentMaxPrice)]
    {
      var v := if value >= currentMinPrice + 1 then value else currentMinPrice + 1;
      currentMaxPrice := v;
      reported := reported + [(currentMinPrice, v)];
    }
  }
}
