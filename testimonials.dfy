/**
  The home page's testimonial cards: a review's rating is clamped to a whole number of stars
  out of five.
 */
module Testimonials {
  import opened Json

  const StarCount := 5

  /** `clampRating`. */
  function ClampRating(rating: Num): (r: int)
    ensures 0 <= r <= StarCount
    ensures rating.NonFinite? ==> r == 0
    ensures rating.Finite? && 0.0 <= rating.value < 6.0 ==> r == rating.value.Floor
    ensures rating.Finite? && rating.value >= 5.0 ==> r == 5
    ensures rating.Finite? && rating.value < 0.0 ==> r == 0
  {
    if rating.NonFinite? then 0
    else
      var f := rating.value.Floor;
      if f < 0 then 0 else if f > StarCount then StarCount else f
  }

  /** The five stars of a card, filled while `i < rating`. */
  function Stars(rating: Num): (r: seq<bool>)
    ensures |r| == StarCount
  {
    var n := ClampRating(rating);
    seq(StarCount, i requires 0 <= i < StarCount => i < n)
  }

  function Filled(stars: seq<bool>): (r: nat)
    ensures r <= |stars|
  {
    if stars == [] then 0 else Filled(stars[..|stars| - 1]) + (if stars[|stars| - 1] then 1 else 0)
  }

  lemma {:induction false} FilledPrefix(stars: seq<bool>, n: nat)
    requires n <= |stars|
    requires forall i :: 0 <= i < |stars| ==> (stars[i] <==> i < n)
    ensures Filled(stars) == n
  {
    if stars != [] {
      var init := stars[..|stars| - 1];
      if n == |stars| {
        FilledPrefix(init, n - 1);
      } else {
        FilledPrefix(init, n);
      }
    }
  }

  /** A card fills exactly as many stars as the clamped rating, out of five. */
  lemma FilledStarsAreRating(rating: Num)
    ensures Filled(Stars(rating)) == ClampRating(rating)
  {
    FilledPrefix(Stars(rating), ClampRating(rating));
  }

  /** The section: nothing without reviews, otherwise one row of stars per review, in order. */
  function Section(ratings: seq<Num>): (r: seq<seq<bool>>)
    ensures |r| == |ratings|
    ensures forall i :: 0 <= i < |r| ==> Filled(r[i]) == ClampRating(ratings[i])
  {
    if ratings == [] then []
    else
      FilledStarsAreRating(ratings[|ratings| - 1]);
      Section(ratings[..|ratings| - 1]) + [Stars(ratings[|ratings| - 1])]
  }
}
