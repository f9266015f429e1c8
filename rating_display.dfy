// The rating widget (Social-Good-Juba-main/client/src/components/RatingDisplay.js):
// which state it shows, the five stars drawn for an average, and the
// per-star breakdown bars. Averages are in tenths of a star, as the server
// rounds them to one decimal.

module RatingDisplay {
  import opened Common
  import opened Ratings

  datatype Star = Filled | HalfStar | EmptyStar

  function Repeat(s: Star, n: int): (r: seq<Star>)
    ensures |r| == if n < 0 then 0 else n
    ensures forall i :: 0 <= i < |r| ==> r[i] == s
    decreases n
  {
    if n <= 0 then [] else [s] + Repeat(s, n - 1)
  }

  /** `Math.floor(rating)`. */
  function FullStars(tenths: int): int
  {
    tenths / 10
  }

  /** `rating % 1 !== 0`. */
  predicate HasHalf(tenths: int)
  {
    tenths % 10 != 0
  }

  /** What renderStars draws: the full stars, a half star for a fraction, then empty stars up to five. */
  function StarsFor(tenths: int): (r: seq<Star>)
  {
    var full := FullStars(tenths);
    var half := if HasHalf(tenths) then 1 else 0;
    Repeat(Filled, full) + (if HasHalf(tenths) then [HalfStar] else []) + Repeat(EmptyStar, 5 - full - half)
  }

  function CountStar(stars: seq<Star>, s: Star): (n: nat)
    ensures n <= |stars|
  {
    if stars == [] then 0 else (if stars[0] == s then 1 else 0) + CountStar(stars[1..], s)
  }

  lemma {:induction false} CountConcat(a: seq<Star>, b: seq<Star>, s: Star)
    ensures CountStar(a + b, s) == CountStar(a, s) + CountStar(b, s)
  {
    if a != [] {
      assert (a + b)[1..] == a[1..] + b && (a + b)[0] == a[0];
      CountConcat(a[1..], b, s);
    } else {
      assert a + b == b;
    }
  }

  lemma {:induction false} CountRepeat(s: Star, n: int, t: Star)
    ensures CountStar(Repeat(s, n), t) == if s == t && n > 0 then n else 0
    decreases n
  {
    if n > 0 {
      assert Repeat(s, n)[1..] == Repeat(s, n - 1);
      CountRepeat(s, n - 1, t);
    }
  }

  /**
   * For an average between 0 and 5 stars: five stars in all, as many full
   * ones as the whole part, and a half star exactly when there is a
   * fraction.
   */
  lemma FiveStars(tenths: int)
    requires 0 <= tenths <= 50
    ensures |StarsFor(tenths)| == 5
    ensures CountStar(StarsFor(tenths), Filled) == tenths / 10
    ensures CountStar(StarsFor(tenths), HalfStar) == (if tenths % 10 != 0 then 1 else 0)
    ensures CountStar(StarsFor(tenths), EmptyStar) == 5 - tenths / 10 - (if tenths % 10 != 0 then 1 else 0)
  {
    var full := FullStars(tenths);
    var half: seq<Star> := if HasHalf(tenths) then [HalfStar] else [];
    var rest := 5 - full - |half|;
    assert rest >= 0;
    forall t: Star ensures CountStar(StarsFor(tenths), t) ==
      CountStar(Repeat(Filled, full), t) + CountStar(half, t) + CountStar(Repeat(EmptyStar, rest), t)
    {
      CountConcat(Repeat(Filled, full) + half, Repeat(EmptyStar, rest), t);
      CountConcat(Repeat(Filled, full), half, t);
    }
    CountRepeat(Filled, full, Filled);
    CountRepeat(Filled, full, HalfStar);
    CountRepeat(Filled, full, EmptyStar);
    CountRepeat(EmptyStar, rest, Filled);
    CountRepeat(EmptyStar, rest, HalfStar);
    CountRepeat(EmptyStar, rest, EmptyStar);
    if HasHalf(tenths) {
      assert half[1..] == [];
    }
  }

  /** `renderStars(rating)`: the three loops that push into `stars`. */
  method RenderStars(tenths: int) returns (stars: seq<Star>)
    ensures stars == StarsFor(tenths)
  {
    var fullStars := FullStars(tenths);
    var hasHalfStar := HasHalf(tenths);
    stars := PushStars([], Filled, fullStars);
    if hasHalfStar {
      stars := stars + [HalfStar];
    }
    stars := PushStars(stars, EmptyStar, 5 - fullStars - (if hasHalfStar then 1 else 0));
  }

  /** One of renderStars' loops: `for (let i = 0; i < n; i++) stars.push(s)`. */
  method PushStars(start: seq<Star>, s: Star, n: int) returns (stars: seq<Star>)
    ensures stars == start + Repeat(s, n)
  {
    stars := start;
    var i := 0;
    while i < n
      invariant 0 <= i && (i <= n || i == 0)
      invariant stars == start + Repeat(s, i)
    {
      RepeatSnoc(s, i);
      stars := stars + [s];
      i := i + 1;
    }
  }

  lemma {:induction false} RepeatSnoc(s: Star, n: nat)
    ensures Repeat(s, n + 1) == Repeat(s, n) + [s]
  {
    if n > 0 {
      RepeatSnoc(s, n - 1);
    }
  }

  /** `typeof averageRating === 'number' && !isNaN(averageRating) ? averageRating : 0`; `None` is anything else. */
  function ShownAverage(average: Option<int>): (t: int)
    ensures average.Some? ==> t == average.value
    ensures average.None? ==> t == 0
  {
    if average.Some? then average.value else 0
  }

  /** A breakdown bar: its star label, its count, and its width `count / total * 100` percent as a fraction. */
  datatype Bar = Bar(stars: int, count: nat, widthNumerator: nat, widthDenominator: nat)

  function BarFor(stars: int, count: nat, total: nat): (b: Bar)
    ensures b.widthNumerator == 100 * count && b.widthDenominator == total
  {
    Bar(stars, count, 100 * count, total)
  }

  /** `Object.entries(ratings).reverse()`: the star counts from five down to one. */
  function Breakdown(counts: map<int, nat>, total: nat): (r: seq<Bar>)
    ensures forall b :: b in r ==> b.stars in counts && b == BarFor(b.stars, counts[b.stars], total)
    ensures counts.Keys == {1, 2, 3, 4, 5} ==> |r| == 5 && r[0].stars == 5 && r[4].stars == 1
  {
    BarsFrom(counts, total, 5)
  }

  function BarsFrom(counts: map<int, nat>, total: nat, s: int): (r: seq<Bar>)
    ensures forall b :: b in r ==> b.stars in counts && 1 <= b.stars <= s && b == BarFor(b.stars, counts[b.stars], total)
    ensures (forall k :: 1 <= k <= s ==> k in counts) ==> |r| == (if s < 0 then 0 else s)
    ensures (forall k :: 1 <= k <= s ==> k in counts) && s >= 1 ==> r[0].stars == s && r[|r| - 1].stars == 1
    decreases s
  {
    if s < 1 then []
    else if s in counts then [BarFor(s, counts[s], total)] + BarsFrom(counts, total, s - 1)
    else BarsFrom(counts, total, s - 1)
  }

  function SumNumerators(bars: seq<Bar>): nat
  {
    if bars == [] then 0 else bars[0].widthNumerator + SumNumerators(bars[1..])
  }

  /** The counts of the stars `1..s` that the map has. */
  function CountsUpTo(counts: map<int, nat>, s: int): nat
    decreases s
  {
    if s < 1 then 0 else (if s in counts then counts[s] else 0) + CountsUpTo(counts, s - 1)
  }

  lemma {:induction false} BarsSum(counts: map<int, nat>, total: nat, s: int)
    ensures SumNumerators(BarsFrom(counts, total, s)) == 100 * CountsUpTo(counts, s)
    decreases s
  {
    if s >= 1 {
      BarsSum(counts, total, s - 1);
      if s in counts {
        var r := BarsFrom(counts, total, s);
        assert r[0] == BarFor(s, counts[s], total) && r[1..] == BarsFrom(counts, total, s - 1);
      }
    }
  }

  /** When the five counts add up to the number of reviews, the bars' widths add up to 100%. */
  lemma BarsFillWhole(counts: map<int, nat>, total: nat)
    requires counts.Keys == {1, 2, 3, 4, 5}
    requires counts[1] + counts[2] + counts[3] + counts[4] + counts[5] == total
    ensures SumNumerators(Breakdown(counts, total)) == 100 * total
  {
    BarsSum(counts, total, 5);
    assert CountsUpTo(counts, 1) == counts[1];
    assert CountsUpTo(counts, 3) == counts[3] + counts[2] + counts[1];
    assert CountsUpTo(counts, 5) == total;
  }

  datatype View = LoadingView | Unavailable | NoReviews | Rated(stars: seq<Star>, tenths: int, totalReviews: nat)

  /** Loading first, then the error, then "No reviews yet" for no data or zero reviews, otherwise the stars. */
  function ViewOf(loading: bool, failed: bool, data: Option<RatingSummary>, average: Option<int>): (v: View)
    ensures loading ==> v == LoadingView
    ensures !loading && failed ==> v == Unavailable
    ensures !loading && !failed ==> (v == NoReviews <==> data.None? || data.value.totalReviews == 0)
    ensures v.Rated? ==> v.stars == StarsFor(ShownAverage(average)) && v.tenths == ShownAverage(average)
  {
    if loading then LoadingView
    else if failed then Unavailable
    else if data.None? || data.value.totalReviews == 0 then NoReviews
    else Rated(StarsFor(ShownAverage(average)), ShownAverage(average), data.value.totalReviews)
  }
}
