/**
 * The restaurant list page: the search, cuisine and price-range filters that
 * choose which restaurants are shown, and the button that clears them.
 */
module RestaurantsPage {
  import opened Wrappers
  import opened Text
  import opened Seqs
  import opened Schema

  /** The value of a string of decimal digits. */
  function DigitsValue(s: string): nat
    requires AllDigits(s)
  {
    if s == [] then 0 else DigitsValue(s[..|s| - 1]) * 10 + DigitValue(s[|s| - 1])
  }

  function Pow10(n: nat): (p: nat)
    ensures p >= 1
  {
    if n == 0 then 1 else 10 * Pow10(n - 1)
  }

  /** An unsigned decimal numeral: digits, optionally a point and more digits,
      with at least one digit in all. */
  function UnsignedDecimal(s: string): Option<real>
  {
    match IndexOf(s, '.')
    case None =>
      if s != [] && AllDigits(s) then Some(DigitsValue(s) as real) else None
    case Some(k) =>
      var whole, fraction := s[..k], s[k + 1..];
      if AllDigits(whole) && AllDigits(fraction) && |whole| + |fraction| > 0
      then Some(DecimalValue(whole, fraction))
      else None
  }

  /** `n` digits spell a number below 10^n. */
  lemma {:induction false} DigitsValueBound(s: string)
    requires AllDigits(s)
    ensures DigitsValue(s) < Pow10(|s|)
  {
    if s != [] {
      DigitsValueBound(s[..|s| - 1]);
    }
  }

  lemma QuotientBelowOne(n: real, d: real)
    requires 0.0 <= n < d
    ensures 0.0 <= n / d < 1.0
  {
    assert (n / d) * d == n;
  }

  /** The value of the numeral `whole.fraction`: the whole part plus the
      fraction digits over 10 to the number of fraction digits. The whole
      part is its integer part. */
  function DecimalValue(whole: string, fraction: string): (v: real)
    requires AllDigits(whole) && AllDigits(fraction)
    ensures DigitsValue(whole) as real <= v < DigitsValue(whole) as real + 1.0
  {
    DigitsValueBound(fraction);
    QuotientBelowOne(DigitsValue(fraction) as real, Pow10(|fraction|) as real);
    DigitsValue(whole) as real + DigitsValue(fraction) as real / Pow10(|fraction|) as real
  }

  /** `parseFloat` on the text of a decimal column: an optional sign followed
      by an unsigned decimal numeral; anything else reads as NaN (`None`). */
  function ParseDecimal(s: string): (v: Option<real>)
    ensures s == [] ==> v.None?
  {
    if s == [] then None
    else if s[0] == '-' then
      match UnsignedDecimal(s[1..])
      case Some(u) => Some(-u)
      case None => None
    else if s[0] == '+' then UnsignedDecimal(s[1..])
    else UnsignedDecimal(s)
  }

  /** A plain run of digits reads as the whole number it spells, negated
      after a minus sign and unchanged after a plus sign. */
  lemma ParseDecimalWhole(s: string)
    requires s != [] && AllDigits(s)
    ensures ParseDecimal(s) == Some(DigitsValue(s) as real)
    ensures ParseDecimal("-" + s) == Some(-(DigitsValue(s) as real))
    ensures ParseDecimal("+" + s) == Some(DigitsValue(s) as real)
  {
    assert IsDigit(s[0]);
    assert '.' !in s by {
      forall i | 0 <= i < |s| ensures s[i] != '.' {
        assert IsDigit(s[i]);
      }
    }
    assert ("-" + s)[1..] == s && ("+" + s)[1..] == s;
  }

  /** The first point of `w.f`, for a digit string `w`, is the one after `w`. */
  lemma {:induction false} IndexOfPoint(whole: string, fraction: string)
    requires AllDigits(whole)
    ensures IndexOf(whole + "." + fraction, '.') == Some(|whole|)
  {
    if whole != [] {
      assert IsDigit(whole[0]);
      assert (whole + "." + fraction)[1..] == whole[1..] + "." + fraction;
      IndexOfPoint(whole[1..], fraction);
    }
  }

  /** A numeral with a decimal point reads as its whole part plus its
      fraction digits over the matching power of ten. */
  lemma UnsignedDecimalFraction(whole: string, fraction: string)
    requires AllDigits(whole) && AllDigits(fraction) && |whole| + |fraction| > 0
    ensures UnsignedDecimal(whole + "." + fraction) == Some(DecimalValue(whole, fraction))
  {
    var s := whole + "." + fraction;
    IndexOfPoint(whole, fraction);
    assert s[..|whole|] == whole;
    assert s[|whole| + 1..] == fraction;
  }

  /** `parseFloat` on a decimal-column text `w.f`, `-w.f` or `+w.f`: the
      whole part plus the fraction, negated after a minus sign. */
  lemma ParseDecimalFraction(whole: string, fraction: string)
    requires AllDigits(whole) && AllDigits(fraction) && |whole| + |fraction| > 0
    ensures ParseDecimal(whole + "." + fraction) == Some(DecimalValue(whole, fraction))
    ensures ParseDecimal("-" + whole + "." + fraction) == Some(-DecimalValue(whole, fraction))
    ensures ParseDecimal("+" + whole + "." + fraction) == Some(DecimalValue(whole, fraction))
  {
    UnsignedDecimalFraction(whole, fraction);
    var s := whole + "." + fraction;
    assert s[0] != '-' && s[0] != '+' by {
      if whole != [] {
        assert s[0] == whole[0] && IsDigit(whole[0]);
      } else {
        assert s[0] == '.';
      }
    }
    assert ("-" + whole + "." + fraction)[1..] == s;
    assert ("+" + whole + "." + fraction)[1..] == s;
  }

  /** The price text 14.99 reads as 14.99. */
  lemma ExampleParseJustUnder(text: string)
    requires text == "14.99"
    ensures ParseDecimal(text) == Some(14.99)
  {
    var whole, fraction := "14", "99";
    assert text == whole + "." + fraction;
    assert whole[..1] == "1" && fraction[..1] == "9";
    assert DigitsValue(whole) == 14 && DigitsValue(fraction) == 99;
    assert Pow10(|fraction|) == 100;
    ParseDecimalFraction(whole, fraction);
  }

  /** The price text 15.00 reads as 15. */
  lemma ExampleParseOnBoundary(text: string)
    requires text == "15.00"
    ensures ParseDecimal(text) == Some(15.0)
  {
    var whole, fraction := "15", "00";
    assert text == whole + "." + fraction;
    assert whole[..1] == "1" && fraction[..1] == "0";
    assert DigitsValue(whole) == 15;
    assert DigitsValue(fraction) == 0;
    assert DecimalValue(whole, fraction) == 15.0;
    ParseDecimalFraction(whole, fraction);
  }

  /** A restaurant priced 14.99, just under the first boundary, is in the
      `$` range only. */
  lemma ExamplePriceJustUnder(r: Restaurant, text: string)
    requires text == "14.99" && r.averagePrice == Some(text)
    ensures MatchesPrice(r, "$") && !MatchesPrice(r, "$$")
  {
    ExampleParseJustUnder(text);
  }

  /** A restaurant priced 15.00, on the first boundary, is in the `$$`
      range and not in the `$` range. */
  lemma ExamplePriceOnBoundary(r: Restaurant, text: string)
    requires text == "15.00" && r.averagePrice == Some(text)
    ensures MatchesPrice(r, "$$") && !MatchesPrice(r, "$")
  {
    ExampleParseOnBoundary(text);
  }

  /** The search test: no query, or the lower-cased query occurs in the
      lower-cased name or description. */
  predicate MatchesSearch(r: Restaurant, searchQuery: string)
  {
    || searchQuery == ""
    || Contains(ToLower(r.name), ToLower(searchQuery))
    || Contains(ToLower(r.description), ToLower(searchQuery))
  }

  /** The cuisine test: no cuisine chosen, or equal up to case. */
  predicate MatchesCuisine(r: Restaurant, selectedCuisine: string)
  {
    selectedCuisine == "" || ToLower(r.cuisine) == ToLower(selectedCuisine)
  }

  /** The price test. With a price range chosen, a restaurant whose average
      price is missing, empty or not a number fails; otherwise the four codes
      select their half-open ranges and any other code lets it through. */
  predicate MatchesPrice(r: Restaurant, selectedPriceRange: string)
  {
    if selectedPriceRange == "" then true
    else match r.averagePrice
      case None => false
      case Some(text) =>
        if text == "" then false
        else match ParseDecimal(text)
          case None => false
          case Some(avgPrice) =>
            if selectedPriceRange == "$" then avgPrice < 15.0
            else if selectedPriceRange == "$$" then 15.0 <= avgPrice < 30.0
            else if selectedPriceRange == "$$$" then 30.0 <= avgPrice < 60.0
            else if selectedPriceRange == "$$$$" then avgPrice >= 60.0
            else true
  }

  predicate Matches(r: Restaurant, searchQuery: string, selectedCuisine: string, selectedPriceRange: string)
  {
    MatchesSearch(r, searchQuery) && MatchesCuisine(r, selectedCuisine) && MatchesPrice(r, selectedPriceRange)
  }

  /** `restaurants?.filter(...)`: absent while the list has not loaded. */
  function FilteredRestaurants(restaurants: Option<seq<Restaurant>>, searchQuery: string,
                               selectedCuisine: string, selectedPriceRange: string): Option<seq<Restaurant>>
  {
    match restaurants
    case None => None
    case Some(rs) => Some(Filter(rs, r => Matches(r, searchQuery, selectedCuisine, selectedPriceRange)))
  }

  /** The shown list keeps the loaded order and holds exactly the restaurants
      that pass all three tests; nothing is shown before the list loads. */
  lemma FilteredRestaurantsSpec(restaurants: Option<seq<Restaurant>>, searchQuery: string,
                                selectedCuisine: string, selectedPriceRange: string)
    ensures restaurants.None? <==> FilteredRestaurants(restaurants, searchQuery, selectedCuisine, selectedPriceRange).None?
    ensures restaurants.Some? ==>
      var shown := FilteredRestaurants(restaurants, searchQuery, selectedCuisine, selectedPriceRange).value;
      && IsSubsequence(shown, restaurants.value)
      && forall r :: r in shown <==>
           r in restaurants.value && MatchesSearch(r, searchQuery)
           && MatchesCuisine(r, selectedCuisine) && MatchesPrice(r, selectedPriceRange)
  {
    if restaurants.Some? {
      FilterIsSubsequence(restaurants.value, r => Matches(r, searchQuery, selectedCuisine, selectedPriceRange));
    }
  }

  /** With all three filters empty every loaded restaurant is shown, in order. */
  lemma NoFiltersKeepAll(rs: seq<Restaurant>)
    ensures FilteredRestaurants(Some(rs), "", "", "") == Some(rs)
  {
    FilterKeepsAll(rs, r => Matches(r, "", "", ""));
  }

  /** The price of a restaurant a price filter can use: present, non-empty and
      a number. */
  function UsablePrice(r: Restaurant): Option<real>
  {
    match r.averagePrice
    case None => None
    case Some(text) => if text == "" then None else ParseDecimal(text)
  }

  /** The bucket a price falls in, as an independent reference for the price
      codes. */
  function Bucket(avgPrice: real): string
  {
    if avgPrice < 15.0 then "$"
    else if avgPrice < 30.0 then "$$"
    else if avgPrice < 60.0 then "$$$"
    else "$$$$"
  }

  predicate IsPriceCode(code: string)
  {
    code == "$" || code == "$$" || code == "$$$" || code == "$$$$"
  }

  /** The four buckets split the usable prices: a priced restaurant passes
      exactly the one price code of its bucket. */
  lemma PriceBucketsPartition(r: Restaurant, code: string)
    requires UsablePrice(r).Some? && IsPriceCode(code)
    ensures MatchesPrice(r, code) <==> code == Bucket(UsablePrice(r).value)
  {
    var text := r.averagePrice.value;
    assert text != "" && ParseDecimal(text) == UsablePrice(r);
  }

  /** With a price code chosen, a restaurant without a usable price is hidden. */
  lemma MissingPriceExcluded(r: Restaurant, selectedPriceRange: string)
    requires selectedPriceRange != "" && UsablePrice(r).None?
    ensures !MatchesPrice(r, selectedPriceRange)
  {
  }

  /** A price filter value other than the four codes hides only the
      restaurants without a usable price. */
  lemma UnknownCodeNeedsPrice(r: Restaurant, selectedPriceRange: string)
    requires selectedPriceRange != "" && !IsPriceCode(selectedPriceRange)
    ensures MatchesPrice(r, selectedPriceRange) <==> UsablePrice(r).Some?
  {
  }

  /** The search is a case-insensitive substring test on name or description. */
  lemma SearchIsSubstring(r: Restaurant, searchQuery: string)
    ensures MatchesSearch(r, searchQuery) <==>
      || searchQuery == ""
      || (exists i :: OccursAt(ToLower(r.name), ToLower(searchQuery), i))
      || (exists i :: OccursAt(ToLower(r.description), ToLower(searchQuery), i))
  {
  }

  /** Lower-casing the query or the cuisine choice does not change the
      outcome. */
  lemma FiltersIgnoreCase(r: Restaurant, searchQuery: string, selectedCuisine: string)
    ensures MatchesSearch(r, ToLower(searchQuery)) == MatchesSearch(r, searchQuery)
    ensures MatchesCuisine(r, ToLower(selectedCuisine)) == MatchesCuisine(r, selectedCuisine)
  {
    ToLowerIdempotent(searchQuery);
    ToLowerIdempotent(selectedCuisine);
  }

  /** The page's filter state, first read from the URL query. */
  class RestaurantsPage {
    var searchQuery: string
    var selectedCuisine: string
    var selectedPriceRange: string

    /** `searchParams.get(name) || ""`: a missing parameter reads as "". */
    constructor (search: Option<string>, cuisine: Option<string>, price: Option<string>)
      ensures searchQuery == (if search.Some? then search.value else "")
      ensures selectedCuisine == (if cuisine.Some? then cuisine.value else "")
      ensures selectedPriceRange == (if price.Some? then price.value else "")
    {
      searchQuery := if search.Some? then search.value else "";
      selectedCuisine := if cuisine.Some? then cuisine.value else "";
      selectedPriceRange := if price.Some? then price.value else "";
    }

    /** The restaurants shown for the loaded list under the current filters. */
    function Shown(restaurants: Option<seq<Restaurant>>): Option<seq<Restaurant>>
      reads this
    {
      FilteredRestaurants(restaurants, searchQuery, selectedCuisine, selectedPriceRange)
    }

    /** Clearing the filters empties all three, after which every loaded
        restaurant is shown. */
    method ClearFilters()
      modifies this
      ensures searchQuery == "" && selectedCuisine == "" && selectedPriceRange == ""
      ensures forall rs :: Shown(Some(rs)) == Some(rs)
    {
      searchQuery := "";
      selectedCuisine := "";
      selectedPriceRange := "";
      forall rs ensures Shown(Some(rs)) == Some(rs) {
        NoFiltersKeepAll(rs);
      }
    }
  }
}
