/** The home page's budget and price logic (src/pages/HomePage.tsx): reading
    a cost range such as "30-50", reading a day count out of a city's
    duration text, summing the per-day costs of every city over its days,
    converting the sum with one exchange rate, and converting transport
    prices given in Argentine pesos.

    The amounts are real numbers. Exchange rates come from a network service
    and arrive here as parameters (`None` is the service's `null`);
    `toLocaleString` is the abstract `Formatter`. */
module HomePage {
  import opened Options
  import opened JsStrings
  import opened JsNumbers
  import opened I18n
  import opened Trip

  // ---------------------------------------------------------------------
  // Cost ranges

  /** `parseRange`: "a-b" gives (a, b) and "a" gives (a, a), each piece read
      by `parseFloat` after trimming; anything else, and any value that is
      not a non-empty string, gives (0, 0). */
  function ParseRange(v: RangeSource): (r: (real, real))
    ensures v.NotText? || v.s == [] ==> r == (0.0, 0.0)
  {
    if v.NotText? || v.s == [] then (0.0, 0.0)
    else RangeOfValues(PieceValues(Split(v.s, '-')))
  }

  /** The check on the numbers read: two numbers, or one, else (0, 0). */
  function RangeOfValues(values: seq<Option<real>>): (real, real) {
    if |values| == 2 && values[0].Some? && values[1].Some? then (values[0].value, values[1].value)
    else if |values| == 1 && values[0].Some? then (values[0].value, values[0].value)
    else (0.0, 0.0)
  }

  /** `.map(s => parseFloat(s.trim()))` over the pieces. */
  function PieceValues(pieces: seq<string>): (values: seq<Option<real>>)
    ensures |values| == |pieces|
    ensures forall k :: 0 <= k < |pieces| ==> values[k] == PieceValue(pieces[k])
  {
    if pieces == [] then [] else [PieceValue(pieces[0])] + PieceValues(pieces[1..])
  }

  /** `parseFloat(piece.trim())`. */
  function PieceValue(piece: string): Option<real> {
    ParseFloat(Trim(piece))
  }

  /** A single number n, with any whitespace around it, reads as (n, n). */
  lemma ParseRangeSingle(n: nat, before: string, after: string)
    requires AllWhitespace(before) && AllWhitespace(after)
    ensures ParseRange(Text(before + DecimalString(n) + after)) == (n as real, n as real)
  {
    var s := before + DecimalString(n) + after;
    PaddedNumeralPiece(n, before, after);
    SplitSingle(s);
    ParseRangeOfOnePiece(s, n as real);
  }

  /** "a - b", with any whitespace around either number, reads as (a, b):
      the two pieces keep their input order, whichever is larger. */
  lemma ParseRangePair(a: nat, b: nat, p1: string, p2: string, p3: string, p4: string)
    requires AllWhitespace(p1) && AllWhitespace(p2) && AllWhitespace(p3) && AllWhitespace(p4)
    ensures ParseRange(Text(p1 + DecimalString(a) + p2 + "-" + p3 + DecimalString(b) + p4)) == (a as real, b as real)
  {
    var left, right := p1 + DecimalString(a) + p2, p3 + DecimalString(b) + p4;
    JoinedPieces(left, p3, DecimalString(b), p4);
    PaddedNumeralPiece(a, p1, p2);
    PaddedNumeralPiece(b, p3, p4);
    SplitPair(left, right);
    ParseRangeOfTwoPieces(left + "-" + right, left, right, a as real, b as real);
  }

  /** Regrouping the pieces of "a-b". */
  lemma JoinedPieces(left: string, p3: string, ds: string, p4: string)
    ensures left + "-" + p3 + ds + p4 == left + "-" + (p3 + ds + p4)
  {
  }

  /** A number n with whitespace around it is a non-empty piece without '-'
      that reads as n. */
  lemma PaddedNumeralPiece(n: nat, before: string, after: string)
    requires AllWhitespace(before) && AllWhitespace(after)
    ensures var piece := before + DecimalString(n) + after;
      piece != [] && '-' !in piece && PieceValue(piece) == Some(n as real)
  {
    NoMinusInPaddedNumeral(before, DecimalString(n), after);
    PaddedNumeralValue(n, before, after);
  }

  /** Three pieces or more, or a piece that does not read as a number, give
      (0, 0): a range is one number or two, nothing else. */
  lemma ParseRangeRejects(s: string)
    requires |Split(s, '-')| > 2 || exists k :: 0 <= k < |Split(s, '-')| && PieceValue(Split(s, '-')[k]).None?
    ensures ParseRange(Text(s)) == (0.0, 0.0)
  {
    if s != [] {
      ParseRangeOfPieces(s);
    }
  }

  /** A non-empty text is read piece by piece. */
  lemma ParseRangeOfPieces(s: string)
    requires s != []
    ensures ParseRange(Text(s)) == RangeOfValues(PieceValues(Split(s, '-')))
  {
  }

  /** A text that is its own only piece, and reads as x, reads as (x, x). */
  lemma ParseRangeOfOnePiece(s: string, x: real)
    requires s != [] && Split(s, '-') == [s] && PieceValue(s) == Some(x)
    ensures ParseRange(Text(s)) == (x, x)
  {
    ParseRangeOfPieces(s);
    assert PieceValues([s]) == [PieceValue(s)];
  }

  /** A text that splits into two pieces reading as x and y reads as (x, y). */
  lemma ParseRangeOfTwoPieces(s: string, left: string, right: string, x: real, y: real)
    requires s != [] && Split(s, '-') == [left, right]
    requires PieceValue(left) == Some(x) && PieceValue(right) == Some(y)
    ensures ParseRange(Text(s)) == (x, y)
  {
    ParseRangeOfPieces(s);
    assert PieceValues([left, right]) == [PieceValue(left), PieceValue(right)] by {
      assert [left, right][1..] == [right];
      assert PieceValues([right]) == [PieceValue(right)];
    }
  }

  /** A text without '-' is its own only piece. */
  lemma SplitSingle(s: string)
    requires '-' !in s
    ensures Split(s, '-') == [s]
  {
    SplitJoin([s], '-');
    assert Join([s], '-') == s;
  }

  /** Two pieces without '-' joined by one '-' split back into those pieces. */
  lemma SplitPair(left: string, right: string)
    requires '-' !in left && '-' !in right
    ensures Split(left + "-" + right, '-') == [left, right]
  {
    SplitJoin([left, right], '-');
    assert Join([left, right], '-') == left + "-" + right;
  }

  /** A numeral with whitespace around it is a piece worth its value. */
  lemma PaddedNumeralValue(n: nat, before: string, after: string)
    requires AllWhitespace(before) && AllWhitespace(after)
    ensures PieceValue(before + DecimalString(n) + after) == Some(n as real)
  {
    var ds := DecimalString(n);
    assert Trim(before + ds + after) == ds by {
      assert IsDigit(ds[0]) && IsDigit(ds[|ds| - 1]);
      TrimPadded(before, ds, after);
    }
    ParseFloatDecimal(n);
  }

  lemma NoMinusInPaddedNumeral(before: string, ds: string, after: string)
    requires AllWhitespace(before) && AllDigits(ds) && AllWhitespace(after)
    ensures '-' !in before + ds + after
  {
    var s := before + ds + after;
    forall k | 0 <= k < |s| ensures s[k] != '-' {
      if k < |before| { assert IsWhitespace(before[k]); }
      else if k < |before| + |ds| { assert IsDigit(ds[k - |before|]); }
      else { assert IsWhitespace(after[k - |before| - |ds|]); }
    }
  }

  /** A leading minus sign makes an empty first piece, which is NaN, so a
      negative number such as "-5" reads as (0, 0). */
  lemma ParseRangeLeadingMinus(rest: string)
    ensures ParseRange(Text("-" + rest)) == (0.0, 0.0)
  {
    var s := "-" + rest;
    assert s[1..] == rest;
    var parts := Split(s, '-');
    assert parts == [[]] + Split(rest, '-');
    ParseFloatBlank([]);
  }

  // ---------------------------------------------------------------------
  // Days of a stay

  /** The literal that `/(\d+)\s*dÃ­as?/` requires after the digits, exactly
      as written in the source: 'd', U+00C3, U+00AD, 'a' (a mis-encoded
      "día"); the optional trailing 's' never changes whether it matches. */
  const DaysLiteral: string := ['d', '\U{00C3}', '\U{00AD}', 'a']

  /** The day pattern matches at index `i`. `\d+` and `\s*` are greedy and
      what follows each cannot start with what it consumes (a digit is
      neither whitespace nor 'd', and whitespace is not 'd'), so backtracking
      never helps: the pattern matches at `i` exactly when the whole digit
      run from `i` and the whole whitespace run after it are followed by the
      literal. */
  predicate DaysMatchAt(s: string, i: nat) {
    i < |s| && IsDigit(s[i]) && StartsWith(s[WhitespaceRunEnd(s, DigitRunEnd(s, i))..], DaysLiteral)
  }

  /** The leftmost index at or after `i` where the day pattern matches,
      or |s| when there is none (see `FirstDaysMatchIsLeftmost`). */
  function FirstDaysMatch(s: string, i: nat): (r: nat)
    requires i <= |s|
    ensures i <= r <= |s|
    ensures r < |s| ==> DaysMatchAt(s, r)
    decreases |s| - i
  {
    if i == |s| then i
    else if DaysMatchAt(s, i) then i
    else FirstDaysMatch(s, i + 1)
  }

  /** No match starts before the one `FirstDaysMatch` finds. */
  lemma {:induction false} FirstDaysMatchIsLeftmost(s: string, i: nat)
    requires i <= |s|
    ensures forall k :: i <= k < FirstDaysMatch(s, i) ==> !DaysMatchAt(s, k)
    decreases |s| - i
  {
    if i < |s| && !DaysMatchAt(s, i) {
      FirstDaysMatchIsLeftmost(s, i + 1);
    }
  }

  /** `getDaysFromDurationString`: the number written in the digits of the
      leftmost match of the day pattern, or 0 for an empty string or no match. */
  function DaysFromDuration(s: string): (days: nat) {
    if s == [] then 0
    else
      var i := FirstDaysMatch(s, 0);
      if i == |s| then 0 else DecimalValue(s[i..DigitRunEnd(s, i)])
  }

  /** A non-zero day count comes from a match of the day pattern. */
  lemma DaysNeedMatch(s: string)
    ensures DaysFromDuration(s) != 0 ==> exists k :: 0 <= k < |s| && DaysMatchAt(s, k)
  {
    if DaysFromDuration(s) != 0 {
      assert DaysMatchAt(s, FirstDaysMatch(s, 0));
    }
  }

  /** Without a match anywhere the day count is 0. */
  lemma NoDaysMatchNoDays(s: string)
    requires forall k :: 0 <= k < |s| ==> !DaysMatchAt(s, k)
    ensures DaysFromDuration(s) == 0
  {
  }

  /** A numeral, any whitespace, then the day literal: the numeral's value. */
  lemma DaysOfNumeral(n: nat, gap: string, rest: string)
    requires AllWhitespace(gap)
    ensures DaysFromDuration(DecimalString(n) + gap + DaysLiteral + rest) == n
  {
    var ds := DecimalString(n);
    var s := ds + gap + DaysLiteral + rest;
    assert s[0..|ds|] == ds;
    assert s[|ds|..|ds| + |gap|] == gap;
    assert !IsDigit(s[|ds|]) by {
      if gap != [] { assert s[|ds|] == gap[0]; } else { assert s[|ds|] == 'd'; }
    }
    DigitRunEndAt(s, 0, |ds|);
    assert s[|ds| + |gap|] == 'd';
    WhitespaceRunEndAt(s, |ds|, |ds| + |gap|);
    assert s[|ds| + |gap|..][..|DaysLiteral|] == DaysLiteral;
    assert DaysMatchAt(s, 0);
  }

  /** Text before the numeral that holds no digit, then a numeral, any
      whitespace and the day literal, as in "Estadía: 5 días": the numeral's
      value. */
  lemma DaysAfterPrefix(pre: string, n: nat, gap: string, rest: string)
    requires forall k :: 0 <= k < |pre| ==> !IsDigit(pre[k])
    requires AllWhitespace(gap)
    ensures DaysFromDuration(pre + DecimalString(n) + gap + DaysLiteral + rest) == n
  {
    var ds := DecimalString(n);
    var s := pre + ds + gap + DaysLiteral + rest;
    var p, m := |pre|, |pre| + |ds|;
    var e := m + |gap|;
    assert s[p..m] == ds;
    assert s[m..e] == gap;
    assert s[e..e + |DaysLiteral|] == DaysLiteral;
    NumeralMatchesAt(s, p, m, e);
    forall k | 0 <= k < p
      ensures !DaysMatchAt(s, k)
    {
      assert s[k] == pre[k];
    }
    FirstDaysMatchSkips(s, 0, p);
  }

  /** Helper of `DaysAfterPrefix`: digits from `p` to `m`, whitespace up to
      `e` and the day literal at `e` make the day pattern match at `p`, with
      the digit run ending at `m`. */
  lemma NumeralMatchesAt(s: string, p: nat, m: nat, e: nat)
    requires p < m <= e && e + |DaysLiteral| <= |s|
    requires AllDigits(s[p..m]) && AllWhitespace(s[m..e])
    requires s[e..e + |DaysLiteral|] == DaysLiteral
    ensures DaysMatchAt(s, p) && DigitRunEnd(s, p) == m
  {
    assert s[e] == 'd';
    assert !IsDigit(s[m]) by {
      if m < e { assert s[m] == s[m..e][0]; }
    }
    assert IsDigit(s[p]) by { assert s[p] == s[p..m][0]; }
    DigitRunEndAt(s, p, m);
    WhitespaceRunEndAt(s, m, e);
    assert s[e..][..|DaysLiteral|] == DaysLiteral;
  }

  /** The search for a match passes over positions where none starts. */
  lemma {:induction false} FirstDaysMatchSkips(s: string, i: nat, m: nat)
    requires i <= m <= |s|
    requires forall k :: i <= k < m ==> !DaysMatchAt(s, k)
    ensures FirstDaysMatch(s, i) == FirstDaysMatch(s, m)
    decreases m - i
  {
    if i < m {
      FirstDaysMatchSkips(s, i + 1, m);
    }
  }

  /** Every match needs U+00C3 in the text. */
  lemma MatchesNeedMisencodedLetter(s: string)
    ensures forall k :: 0 <= k < |s| && DaysMatchAt(s, k) ==> '\U{00C3}' in s
  {
    forall k | 0 <= k < |s| && DaysMatchAt(s, k) ensures '\U{00C3}' in s {
      var m := WhitespaceRunEnd(s, DigitRunEnd(s, k));
      assert s[m..][..|DaysLiteral|][1] == '\U{00C3}';
      assert s[m + 1] in s;
    }
  }

  /** So a duration written with a correctly encoded "días" (U+00ED) and no
      U+00C3 anywhere yields 0 days. */
  lemma DaysNeedMisencodedLiteral(s: string)
    requires '\U{00C3}' !in s
    ensures DaysFromDuration(s) == 0
  {
    MatchesNeedMisencodedLetter(s);
    NoDaysMatchNoDays(s);
  }

  // ---------------------------------------------------------------------
  // Trip budget

  /** The budgets the user saved, by city id (read from local storage). */
  type SavedBudgets = map<string, seq<BudgetItem>>

  datatype Totals = Totals(min: real, max: real)

  function Plus(a: Totals, b: Totals): Totals {
    Totals(a.min + b.min, a.max + b.max)
  }

  /** `savedBudgets[city.id] || city.budgetItems`: a saved list, even an
      empty one, replaces the city's default items. */
  function CityBudget(city: City, saved: SavedBudgets): seq<BudgetItem> {
    if city.id in saved then saved[city.id] else city.budgetItems
  }

  /** The number of days of a city's stay, from its translated duration text. */
  function CityDays(tr: Translator, city: City): nat {
    DaysFromDuration(tr.T(city.id + "_dates_duration"))
  }

  /** The product of two amounts. Every product of the model goes through
      this function, so that the prover treats it as one term and the
      facts about it are stated once, below. */
  function Product(x: real, y: real): real {
    x * y
  }

  /** Scaling by a non-negative factor keeps the order of two amounts. */
  lemma ProductMonotone(lo: real, hi: real, factor: real)
    requires lo <= hi && factor >= 0.0
    ensures Product(lo, factor) <= Product(hi, factor)
  {
    assert Product(hi, factor) - Product(lo, factor) == (hi - lo) * factor;
  }

  /** What one item adds to the totals over `days` days. */
  function ItemTotals(item: BudgetItem, days: nat): Totals {
    if item.isPerDay then
      var range := ParseRange(item.value);
      Totals(Product(range.0, days as real), Product(range.1, days as real))
    else
      Totals(0.0, 0.0)
  }

  /** The sum over `items`, in order, of what each adds over `days` days. */
  function ItemsTotals(items: seq<BudgetItem>, days: nat): Totals {
    if items == [] then Totals(0.0, 0.0)
    else Plus(ItemsTotals(items[..|items| - 1], days), ItemTotals(items[|items| - 1], days))
  }

  /** The trip's totals in USD: over every city and every item of that
      city's budget, min*days and max*days of each per-day item. */
  function TripTotals(tr: Translator, cities: seq<City>, saved: SavedBudgets): Totals {
    if cities == [] then Totals(0.0, 0.0)
    else
      var city := cities[|cities| - 1];
      Plus(TripTotals(tr, cities[..|cities| - 1], saved), CityTotals(tr, city, saved))
  }

  /** What one city's budget costs over its days. */
  function CityTotals(tr: Translator, city: City, saved: SavedBudgets): Totals {
    ItemsTotals(CityBudget(city, saved), CityDays(tr, city))
  }

  /** The accumulation loop of `calculateTripBudget`: for every city, its
      day count and its budget, then every item of that budget. */
  method AccumulateTripTotals(tr: Translator, cities: seq<City>, saved: SavedBudgets)
    returns (totalMin: real, totalMax: real)
    ensures totalMin == TripTotals(tr, cities, saved).min
    ensures totalMax == TripTotals(tr, cities, saved).max
  {
    totalMin, totalMax := 0.0, 0.0;
    for c := 0 to |cities|
      invariant totalMin == TripTotals(tr, cities[..c], saved).min
      invariant totalMax == TripTotals(tr, cities[..c], saved).max
    {
      var city := cities[c];
      var days := DaysFromDuration(tr.T(city.id + "_dates_duration"));
      var cityBudget := if city.id in saved then saved[city.id] else city.budgetItems;
      TripTotalsPrefix(tr, cities, saved, c);
      totalMin, totalMax := AccumulateItems(cityBudget, days, totalMin, totalMax);
    }
    assert cities[..|cities|] == cities;
  }

  /** The inner loop of `calculateTripBudget`: adds what each item of one
      city's budget costs over `days` days to the running totals. */
  method AccumulateItems(items: seq<BudgetItem>, days: nat, min0: real, max0: real)
    returns (totalMin: real, totalMax: real)
    ensures totalMin == min0 + ItemsTotals(items, days).min
    ensures totalMax == max0 + ItemsTotals(items, days).max
  {
    totalMin, totalMax := min0, max0;
    for k := 0 to |items|
      invariant totalMin == min0 + ItemsTotals(items[..k], days).min
      invariant totalMax == max0 + ItemsTotals(items[..k], days).max
    {
      var item := items[k];
      ItemsTotalsPrefix(items, k, days);
      if item.isPerDay {
        var range := ParseRange(item.value);
        totalMin := totalMin + Product(range.0, days as real);
        totalMax := totalMax + Product(range.1, days as real);
      }
    }
    assert items[..|items|] == items;
  }

  /** One more item adds what that item costs. */
  lemma ItemsTotalsPrefix(items: seq<BudgetItem>, k: nat, days: nat)
    requires k < |items|
    ensures ItemsTotals(items[..k + 1], days) == Plus(ItemsTotals(items[..k], days), ItemTotals(items[k], days))
  {
    assert items[..k + 1][..k] == items[..k];
  }

  /** One more city adds what that city's budget costs over its days. */
  lemma TripTotalsPrefix(tr: Translator, cities: seq<City>, saved: SavedBudgets, c: nat)
    requires c < |cities|
    ensures TripTotals(tr, cities[..c + 1], saved)
      == Plus(TripTotals(tr, cities[..c], saved), CityTotals(tr, cities[c], saved))
  {
    assert cities[..c + 1][..c] == cities[..c];
  }

  lemma {:induction false} ItemsTotalsAppend(a: seq<BudgetItem>, b: seq<BudgetItem>, days: nat)
    ensures ItemsTotals(a + b, days) == Plus(ItemsTotals(a, days), ItemsTotals(b, days))
    decreases |b|
  {
    if b == [] {
      assert a + b == a;
    } else {
      assert (a + b)[..|a + b| - 1] == a + b[..|b| - 1];
      ItemsTotalsAppend(a, b[..|b| - 1], days);
    }
  }

  /** An item that is not per-day changes neither total, wherever it stands. */
  lemma NonPerDayItemIgnored(a: seq<BudgetItem>, x: BudgetItem, b: seq<BudgetItem>, days: nat)
    requires !x.isPerDay
    ensures ItemsTotals(a + [x] + b, days) == ItemsTotals(a + b, days)
  {
    ItemsTotalsAppend(a + [x], b, days);
    ItemsTotalsAppend(a, b, days);
    assert (a + [x])[..|a + [x]| - 1] == a;
  }

  /** A saved budget for a city replaces that city's default items entirely:
      with a saved entry, changing the defaults changes nothing. */
  lemma SavedBudgetReplacesDefaults(tr: Translator, cities: seq<City>, saved: SavedBudgets, i: nat, defaults: seq<BudgetItem>)
    requires i < |cities| && cities[i].id in saved
    ensures TripTotals(tr, cities[i := cities[i].(budgetItems := defaults)], saved) == TripTotals(tr, cities, saved)
  {
    var changed := cities[i := cities[i].(budgetItems := defaults)];
    forall k | 0 <= k < |cities|
      ensures CityTotals(tr, changed[k], saved) == CityTotals(tr, cities[k], saved)
    {
      if k == i {
        SavedCityIgnoresDefaults(tr, cities[i], saved, defaults);
      }
    }
    TripTotalsPointwise(tr, changed, cities, saved);
  }

  /** The trip's totals depend on each city only through what that city
      costs: two lists of cities that cost the same, city by city, cost the
      same in total. */
  lemma {:induction false} TripTotalsPointwise(tr: Translator, a: seq<City>, b: seq<City>, saved: SavedBudgets)
    requires |a| == |b|
    requires forall k :: 0 <= k < |a| ==> CityTotals(tr, a[k], saved) == CityTotals(tr, b[k], saved)
    ensures TripTotals(tr, a, saved) == TripTotals(tr, b, saved)
    decreases |a|
  {
    if a != [] {
      var n := |a| - 1;
      SameSharesPrefix(tr, a, b, saved, n);
      TripTotalsPointwise(tr, a[..n], b[..n], saved);
      TripTotalsLast(tr, a, saved);
      TripTotalsLast(tr, b, saved);
    }
  }

  /** Helper of `TripTotalsPointwise`: equal shares city by city carry over
      to every prefix of the two lists. */
  lemma SameSharesPrefix(tr: Translator, a: seq<City>, b: seq<City>, saved: SavedBudgets, n: nat)
    requires n <= |a| == |b|
    requires forall k :: 0 <= k < |a| ==> CityTotals(tr, a[k], saved) == CityTotals(tr, b[k], saved)
    ensures forall k :: 0 <= k < n ==> CityTotals(tr, a[..n][k], saved) == CityTotals(tr, b[..n][k], saved)
  {
    forall k | 0 <= k < n
      ensures CityTotals(tr, a[..n][k], saved) == CityTotals(tr, b[..n][k], saved)
    {
      assert a[..n][k] == a[k] && b[..n][k] == b[k];
    }
  }

  /** Helper: one unfolding of `TripTotals`, at its last city. */
  lemma TripTotalsLast(tr: Translator, cities: seq<City>, saved: SavedBudgets)
    requires cities != []
    ensures TripTotals(tr, cities, saved)
      == Plus(TripTotals(tr, cities[..|cities| - 1], saved), CityTotals(tr, cities[|cities| - 1], saved))
  {
  }

  lemma SavedCityIgnoresDefaults(tr: Translator, city: City, saved: SavedBudgets, defaults: seq<BudgetItem>)
    requires city.id in saved
    ensures CityTotals(tr, city.(budgetItems := defaults), saved) == CityTotals(tr, city, saved)
  {
  }

  /** Every per-day item's range reads as min <= max. */
  ghost predicate RangesOrdered(items: seq<BudgetItem>) {
    forall k :: 0 <= k < |items| && items[k].isPerDay ==> ParseRange(items[k].value).0 <= ParseRange(items[k].value).1
  }

  lemma {:induction false} ItemsTotalsOrdered(items: seq<BudgetItem>, days: nat)
    requires RangesOrdered(items)
    ensures ItemsTotals(items, days).min <= ItemsTotals(items, days).max
    decreases |items|
  {
    if items != [] {
      var last := items[|items| - 1];
      assert RangesOrdered(items[..|items| - 1]) by {
        forall k | 0 <= k < |items| - 1 ensures items[..|items| - 1][k] == items[k] { }
      }
      ItemsTotalsOrdered(items[..|items| - 1], days);
      if last.isPerDay {
        var range := ParseRange(last.value);
        ProductMonotone(range.0, range.1, days as real);
      }
    }
  }

  /** Every city's budget has ordered ranges. */
  ghost predicate CityRangesOrdered(cities: seq<City>, saved: SavedBudgets) {
    forall c :: 0 <= c < |cities| ==> RangesOrdered(CityBudget(cities[c], saved))
  }

  /** When every per-day range is ordered, the trip's minimum is at most its
      maximum: both totals accumulate in parallel over the same days. */
  lemma {:induction false} TripTotalsOrdered(tr: Translator, cities: seq<City>, saved: SavedBudgets)
    requires CityRangesOrdered(cities, saved)
    ensures TripTotals(tr, cities, saved).min <= TripTotals(tr, cities, saved).max
    decreases |cities|
  {
    if cities != [] {
      var n := |cities| - 1;
      var last := cities[n];
      assert CityRangesOrdered(cities[..n], saved) by {
        forall c | 0 <= c < n ensures RangesOrdered(CityBudget(cities[..n][c], saved)) {
          assert cities[..n][c] == cities[c];
        }
      }
      TripTotalsOrdered(tr, cities[..n], saved);
      ItemsTotalsOrdered(CityBudget(last, saved), CityDays(tr, last));
    }
  }

  // ---------------------------------------------------------------------
  // Display

  /** `toLocaleString`'s fraction-digit options: the locale's default, or
      exactly `digits` digits (minimum and maximum both `digits`). */
  datatype FractionDigits = LocaleDefault | Exactly(digits: nat)

  /** `value.toLocaleString(locale, options)`. */
  type Formatter = (string, FractionDigits, real) -> string

  const Ars: string := "ARS"

  /** The locale the page formats numbers with: Hebrew or Argentine Spanish. */
  function LocaleFor(language: string): (locale: string)
    ensures locale == "he-IL" || locale == "es-AR"
    ensures locale == "he-IL" <==> language == "he"
  {
    if language == "he" then "he-IL" else "es-AR"
  }

  /** The USD totals converted with the rate: `None` when the rate is null,
      otherwise both totals times the same rate. */
  function ConvertBudget(totals: Totals, usdRate: Option<real>): (r: Option<Totals>)
    ensures r.None? <==> usdRate.None?
    ensures r.Some? ==> r.value == Totals(Product(totals.min, usdRate.value), Product(totals.max, usdRate.value))
    ensures r.Some? ==> Product(r.value.min, totals.max) == Product(r.value.max, totals.min)
  {
    match usdRate
    case None => None
    case Some(rate) =>
      assert Product(Product(totals.min, rate), totals.max) == Product(Product(totals.max, rate), totals.min) by {
        assert (totals.min * rate) * totals.max == (totals.max * rate) * totals.min;
      }
      Some(Totals(Product(totals.min, rate), Product(totals.max, rate)))
  }

  /** The text `calculateTripBudget` finally shows: "min - max CUR", or the
      translated error text when the rate is null. */
  function TripBudgetText(ctx: AppContext, format: Formatter, totals: Totals, usdRate: Option<real>): (text: string)
    ensures usdRate.None? ==> text == ctx.tr.T("error")
    ensures usdRate.Some? ==>
      var locale := LocaleFor(ctx.language);
      text == format(locale, Exactly(0), Product(totals.min, usdRate.value)) + " - "
        + format(locale, Exactly(0), Product(totals.max, usdRate.value)) + " " + ctx.currency
  {
    match ConvertBudget(totals, usdRate)
    case None => ctx.tr.T("error")
    case Some(converted) =>
      var locale := LocaleFor(ctx.language);
      format(locale, Exactly(0), converted.min) + " - " + format(locale, Exactly(0), converted.max) + " " + ctx.currency
  }

  /** With ordered ranges and a non-negative rate, the displayed range is
      ordered too. */
  lemma DisplayedBudgetOrdered(tr: Translator, cities: seq<City>, saved: SavedBudgets, rate: real)
    requires CityRangesOrdered(cities, saved)
    requires rate >= 0.0
    ensures var converted := ConvertBudget(TripTotals(tr, cities, saved), Some(rate));
      converted.Some? && converted.value.min <= converted.value.max
  {
    var totals := TripTotals(tr, cities, saved);
    TripTotalsOrdered(tr, cities, saved);
    ProductMonotone(totals.min, totals.max, rate);
  }

  /** `getConvertedPrice`: a price in pesos as shown for the chosen currency.
      Pesos are shown as they are; another currency needs its rate, and
      until that rate is known the translated "loading" text is shown. */
  function ConvertedPrice(ctx: AppContext, format: Formatter, rates: map<string, Option<real>>, basePriceArs: real): (price: string)
    ensures ctx.currency == Ars ==>
      price == ctx.tr.TWith("transport_price_ars_generic", map["price" := format(LocaleFor(ctx.language), LocaleDefault, basePriceArs)])
    ensures ctx.currency != Ars && ctx.currency in rates && rates[ctx.currency].Some? ==>
      price == format(LocaleFor(ctx.language), Exactly(2), Product(basePriceArs, rates[ctx.currency].value)) + " " + ctx.currency
    ensures ctx.currency != Ars && (ctx.currency !in rates || rates[ctx.currency].None?) ==> price == ctx.tr.T("loading")
  {
    var locale := LocaleFor(ctx.language);
    if ctx.currency == Ars then
      ctx.tr.TWith("transport_price_ars_generic", map["price" := format(locale, LocaleDefault, basePriceArs)])
    else if ctx.currency in rates && rates[ctx.currency].Some? then
      format(locale, Exactly(2), Product(basePriceArs, rates[ctx.currency].value)) + " " + ctx.currency
    else
      ctx.tr.T("loading")
  }

  /** Prices in pesos never look at the rates. */
  lemma ArsPriceIgnoresRates(ctx: AppContext, format: Formatter, rates1: map<string, Option<real>>, rates2: map<string, Option<real>>, basePriceArs: real)
    requires ctx.currency == Ars
    ensures ConvertedPrice(ctx, format, rates1, basePriceArs) == ConvertedPrice(ctx, format, rates2, basePriceArs)
  {
  }

  /** The home page's state: the rates of the transport table and the trip
      budget text. */
  class HomePageState {
    const ctx: AppContext
    const format: Formatter
    var transportRates: map<string, Option<real>>
    var tripBudget: string

    /** The initial state: no rates yet, and the "calculating" text. */
    constructor (ctx: AppContext, format: Formatter)
      ensures this.ctx == ctx && this.format == format
      ensures transportRates == map[]
      ensures tripBudget == ctx.tr.T("budget_summary_calculating")
    {
      this.ctx := ctx;
      this.format := format;
      transportRates := map[];
      tripBudget := ctx.tr.T("budget_summary_calculating");
    }

    /** `updateTransportRates`: the new rates hold exactly one key, the
        chosen currency: 1 for pesos, otherwise the fetched ARS rate
        (`fetchedRate`, only asked for when the currency is not pesos). */
    method UpdateTransportRates(fetchedRate: Option<real>)
      modifies this`transportRates
      ensures transportRates.Keys == {ctx.currency}
      ensures ctx.currency == Ars ==> transportRates[Ars] == Some(1.0)
      ensures ctx.currency != Ars ==> transportRates[ctx.currency] == fetchedRate
    {
      var newRates: map<string, Option<real>> := map[];
      if ctx.currency != Ars {
        newRates := newRates[ctx.currency := fetchedRate];
      } else {
        newRates := newRates[Ars := Some(1.0)];
      }
      transportRates := newRates;
    }

    /** `calculateTripBudget`: show "calculating", sum the per-day costs of
        every city, then show the converted range or the error text.
        `usdRate` is what the exchange-rate service answered. */
    method CalculateTripBudget(cities: seq<City>, saved: SavedBudgets, usdRate: Option<real>)
      modifies this`tripBudget
      ensures tripBudget == TripBudgetText(ctx, format, TripTotals(ctx.tr, cities, saved), usdRate)
    {
      tripBudget := ctx.tr.T("budget_summary_calculating");
      var totalMin, totalMax := AccumulateTripTotals(ctx.tr, cities, saved);
      tripBudget := TripBudgetText(ctx, format, Totals(totalMin, totalMax), usdRate);
    }
  }

  /** Once the rates are updated, a price in another currency is either the
      converted amount or, when the service had no rate, the loading text. */
  lemma PriceAfterRatesUpdate(ctx: AppContext, format: Formatter, rates: map<string, Option<real>>, fetchedRate: Option<real>, basePriceArs: real)
    requires ctx.currency != Ars
    requires rates.Keys == {ctx.currency} && rates[ctx.currency] == fetchedRate
    ensures fetchedRate.None? ==> ConvertedPrice(ctx, format, rates, basePriceArs) == ctx.tr.T("loading")
    ensures fetchedRate.Some? ==>
      ConvertedPrice(ctx, format, rates, basePriceArs) == format(LocaleFor(ctx.language), Exactly(2), Product(basePriceArs, fetchedRate.value)) + " " + ctx.currency
  {
    assert ctx.currency in rates.Keys;
  }
}
