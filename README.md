# Aventura Familiar de 30 Días: the logic behind the trip pages

This project models the small pieces of sequential logic in a React travel
site for a month-long family trip through Argentina. It states their
properties in Dafny and proves them. The modelled pieces are:

- **Home page** (`src/pages/HomePage.tsx`):
  - reading a cost range such as `"30-50"` into a minimum and a maximum (`parseRange`);
  - reading the number of days out of a city's translated duration text (`getDaysFromDurationString`);
  - summing `min*days` and `max*days` over every per-day budget item of every city (`calculateTripBudget`), where a budget saved by the user replaces the city's defaults;
  - converting the sum with one exchange rate;
  - storing the transport-table rate (`updateTransportRates`);
  - showing transport prices in the chosen currency (`getConvertedPrice`).
- **Budget summary card** (`src/components/home/BudgetSummary.tsx`):
  - the icon each cost concept gets, from a first-match keyword classifier;
  - the order of the breakdown rows: flights first, then by translated label;
  - which parts of the card are shown.
- **City page** (`src/pages/CityDetailPage.tsx`):
  - building an AI prompt from a translated template, with a generic fallback template (`constructFullPrompt`);
  - the per-suffix response and loading maps that the generate and translate handlers update;
  - the dates the event finder puts into its prompt;
  - the bullet-list extraction of `renderSection`;
  - the rule that decides whether a link section shows (`renderLinkSection`).
- **Itinerary card** (`src/src/components/home/ItineraryAnalysis.tsx`):
  - the shortened stay shown for each city;
  - the six fixed optimisation tips.

The translation function `t` is a map (`I18n.Translator`). A key that is not
in the map comes back unchanged, and the pages test "is this translated?"
by comparing the result with the key. `t(key, params)` fills the
placeholders of a found template through an abstract `interpolate`
function.

JavaScript's string built-ins are modelled in `JsStrings`:
- `trim` uses the ECMAScript whitespace set;
- `split` uses a one-character separator;
- `includes`, `startsWith` and `substring` as the pages use them;
- a literal regular expression, with or without the `i` flag.

`parseFloat` is modelled over the real numbers in `JsNumbers`. It reads
the longest decimal-literal prefix after leading whitespace, and `None`
stands for NaN. Amounts are reals.

Answers of the network services are parameters of the operations that use
them:
- `askGemini`, `findEventsWithGoogleSearch` and `getCachedExchangeRate`;
- for the AI calls, `None` means the call threw;
- for the exchange rate, `None` means the service answered `null`.

`toLocaleString` is an abstract `Formatter` of the locale, the
fraction-digit options and the number. The `CITIES` list and the saved
budgets are inputs.

Two modelling notes:
- The day pattern in `HomePage.tsx` is written in the source as
  `/(\d+)\s*dÃ­as?/`: a mis-encoded "días" whose second and third
  characters are U+00C3 and U+00AD. The model keeps that literal exactly.
  `HomePage.DaysNeedMisencodedLiteral` states the consequence: a duration
  text written with a correctly encoded "días" and no U+00C3 gives 0 days.
- The "Estadía" of the patterns in `ItineraryAnalysis.tsx` and
  `CityDetailPage.tsx` is correctly encoded (U+00ED).

## Model

| member | source | states |
|---|---|---|
| HomePage.ParseRange | src/pages/HomePage.tsx:17-18 | a value that is not a string, or the empty string, reads as (0, 0) |
| HomePage.PieceValues | src/pages/HomePage.tsx:19 | one value per piece of the split, each the `parseFloat` of the trimmed piece |
| HomePage.ParseRangeSingle | src/pages/HomePage.tsx:23-25 | a single number n with any whitespace around it reads as (n, n) |
| HomePage.ParseRangePair | src/pages/HomePage.tsx:19-22 | "a - b" with any whitespace reads as (a, b), in input order, whichever is larger |
| HomePage.ParseRangeRejects | src/pages/HomePage.tsx:19-26 | three or more pieces, or any piece that is NaN, reads as (0, 0) |
| HomePage.ParseRangeLeadingMinus | src/pages/HomePage.tsx:19-26 | a leading minus makes an empty, NaN first piece, so "-5" and every "-…" read as (0, 0) |
| HomePage.ParseRangeOfOnePiece | src/pages/HomePage.tsx:23-24 | a text that is its own only piece and reads as x gives (x, x) |
| HomePage.ParseRangeOfTwoPieces | src/pages/HomePage.tsx:20-21 | a text split into two pieces reading as x and y gives (x, y) |
| HomePage.PaddedNumeralPiece | src/pages/HomePage.tsx:19 | a numeral with whitespace around it is a non-empty piece without '-' that reads as its value |
| HomePage.DaysNeedMatch | src/pages/HomePage.tsx:29-33 | a non-zero day count needs a match of the day pattern somewhere in the text |
| HomePage.FirstDaysMatch | src/pages/HomePage.tsx:31 | the index found is in range and the day pattern matches there (or there is none) |
| HomePage.FirstDaysMatchIsLeftmost | src/pages/HomePage.tsx:31 | no match of the day pattern starts before the one found: `match` takes the leftmost |
| HomePage.NoDaysMatchNoDays | src/pages/HomePage.tsx:30-32 | without a match anywhere the day count is 0 |
| HomePage.DaysOfNumeral | src/pages/HomePage.tsx:31-32 | a numeral, whitespace and the day literal give the numeral's value |
| HomePage.DaysAfterPrefix | src/pages/HomePage.tsx:29-33 | any digit-free text before the numeral, as in "Estadía: 5 días", is passed over: the count is the value of the numeral that the whitespace and the day literal follow |
| HomePage.MatchesNeedMisencodedLetter | src/pages/HomePage.tsx:31 | every match of the day pattern needs U+00C3 in the text |
| HomePage.DaysNeedMisencodedLiteral | src/pages/HomePage.tsx:31-32 | a text without U+00C3, such as one with a correctly encoded "días", gives 0 days |
| HomePage.AccumulateItems | src/pages/HomePage.tsx:84-90 | the inner loop adds exactly the min*days and max*days sums of the per-day items |
| HomePage.AccumulateTripTotals | src/pages/HomePage.tsx:74-91 | the loop over the cities ends with the totals over every city's saved-or-default budget and its day count |
| HomePage.ItemsTotalsPrefix | src/pages/HomePage.tsx:84-90 | one more item adds exactly what that item costs |
| HomePage.TripTotalsPrefix | src/pages/HomePage.tsx:79-91 | one more city adds exactly what that city's budget costs over its days |
| HomePage.ItemsTotalsAppend | src/pages/HomePage.tsx:84-90 | the totals of two item lists in a row are the sums of their totals |
| HomePage.NonPerDayItemIgnored | src/pages/HomePage.tsx:85 | an item that is not per-day changes neither total, wherever it stands |
| HomePage.SavedBudgetReplacesDefaults | src/pages/HomePage.tsx:82 | when a city has a saved budget, changing its default items changes no total |
| HomePage.TripTotalsPointwise | src/pages/HomePage.tsx:79-82 | the trip's totals depend on each city only through that city's own totals: two city lists with equal totals city by city have equal trip totals |
| HomePage.SavedCityIgnoresDefaults | src/pages/HomePage.tsx:82 | a city with a saved budget costs the same whatever its defaults |
| HomePage.ProductMonotone | src/pages/HomePage.tsx:87-88 | multiplying by a non-negative day count or rate keeps the order of two amounts |
| HomePage.ItemsTotalsOrdered | src/pages/HomePage.tsx:84-90 | if every per-day range has min <= max, the minimum total is at most the maximum |
| HomePage.TripTotalsOrdered | src/pages/HomePage.tsx:79-91 | the same over the whole trip |
| HomePage.LocaleFor | src/pages/HomePage.tsx:98 | the locale is "he-IL" exactly for Hebrew, otherwise "es-AR" |
| HomePage.ConvertBudget | src/pages/HomePage.tsx:93-97 | no conversion exactly when the rate is null; otherwise the minimum and the maximum are each multiplied by the rate, so their ratio is kept |
| HomePage.TripBudgetText | src/pages/HomePage.tsx:95-103 | a null rate shows the translated error; otherwise "min - max CUR" with both totals times the rate and no fraction digits |
| HomePage.DisplayedBudgetOrdered | src/pages/HomePage.tsx:93-100 | with ordered ranges and a non-negative rate, the displayed minimum is at most the maximum |
| HomePage.ConvertedPrice | src/pages/HomePage.tsx:59-68 | pesos are shown through the translated "transport_price_ars_generic" text with the locale-formatted price, and the rates are not consulted; another currency with a known rate shows the price times the rate, with two fraction digits, followed by the currency code; a missing or null rate shows the translated "loading" text |
| HomePage.ArsPriceIgnoresRates | src/pages/HomePage.tsx:60-62 | a price in pesos does not depend on the stored rates |
| HomePage.PriceAfterRatesUpdate | src/pages/HomePage.tsx:59-68 | after the rate update, a price in another currency is the converted amount with two fraction digits, or "loading" when the service gave null |
| HomePage.HomePageState.constructor | src/pages/HomePage.tsx:40-41 | no rates yet, and the budget shows the "calculating" text |
| HomePage.HomePageState.UpdateTransportRates | src/pages/HomePage.tsx:44-53 | the new rates hold exactly one key: pesos map to 1, another currency to the fetched rate |
| HomePage.HomePageState.CalculateTripBudget | src/pages/HomePage.tsx:71-103 | the budget text ends as the converted totals of the trip, or the error text |
| JsStrings.Split | src/pages/HomePage.tsx:19 | the pieces contain no separator and joined with it give back the text |
| JsStrings.SplitJoin | src/pages/CityDetailPage.tsx:200 | splitting a join of separator-free pieces gives back those pieces |
| JsNumbers.ParseFloat | src/pages/HomePage.tsx:19 | `parseFloat` gives a number only for a text that holds a digit; otherwise NaN |
| JsNumbers.ParseFloatDecimal | src/pages/HomePage.tsx:19 | `parseFloat` reads a decimal numeral as the number it denotes |
| JsNumbers.ParseFloatBlank | src/pages/HomePage.tsx:19-20 | `parseFloat` of a blank string is NaN |
| BudgetSummary.IconForConcept | src/components/home/BudgetSummary.tsx:11-19 | "accommodation" wins over everything, then "food"; the dollar icon exactly when no keyword occurs |
| BudgetSummary.FirstMatchingIcon | src/components/home/BudgetSummary.tsx:11-18 | the icon of the first rule whose keyword the key contains, and the default icon when none does |
| BudgetSummary.IconForConceptIsFirstMatch | src/components/home/BudgetSummary.tsx:11-18 | the if-chain is the first-match classifier over its keyword table, for every key |
| BudgetSummary.FirstMatchingIconOfThree | src/components/home/BudgetSummary.tsx:15-18 | a table of three rules is the three-step if-chain |
| BudgetSummary.FirstMatchingIconStep | src/components/home/BudgetSummary.tsx:11-17 | the classifier tests one rule and then the rest |
| BudgetSummary.CompareEntries | src/components/home/BudgetSummary.tsx:27-33 | flight keys before the others; otherwise `localeCompare` of the translated labels |
| BudgetSummary.CompareEntriesConsistent | src/components/home/BudgetSummary.tsx:27-33 | the comparator is antisymmetric in sign and transitive whenever `localeCompare` is |
| BudgetSummary.Insert | src/components/home/BudgetSummary.tsx:27 | inserting adds exactly the entry to the multiset |
| BudgetSummary.SortBreakdown | src/components/home/BudgetSummary.tsx:27 | the sorted breakdown is a permutation of the entries |
| BudgetSummary.InsertSorted | src/components/home/BudgetSummary.tsx:27-33 | inserting into a sorted breakdown keeps it sorted |
| BudgetSummary.SortedTail | src/components/home/BudgetSummary.tsx:27 | the tail of a sorted breakdown is sorted |
| BudgetSummary.PrependSorted | src/components/home/BudgetSummary.tsx:27-33 | an entry that must precede the head may go in front of a sorted breakdown |
| BudgetSummary.ConsSorted | src/components/home/BudgetSummary.tsx:27-33 | a head that may precede the inserted entry stays in front of the sorted rest |
| BudgetSummary.SortBreakdownSorted | src/components/home/BudgetSummary.tsx:27-33 | the sorted breakdown is in comparator order |
| BudgetSummary.SortedBreakdownGroups | src/components/home/BudgetSummary.tsx:28-32 | every flight entry precedes every other entry, and within each group the labels are in `localeCompare` order |
| BudgetSummary.Rows | src/components/home/BudgetSummary.tsx:57-64 | one row per entry, in order, with its icon, translated label and amount |
| BudgetSummary.RenderBudgetSummary | src/components/home/BudgetSummary.tsx:45-57 | the spinner replaces the total exactly while calculating; the breakdown shows exactly when not calculating and non-empty, in sorted order |
| BudgetSummary.RowsShowEveryEntry | src/components/home/BudgetSummary.tsx:53-64 | every entry of the breakdown appears as a row when the breakdown is shown |
| CityDetailPage.GenericPromptKey | src/pages/CityDetailPage.tsx:49 | "generic" followed by the key without its first `city.id.length` characters |
| CityDetailPage.GenericKeyOfCityKey | src/pages/CityDetailPage.tsx:49 | for a key made of the city's id and a suffix, the generic key is "generic" and that suffix |
| CityDetailPage.ConstructFullPrompt | src/pages/CityDetailPage.tsx:45-57 | null exactly when both keys come back untranslated; with the city's template, the trimmed template, space and input |
| CityDetailPage.NoTemplateNoPrompt | src/pages/CityDetailPage.tsx:48-53 | with neither key in the translations there is no prompt |
| CityDetailPage.GenericTemplateFallback | src/pages/CityDetailPage.tsx:47-56 | a city without its own template uses the generic template of the same suffix |
| CityDetailPage.PromptWithoutInput | src/pages/CityDetailPage.tsx:56 | with no user input the prompt is the filled template, trimmed |
| CityDetailPage.TrimTrailingSpace | src/pages/CityDetailPage.tsx:56 | one more space at the end changes nothing once trimmed |
| CityDetailPage.UserInputFor | src/pages/CityDetailPage.tsx:60 | the stored input for the suffix, or "" |
| CityDetailPage.EventDatesOfLabelledLine | src/pages/CityDetailPage.tsx:164-165 | a first line "- **Estadía**: dates" gives exactly the dates, whatever follows |
| CityDetailPage.NoLineFeedInLabelledLine | src/pages/CityDetailPage.tsx:165 | the label, the gap and the dates make one line |
| CityDetailPage.LabelRemovedFromLine | src/pages/CityDetailPage.tsx:165 | removing the label and the whitespace after it leaves the dates |
| CityDetailPage.CityDetailPageState.constructor | src/pages/CityDetailPage.tsx:18-31 | a freshly opened city has no responses, no loading flags and no inputs |
| CityDetailPage.CityDetailPageState.SetUserInput | src/pages/CityDetailPage.tsx:379 | only the suffix's input changes |
| CityDetailPage.CityDetailPageState.GenerationEntry | src/pages/CityDetailPage.tsx:65-107 | the stored entry carries the text, the target language, the base key and the user's input |
| CityDetailPage.CityDetailPageState.HandleGenerateAiContent | src/pages/CityDetailPage.tsx:59-112 | only the suffix's entries change; without a prompt an error is stored and the flag is never set; otherwise the flag ends false and the entry holds the answer or the error |
| CityDetailPage.CityDetailPageState.HandleTranslateAiResponse | src/pages/CityDetailPage.tsx:114-158 | a no-op without a stored response; only the suffix's entries change; the prompt-error entry takes the page's language |
| CityDetailPage.CityDetailPageState.HandleFindEvents | src/pages/CityDetailPage.tsx:160-188 | the prompt names the city and its dates; loading ends false and the answer or the error text is stored |
| CityDetailPage.UpdateTwice | src/pages/CityDetailPage.tsx:78-98 | a second update of the same key overrides the first |
| CityDetailPage.GeneratedText | src/pages/CityDetailPage.tsx:89-108 | the answer, or the translated error when the call failed |
| CityDetailPage.TranslationOutcome | src/pages/CityDetailPage.tsx:136-154 | success takes the page's language; failure keeps the old entry, its language included, and appends exactly "\n\n(" + t('iaError') + " - Translation failed)" to its text; the prompt fields survive |
| CityDetailPage.EventsOutcome | src/pages/CityDetailPage.tsx:169-184 | the answer with its sources, or the error text when it is empty or the call failed; an empty answer still keeps its sources, and a failed call stores none |
| CityDetailPage.TranslationKeepsPrompt | src/pages/CityDetailPage.tsx:118-146 | translating twice still asks with the original key and input |
| CityDetailPage.ListItems | src/pages/CityDetailPage.tsx:200-205 | no more items than lines |
| CityDetailPage.ListItemsAppend | src/pages/CityDetailPage.tsx:200-205 | the items of two runs of lines are the items of the first followed by those of the second: each line is kept or dropped on its own, in order |
| CityDetailPage.BulletLineKept | src/pages/CityDetailPage.tsx:200-205 | a bullet line gives exactly one item, the line without its first two characters |
| CityDetailPage.NonBulletDropped | src/pages/CityDetailPage.tsx:200 | a line that is not a bullet gives no item, wherever it stands among the others |
| CityDetailPage.ListItemsSingleLine | src/pages/CityDetailPage.tsx:200-205 | when no line holds a line feed, no item does |
| CityDetailPage.NoBulletsNoItems | src/pages/CityDetailPage.tsx:200 | lines none of which is a bullet line make no items |
| CityDetailPage.RenderSection | src/pages/CityDetailPage.tsx:191-228 | nothing exactly when the content is empty or untranslated; a bullet list of the kept lines when it starts with "- " |
| CityDetailPage.Bullets | src/pages/CityDetailPage.tsx:200 | the bullet line of each item, in order |
| CityDetailPage.BulletLineItem | src/pages/CityDetailPage.tsx:200-205 | a bullet line is kept and its item is read back |
| CityDetailPage.ListItemsOfBullets | src/pages/CityDetailPage.tsx:200-205 | bullet lines keep all their items, in order |
| CityDetailPage.BulletContentRoundTrip | src/pages/CityDetailPage.tsx:199-205 | a list written as bullet lines joined by line feeds is shown as that list |
| CityDetailPage.BulletLinesSingle | src/pages/CityDetailPage.tsx:200 | bullet lines of single-line items are single lines |
| CityDetailPage.IndentedBulletKeepsDash | src/pages/CityDetailPage.tsx:200-205 | an indented bullet is kept, but the two characters removed are the indentation, so the dash stays |
| CityDetailPage.RenderLinkSection | src/pages/CityDetailPage.tsx:241-279 | nothing exactly when neither main text nor URL is translated; each part shows exactly when valid; the caption falls back to "explore" |
| CityDetailPage.UntranslatedLinkSectionHidden | src/pages/CityDetailPage.tsx:248-254 | with neither key in the translations the section is hidden |
| JsStrings.RemoveFirstMarker | src/src/components/home/ItineraryAnalysis.tsx:20 | without an occurrence of the marker the text is unchanged |
| JsStrings.RemoveFirstMarkerRemoves | src/src/components/home/ItineraryAnalysis.tsx:20 | with an occurrence, the text before the first one stays, and the marker and the whole whitespace run after it are removed |
| ItineraryAnalysis.SegmentEnd | src/src/components/home/ItineraryAnalysis.tsx:20 | how far `.*` reaches: the first line terminator or the end |
| ItineraryAnalysis.StayLabelEnd | src/src/components/home/ItineraryAnalysis.tsx:20 | a match of the label ends after it |
| ItineraryAnalysis.LastStayLabel | src/src/components/home/ItineraryAnalysis.tsx:20 | the greedy `.*` stops at the last label of the range, and there is none after it |
| ItineraryAnalysis.StripThroughLastLabel | src/src/components/home/ItineraryAnalysis.tsx:20 | on one line everything through the last label and the whitespace after it is removed |
| ItineraryAnalysis.StripWithoutLabel | src/src/components/home/ItineraryAnalysis.tsx:20 | without a label the first pattern removes nothing |
| ItineraryAnalysis.SimplifiedDuration | src/src/components/home/ItineraryAnalysis.tsx:18-21 | an untranslated duration key shows the "not specified" text; a translated one is shortened |
| ItineraryAnalysis.FirstLineOfLine | src/src/components/home/ItineraryAnalysis.tsx:20 | a text without a line feed is its own first line |
| ItineraryAnalysis.OnlyFirstLineMatters | src/src/components/home/ItineraryAnalysis.tsx:20 | nothing after the first line feed changes the stay |
| ItineraryAnalysis.PlainLineIsTrimmed | src/src/components/home/ItineraryAnalysis.tsx:20 | a line with no label and no marker is only trimmed |
| ItineraryAnalysis.NoMarkerFound | src/src/components/home/ItineraryAnalysis.tsx:20 | where no position matches, the marker search finds nothing |
| ItineraryAnalysis.LabelOfLabelledLine | src/src/components/home/ItineraryAnalysis.tsx:20 | the label matches where it stands, and its match ends at the dates |
| ItineraryAnalysis.NoLaterLabel | src/src/components/home/ItineraryAnalysis.tsx:20 | dates without a colon hold no later label |
| ItineraryAnalysis.LabelledLineSingleSegment | src/src/components/home/ItineraryAnalysis.tsx:20 | a labelled line of single-line parts is one line |
| ItineraryAnalysis.BoldMarkerNeedsColon | src/src/components/home/ItineraryAnalysis.tsx:20 | wherever the bold marker matches, the text has a colon |
| ItineraryAnalysis.NoBoldMarkerWithoutColon | src/src/components/home/ItineraryAnalysis.tsx:20 | text without a colon holds no bold marker |
| ItineraryAnalysis.LabelledLineGivesDates | src/src/components/home/ItineraryAnalysis.tsx:20 | "… Estadía: dates" on one line is shortened to exactly the dates |
| ItineraryAnalysis.BoldMarkerRemoved | src/src/components/home/ItineraryAnalysis.tsx:20 | on one line without a bare "Estadía:" label, the first "**Estadía**:" marker and the whitespace after it are removed and the text before it stays, so "- **Estadía**: dates" keeps its "- " |
| ItineraryAnalysis.CurrentPlan | src/src/components/home/ItineraryAnalysis.tsx:17-27 | one entry per city, in the order of the cities, with its name and its stay |
| ItineraryAnalysis.PlanShowsLabelledDates | src/src/components/home/ItineraryAnalysis.tsx:17-24 | a city whose duration is a labelled line is listed with just its dates |
| ItineraryAnalysis.OptimizationTips | src/src/components/home/ItineraryAnalysis.tsx:34-36 | always tips 1 to 6, in order |

## Left out

- IEEE floating point: amounts and `parseFloat` are exact reals. `Infinity`, overflow, rounding and `-0` are not modelled. `parseFloat` reads "Infinity" as NaN here.
- `toLocaleString` and its locale data are the abstract `Formatter`.
- Translation interpolation is the abstract `interpolate` of `I18n.Translator`. The translation tables themselves are not part of this model.
- The `CITIES` list is an input. src/constants.ts is not part of this model.
- `localStorage`, `JSON.parse` of the saved budgets and the `storage` event listener of the home page are browser I/O. The saved budgets are an input map of city id to item list.
- Only items that come back from storage can hold a non-string `value`. `Trip.RangeSource` models that as a text or any non-text value.
- `askGemini`, `findEventsWithGoogleSearch` and `getCachedExchangeRate` are network calls. Their answers are parameters.
- Async interleaving is not modelled. Each handler runs to completion before another starts, so a stale answer cannot overwrite a newer one. React's batching of state updates is also not modelled.
- `console.error` on a missing prompt is not modelled.
- The gastronomy layout of `renderSection` is not modelled: the split on `### ` headings, the subtitle matching and `parseMarkdownTable`. The model keeps the raw content as `Gastronomy(content)`. The branch choice itself is modelled.
- `parseMarkdownLinks` on each list item is not modelled. The items are the texts it receives.
- JSX, CSS classes, the map widget, routing and the rendering of search sources are not modelled.
- CityDetailPage.MainTextKey: lower-cases ASCII letters only. JavaScript's `toLowerCase` also maps other letters, but the section suffixes are ASCII.
- JsStrings.CaseCanon: the `i` flag is modelled as ASCII and Latin-1 case folding. The literals it compares are ASCII except "í".
- BudgetSummary.SortBreakdown: the engine's sort is modelled as a stable insertion sort. Its result is proved a sorted permutation. Stability is modelled but not stated as a property, and the order that a comparator which is not a total preorder would give is not modelled.
- BudgetSummary's `budgetDetails` prop does not match the `tripBudget` string that the home page passes it. The card is modelled against its own props type.
- CityDetailPage.EventDates: no contract of its own. What it computes is stated by `EventDatesOfLabelledLine`, for a first line holding the label.
- ItineraryAnalysis.SimplifyDurationText: no contract of its own. What it computes is stated by lemmas: `OnlyFirstLineMatters` for the first line; `LabelledLineGivesDates` for the first pattern; `BoldMarkerRemoved` for the second pattern; `PlainLineIsTrimmed` for a line that neither pattern matches.
- ItineraryAnalysis.StripStayPrefixFrom: no contract of its own. The first pattern's effect is stated by `StripThroughLastLabel` and `StripWithoutLabel`.
- HomePage.DaysFromDuration: no contract of its own. What it computes is stated by lemmas: `DaysNeedMatch` and `NoDaysMatchNoDays` for the zero case; `FirstDaysMatchIsLeftmost` for the leftmost match; `DaysOfNumeral` for the value of a numeral at the start of the text, and `DaysAfterPrefix` for a numeral after digit-free text such as a label; `DaysNeedMisencodedLiteral` for the literal as written.
- HomePage.TripTotals: no contract of its own. It is the reference sum that `AccumulateTripTotals` is proved to compute. `TripTotalsPrefix`, `SavedBudgetReplacesDefaults` and `TripTotalsOrdered` state its properties.
- CityDetailPage.EventsPrompt: no contract of its own. It is the fixed event-finder template filled with the city name and the dates, and `HandleFindEvents` states that this is the prompt sent.
- CityDetailPage.PromptMissing: no contract of its own. It is JavaScript's falsiness of a prompt that is null or empty, and the `ensures` of `HandleGenerateAiContent` and `HandleTranslateAiResponse` state what follows from it.
- The currency converter, the general AI query, the transport table and the static trip page are not modelled. They are a guard around a network call, pure rendering, or static data.
