/** The budget summary card (src/components/home/BudgetSummary.tsx): the
    icon each cost concept gets, the order of the breakdown rows (flights
    first, then by translated label) and which parts of the card are shown.

    `localeCompare` belongs to the browser's collation and stays abstract:
    it is a parameter, and the properties of the sort hold whenever it is a
    consistent comparator, which is what `Array.prototype.sort` asks of the
    comparison it is given. */
module BudgetSummary {
  import opened Options
  import opened JsStrings
  import opened I18n

  // ---------------------------------------------------------------------
  // Icons

  const DefaultIcon: string := "fa-dollar-sign"

  /** `getIconForConcept`: the first keyword the key contains picks the icon. */
  function IconForConcept(key: string): (icon: string)
    ensures Contains(key, "accommodation") ==> icon == "fa-bed"
    ensures !Contains(key, "accommodation") && Contains(key, "food") ==> icon == "fa-utensils"
    ensures icon == DefaultIcon <==>
      !Contains(key, "accommodation") && !Contains(key, "food") && !Contains(key, "transport")
      && !Contains(key, "activities") && !Contains(key, "museums") && !Contains(key, "flights")
  {
    if Contains(key, "accommodation") then "fa-bed"
    else if Contains(key, "food") then "fa-utensils"
    else if Contains(key, "transport") then "fa-bus-alt"
    else if Contains(key, "activities") then "fa-hiking"
    else if Contains(key, "museums") then "fa-landmark"
    else if Contains(key, "flights") then "fa-plane-departure"
    else DefaultIcon
  }

  /** The keyword table behind `getIconForConcept`, in priority order. */
  const IconRules: seq<(string, string)> := [
    ("accommodation", "fa-bed"),
    ("food", "fa-utensils"),
    ("transport", "fa-bus-alt"),
    ("activities", "fa-hiking"),
    ("museums", "fa-landmark"),
    ("flights", "fa-plane-departure")
  ]

  /** A first-match classifier over a rule table: the icon of the first rule
      whose keyword the key contains, or the default icon. */
  function FirstMatchingIcon(rules: seq<(string, string)>, key: string): (icon: string)
    ensures (forall r :: 0 <= r < |rules| ==> !Contains(key, rules[r].0)) ==> icon == DefaultIcon
    ensures (exists r :: 0 <= r < |rules| && Contains(key, rules[r].0)) ==>
      exists r :: 0 <= r < |rules| && Contains(key, rules[r].0) && icon == rules[r].1
        && forall q :: 0 <= q < r ==> !Contains(key, rules[q].0)
  {
    if rules == [] then DefaultIcon
    else if Contains(key, rules[0].0) then rules[0].1
    else
      var icon := FirstMatchingIcon(rules[1..], key);
      assert forall r :: 1 <= r < |rules| ==> rules[1..][r - 1] == rules[r];
      if exists r :: 0 <= r < |rules| && Contains(key, rules[r].0) then
        var r' :| 0 <= r' < |rules| && Contains(key, rules[r'].0);
        assert r' >= 1 && Contains(key, rules[1..][r' - 1].0);
        var q :| 0 <= q < |rules[1..]| && Contains(key, rules[1..][q].0) && icon == rules[1..][q].1
          && forall p :: 0 <= p < q ==> !Contains(key, rules[1..][p].0);
        assert Contains(key, rules[q + 1].0) && icon == rules[q + 1].1;
        assert forall p :: 1 <= p < q + 1 ==> !Contains(key, rules[p].0) by {
          forall p | 1 <= p < q + 1 ensures !Contains(key, rules[p].0) {
            assert rules[p] == rules[1..][p - 1];
          }
        }
        icon
      else
        icon
  }

  /** The if-chain and the rule table agree on every key: the chain is a
      first-match classifier over the table, so a key with several keywords
      gets the icon of the earliest one. */
  lemma IconForConceptIsFirstMatch(key: string)
    ensures IconForConcept(key) == FirstMatchingIcon(IconRules, key)
  {
    var rules := IconRules;
    FirstMatchingIconStep(rules, 0, key);
    FirstMatchingIconStep(rules, 1, key);
    FirstMatchingIconStep(rules, 2, key);
    var later := rules[3..];
    FirstMatchingIconOfThree(later, key);
    assert later[0] == ("activities", "fa-hiking");
    assert later[1] == ("museums", "fa-landmark");
    assert later[2] == ("flights", "fa-plane-departure");
    assert rules[0..] == rules;
  }

  /** A table of three rules, unrolled. */
  lemma FirstMatchingIconOfThree(rules: seq<(string, string)>, key: string)
    requires |rules| == 3
    ensures FirstMatchingIcon(rules, key) ==
      if Contains(key, rules[0].0) then rules[0].1
      else if Contains(key, rules[1].0) then rules[1].1
      else if Contains(key, rules[2].0) then rules[2].1
      else DefaultIcon
  {
    FirstMatchingIconStep(rules, 0, key);
    FirstMatchingIconStep(rules, 1, key);
    FirstMatchingIconStep(rules, 2, key);
    assert rules[0..] == rules && rules[3..] == [];
  }

  /** The classifier over a suffix of the table looks at its first rule,
      then at the rest. */
  lemma FirstMatchingIconStep(rules: seq<(string, string)>, n: nat, key: string)
    requires n < |rules|
    ensures FirstMatchingIcon(rules[n..], key)
      == if Contains(key, rules[n].0) then rules[n].1 else FirstMatchingIcon(rules[n + 1..], key)
  {
    assert rules[n..][1..] == rules[n + 1..];
  }

  // ---------------------------------------------------------------------
  // Breakdown order

  /** One `[key, value]` of `Object.entries(breakdown)`. */
  datatype Entry = Entry(key: string, amount: string)

  type LocaleCompare = (string, string) -> int

  /** What `sort` requires of a comparison: swapping the arguments flips
      the sign, and "at most" (a result <= 0) is transitive. */
  ghost predicate Consistent(localeCompare: LocaleCompare) {
    && (forall x, y :: localeCompare(x, y) < 0 <==> localeCompare(y, x) > 0)
    && (forall x, y, z :: localeCompare(x, y) <= 0 && localeCompare(y, z) <= 0 ==> localeCompare(x, z) <= 0)
  }

  predicate IsFlightKey(key: string) {
    Contains(key, "flight")
  }

  /** The comparator of `sortedBreakdown`: keys containing "flight" come
      first; otherwise the translated labels are compared. */
  function CompareEntries(tr: Translator, localeCompare: LocaleCompare, a: Entry, b: Entry): (order: int)
    ensures IsFlightKey(a.key) && !IsFlightKey(b.key) ==> order < 0
    ensures !IsFlightKey(a.key) && IsFlightKey(b.key) ==> order > 0
    ensures IsFlightKey(a.key) == IsFlightKey(b.key) ==> order == localeCompare(tr.T(a.key), tr.T(b.key))
  {
    var isFlightA := IsFlightKey(a.key);
    var isFlightB := IsFlightKey(b.key);
    if isFlightA && !isFlightB then -1
    else if !isFlightA && isFlightB then 1
    else localeCompare(tr.T(a.key), tr.T(b.key))
  }

  /** The entry comparator is consistent whenever `localeCompare` is. */
  lemma CompareEntriesConsistent(tr: Translator, localeCompare: LocaleCompare, a: Entry, b: Entry, c: Entry)
    requires Consistent(localeCompare)
    ensures CompareEntries(tr, localeCompare, a, b) < 0 <==> CompareEntries(tr, localeCompare, b, a) > 0
    ensures CompareEntries(tr, localeCompare, a, b) <= 0 && CompareEntries(tr, localeCompare, b, c) <= 0
      ==> CompareEntries(tr, localeCompare, a, c) <= 0
  {
    var x, y, z := tr.T(a.key), tr.T(b.key), tr.T(c.key);
    assert localeCompare(x, y) < 0 <==> localeCompare(y, x) > 0;
    assert localeCompare(x, y) <= 0 && localeCompare(y, z) <= 0 ==> localeCompare(x, z) <= 0;
  }

  /** `s` is in the order the comparator asks for. */
  predicate SortedBy(tr: Translator, localeCompare: LocaleCompare, s: seq<Entry>) {
    forall i, j :: 0 <= i < j < |s| ==> CompareEntries(tr, localeCompare, s[i], s[j]) <= 0
  }

  /** Places `e` before the first entry it must precede, after all the
      others: later entries land after the ones they tie with. */
  function Insert(tr: Translator, localeCompare: LocaleCompare, e: Entry, sorted: seq<Entry>): (r: seq<Entry>)
    ensures multiset(r) == multiset(sorted) + multiset{e}
  {
    if sorted == [] then [e]
    else if CompareEntries(tr, localeCompare, e, sorted[0]) < 0 then [e] + sorted
    else
      assert sorted == [sorted[0]] + sorted[1..];
      [sorted[0]] + Insert(tr, localeCompare, e, sorted[1..])
  }

  /** `Object.entries(breakdown).sort(comparator)`, as the stable sort that
      `Array.prototype.sort` is: each entry, in input order, is inserted
      after the entries it ties with. */
  function SortBreakdown(tr: Translator, localeCompare: LocaleCompare, entries: seq<Entry>): (sorted: seq<Entry>)
    ensures multiset(sorted) == multiset(entries)
  {
    if entries == [] then []
    else
      assert entries == entries[..|entries| - 1] + [entries[|entries| - 1]];
      Insert(tr, localeCompare, entries[|entries| - 1], SortBreakdown(tr, localeCompare, entries[..|entries| - 1]))
  }

  /** Inserting into a sorted breakdown keeps it sorted. */
  lemma {:induction false} InsertSorted(tr: Translator, localeCompare: LocaleCompare, e: Entry, sorted: seq<Entry>)
    requires Consistent(localeCompare)
    requires SortedBy(tr, localeCompare, sorted)
    ensures SortedBy(tr, localeCompare, Insert(tr, localeCompare, e, sorted))
    decreases |sorted|
  {
    if sorted == [] {
    } else if CompareEntries(tr, localeCompare, e, sorted[0]) < 0 {
      PrependSorted(tr, localeCompare, e, sorted);
    } else {
      SortedTail(tr, localeCompare, sorted);
      InsertSorted(tr, localeCompare, e, sorted[1..]);
      CompareEntriesConsistent(tr, localeCompare, e, sorted[0], e);
      ConsSorted(tr, localeCompare, sorted[0], e, sorted[1..], Insert(tr, localeCompare, e, sorted[1..]));
    }
  }

  /** The tail of a sorted breakdown is sorted. */
  lemma SortedTail(tr: Translator, localeCompare: LocaleCompare, sorted: seq<Entry>)
    requires sorted != [] && SortedBy(tr, localeCompare, sorted)
    ensures SortedBy(tr, localeCompare, sorted[1..])
  {
    forall i, j | 0 <= i < j < |sorted[1..]| ensures CompareEntries(tr, localeCompare, sorted[1..][i], sorted[1..][j]) <= 0 {
      assert sorted[1..][i] == sorted[i + 1] && sorted[1..][j] == sorted[j + 1];
    }
  }

  /** An entry that must precede the first of a sorted breakdown may go in
      front of it. */
  lemma PrependSorted(tr: Translator, localeCompare: LocaleCompare, e: Entry, sorted: seq<Entry>)
    requires Consistent(localeCompare)
    requires sorted != [] && SortedBy(tr, localeCompare, sorted)
    requires CompareEntries(tr, localeCompare, e, sorted[0]) < 0
    ensures SortedBy(tr, localeCompare, [e] + sorted)
  {
    var r := [e] + sorted;
    forall i, j | 0 <= i < j < |r| ensures CompareEntries(tr, localeCompare, r[i], r[j]) <= 0 {
      if i == 0 {
        if j > 1 {
          CompareEntriesConsistent(tr, localeCompare, e, sorted[0], sorted[j - 1]);
        }
      }
    }
  }

  /** The head of a sorted breakdown, put in front of the tail with `e`
      inserted, when it may precede `e`. */
  lemma ConsSorted(tr: Translator, localeCompare: LocaleCompare, head: Entry, e: Entry, tail: seq<Entry>, rest: seq<Entry>)
    requires SortedBy(tr, localeCompare, [head] + tail)
    requires SortedBy(tr, localeCompare, rest)
    requires multiset(rest) == multiset(tail) + multiset{e}
    requires CompareEntries(tr, localeCompare, head, e) <= 0
    ensures SortedBy(tr, localeCompare, [head] + rest)
  {
    var sorted := [head] + tail;
    var r := [head] + rest;
    forall i, j | 0 <= i < j < |r| ensures CompareEntries(tr, localeCompare, r[i], r[j]) <= 0 {
      if i == 0 {
        var x := rest[j - 1];
        assert r[0] == head && r[j] == x;
        assert x in multiset(rest);
        if x != e {
          assert x in multiset(tail);
          var k :| 0 <= k < |tail| && tail[k] == x;
          assert sorted[0] == head && sorted[k + 1] == x;
        }
      } else {
        assert r[i] == rest[i - 1] && r[j] == rest[j - 1];
      }
    }
  }

  /** The sorted breakdown is in comparator order. */
  lemma {:induction false} SortBreakdownSorted(tr: Translator, localeCompare: LocaleCompare, entries: seq<Entry>)
    requires Consistent(localeCompare)
    ensures SortedBy(tr, localeCompare, SortBreakdown(tr, localeCompare, entries))
    decreases |entries|
  {
    if entries != [] {
      SortBreakdownSorted(tr, localeCompare, entries[..|entries| - 1]);
      InsertSorted(tr, localeCompare, entries[|entries| - 1], SortBreakdown(tr, localeCompare, entries[..|entries| - 1]));
    }
  }

  /** Every flight entry precedes every other entry, and within each group
      the translated labels are in `localeCompare` order. */
  lemma SortedBreakdownGroups(tr: Translator, localeCompare: LocaleCompare, entries: seq<Entry>, i: nat, j: nat)
    requires Consistent(localeCompare)
    requires i < j < |SortBreakdown(tr, localeCompare, entries)|
    ensures var s := SortBreakdown(tr, localeCompare, entries);
      (IsFlightKey(s[j].key) ==> IsFlightKey(s[i].key))
      && (IsFlightKey(s[i].key) == IsFlightKey(s[j].key) ==> localeCompare(tr.T(s[i].key), tr.T(s[j].key)) <= 0)
  {
    SortBreakdownSorted(tr, localeCompare, entries);
    var s := SortBreakdown(tr, localeCompare, entries);
    assert CompareEntries(tr, localeCompare, s[i], s[j]) <= 0;
  }

  // ---------------------------------------------------------------------
  // The card

  /** The props of the card. */
  datatype BudgetDetails = BudgetDetails(total: string, breakdown: seq<Entry>, isCalculating: bool)

  /** One row of the breakdown: its icon, its translated caption, its amount. */
  datatype BreakdownRow = BreakdownRow(icon: string, caption: string, amount: string)

  /** What the card shows. `total` is `None` while the spinner stands in its
      place; `rows` is `None` when the breakdown block is not rendered. */
  datatype SummaryView = SummaryView(
    title: string,
    description: string,
    totalLabel: string,
    total: Option<string>,
    breakdownTitle: string,
    rows: Option<seq<BreakdownRow>>)

  /** The breakdown rows of a list of entries, in that list's order. */
  function Rows(tr: Translator, entries: seq<Entry>): (rows: seq<BreakdownRow>)
    ensures |rows| == |entries|
    ensures forall k :: 0 <= k < |rows| ==>
      rows[k] == BreakdownRow(IconForConcept(entries[k].key), tr.T(entries[k].key), entries[k].amount)
  {
    if entries == [] then []
    else [BreakdownRow(IconForConcept(entries[0].key), tr.T(entries[0].key), entries[0].amount)] + Rows(tr, entries[1..])
  }

  /** The card: the spinner replaces the total while calculating, and the
      breakdown appears only when not calculating and there is at least one
      entry, its rows in sorted order. */
  function RenderBudgetSummary(tr: Translator, localeCompare: LocaleCompare, details: BudgetDetails): (view: SummaryView)
    ensures view.total.None? <==> details.isCalculating
    ensures view.total.Some? ==> view.total.value == details.total
    ensures view.rows.Some? <==> !details.isCalculating && |details.breakdown| > 0
    ensures view.rows.Some? ==> view.rows.value == Rows(tr, SortBreakdown(tr, localeCompare, details.breakdown))
  {
    SummaryView(
      tr.T("budget_summary_title"),
      tr.T("budget_summary_desc"),
      tr.T("budget_summary_total_label"),
      if details.isCalculating then None else Some(details.total),
      tr.T("budget_summary_breakdown_title"),
      if !details.isCalculating && |details.breakdown| > 0
      then Some(Rows(tr, SortBreakdown(tr, localeCompare, details.breakdown)))
      else None)
  }

  /** Each entry of the breakdown is shown in a row, with its own icon,
      label and amount, once the breakdown is shown. */
  lemma RowsShowEveryEntry(tr: Translator, localeCompare: LocaleCompare, details: BudgetDetails, e: Entry)
    requires !details.isCalculating && e in details.breakdown
    ensures var view := RenderBudgetSummary(tr, localeCompare, details);
      view.rows.Some? && BreakdownRow(IconForConcept(e.key), tr.T(e.key), e.amount) in view.rows.value
  {
    var sorted := SortBreakdown(tr, localeCompare, details.breakdown);
    assert e in multiset(sorted);
    var k :| 0 <= k < |sorted| && sorted[k] == e;
    assert Rows(tr, sorted)[k] == BreakdownRow(IconForConcept(e.key), tr.T(e.key), e.amount);
  }
}
