/** The trip's data as the pages see it: the cities in `CITIES` order, each
    with its translation keys and its default budget items. The constant
    list itself lives in constants.ts, which is not part of this model, so
    every operation takes the list as a parameter. */
module Trip {

  /** A budget item's `value` as it is stored: normally a range string such
      as "30-50", but items saved by the user come back from JSON and may hold
      any other value. */
  datatype RangeSource = Text(s: string) | NotText

  datatype BudgetItem = BudgetItem(value: RangeSource, isPerDay: bool)

  datatype City = City(
    id: string,
    nameKey: string,
    budgetItems: seq<BudgetItem>,
    activitiesKey: string,
    accommodationKey: string)
}
