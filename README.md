# Dashboard store

A model of the Pinia store behind a small dashboard that charts personal income
and bachelor's-degree attainment by US state, 2006 to 2019. The store holds the
UI selection (selected year, selected states, brushed states, highlighted state)
and the two loaded CSV tables. It derives three views from them: each table
reduced to the selected year, and the inner join of the two tables on the state
for that year.

Files:

- `wrappers.dfy`: `Option` (JavaScript's `undefined`/`null` beside a present value) and map lookup.
- `sequences.dfy`: `Choose`, a filter followed by a map, and the lemmas that it keeps exactly the chosen elements in order.
- `cells.dfy`: a row as a map from column header to cell text. Also the year as a property key (`YearKey`) and unary `+` on cell text (`ToNum`).
- `store.dfy`: the store's state record, the two filtered getters, the join as a pure function (`Combined`), the store's own map-then-scan computation of it (`CombinedData`, proved equal to `Combined`), and the `Store` class with its selection actions.
- `store_properties.dfy`: what the views promise about the raw tables.

The getters are pure functions of a `StoreState` record, which is what a Pinia
getter receives. The actions are methods of the `Store` class, and each one
states the whole new state as the old state with one field replaced.

## Model

| member | source | states |
|---|---|---|
| DashboardStore.FilteredPersonaleIncome | src/stores/store.js:46-54 | the filtered income view is never longer than the income table, and is empty when that table is empty |
| DashboardStore.FilteredBaDegreeOrHigher | src/stores/store.js:55-63 | the filtered education view is never longer than the education table, and is empty when that table is empty |
| Sequences.Choose | src/stores/store.js:48-53 | `filter(...).map(...)` as one function: never longer than its input (its contents are stated by `Sequences.ChooseSelects`) |
| DashboardStore.Filtered | src/stores/store.js:48-53 | the shared body of both filtered getters (also lines 57-62): never longer than the table, and empty when the table is empty |
| DashboardStore.YearValue | src/stores/store.js:52 | definition, no contract of its own: `+d[state.selectedYear]` (also at lines 61, 70 and 80), defined only on a row that has the year's column |
| DashboardStore.JoinYear | src/stores/store.js:76-81 | definition, no contract of its own: the per-row test of the join (the row has the year and its state has income that year) and the record it pushes; its effect is stated by `StoreProperties.CombinedIsInnerJoin` |
| DashboardStore.ProjectYear | src/stores/store.js:49-53 | definition, no contract of its own: the per-row filter test `selectedYear in d` and the `{state: d.State, value: +d[selectedYear]}` projection of both filtered getters (also lines 58-62); its effect is stated by `StoreProperties.FilteredKeepsYearRows` |
| DashboardStore.IncomeMatches | src/stores/store.js:69-70 | definition, no contract of its own: an income row writes a state's entry into the map when it has the year and its `State` is that state |
| DashboardStore.InitialState | src/stores/store.js:6-14 | definition, no contract of its own: the initial state record (year 2006, empty selection, brush and tables, no highlight); `DashboardStore.Store.constructor` and `StoreProperties.InitialViewsEmpty` state what follows from it |
| StoreProperties.FilteredKeepsYearRows | src/stores/store.js:48-53 | a filtered view keeps exactly the rows that have a column for the selected year, in table order; each output is that row's `State` cell with `+` of its year cell |
| Sequences.ChooseSelects | src/stores/store.js:57-62 | filter-then-map yields the mapped values at strictly increasing positions, and those positions are exactly the ones that pass the filter |
| Sequences.ChooseMonotone | src/stores/store.js:75-76 | a stricter filter never keeps more elements |
| Sequences.ChooseNothing | src/stores/store.js:75-76 | a filter that rejects every element keeps nothing |
| Cells.YearKey | src/stores/store.js:49 | the property key a year becomes under `in` is a canonical signed decimal numeral: a leading `-` exactly for negative years, then a non-empty run of digits with no leading zero unless it is `0` itself; with `Cells.YearKeyReadsBack` this fixes the key as the year's decimal string |
| Cells.HasYear | src/stores/store.js:49 | definition, no contract of its own: `selectedYear in d` is membership of the year's key among the row's columns (the same test at lines 58, 69 and 76) |
| Cells.StateOf | src/stores/store.js:51 | definition, no contract of its own: `d.State` is the row's `State` cell, or undefined (None) when the row has no such column |
| Cells.ToNum | src/stores/store.js:52 | definition, no contract of its own: unary `+` on cell text (also at lines 61, 70 and 80); its value on plain digits is stated by `Cells.DigitsToNum` |
| Wrappers.Lookup | src/stores/store.js:76-79 | definition, no contract of its own: `Map.has` is presence of the key and `Map.get` its value |
| DashboardStore.LastIncome | src/stores/store.js:67-72 | reference definition of the income map's entry for a state: when there is one, it is the year's figure of some income row of that state that has the year |
| DashboardStore.Combined | src/stores/store.js:64-86 | reference definition of the join: never longer than the education table, and empty when that table is empty |
| Cells.YearKeyReadsBack | src/stores/store.js:49 | the property key a year becomes under `in` is its decimal string, and reading it back with `+` gives the year |
| Cells.YearKeyInjective | src/stores/store.js:49 | two years test for the same column exactly when they are equal |
| Cells.NatDigits | src/stores/store.js:49 | the decimal digits of a natural number behind the `in` key: non-empty, all digits, no leading zero unless it is `0` |
| Cells.NatDigitsReadBack | src/stores/store.js:49 | the decimal digits of a natural number evaluate back to the number |
| Cells.DigitsToNum | src/stores/store.js:52 | `+` on a non-empty cell of plain digits gives its decimal value |
| DashboardStore.CombinedData | src/stores/store.js:64-86 | building the state-to-income map and scanning the education rows yields exactly the inner join `Combined` |
| StoreProperties.LastIncomeFound | src/stores/store.js:67-72 | the income map has a state exactly when some income row of that state has the selected year |
| StoreProperties.LastIncomeIsLast | src/stores/store.js:67-72 | the income mapped to a state comes from the last income row of that state with the year (last write wins) |
| StoreProperties.CombinedIsInnerJoin | src/stores/store.js:74-83 | each joined entry comes from an education row with the year, in education order, carrying that row's state and figure and its state's income; an education row is kept exactly when it has the year and some income row of its state does too |
| StoreProperties.CombinedBoundedByEducation | src/stores/store.js:74-85 | the joined view is never longer than the filtered education view |
| StoreProperties.CombinedNotBoundedByIncome | src/stores/store.js:74-85 | an education table that repeats a state makes the joined view longer than the filtered income view |
| StoreProperties.EmptyIncomeJoinsNothing | src/stores/store.js:67-83 | with no income rows nothing is joined, for every education table and year |
| StoreProperties.InitialViewsEmpty | src/stores/store.js:6-14 | in the initial state every derived view is empty |
| StoreProperties.CombinedScenario | src/stores/store.js:64-86 | an income row with 2006 and 2007 figures joins an education row with only a 2006 figure in 2006, and not in 2007 |
| DashboardStore.Store.constructor | src/stores/store.js:6-14 | initial state: year 2006, empty selection, brush and tables, no highlight; every derived view empty |
| DashboardStore.Store.ChangeSelectedYear | src/stores/store.js:32-34 | sets the selected year and changes no other field |
| DashboardStore.Store.ChangeSelectedState | src/stores/store.js:35-37 | appends the state to the selected states, duplicates included, and changes no other field |
| DashboardStore.Store.SetBrushedStates | src/stores/store.js:38-40 | replaces the brushed states wholesale and changes no other field |
| DashboardStore.Store.SetHighlightedState | src/stores/store.js:41-43 | sets the highlighted state (None clears it) and changes no other field |

## Left out

- `loadData` (src/stores/store.js:16-31): the three asynchronous fetches, console logging and the assignments after them. This is I/O. The tables appear in the model only as fields of the state.
- `geoData`: an opaque GeoJSON value that the store passes through and never inspects, so it is not a field of the model.
- The `!state.personaleIncome` / `!state.baDegreeOrHigher` guards (lines 47, 56, 65): the tables start as empty arrays and are only ever replaced by loaded arrays, so they are never null. The model's tables are sequences and the guards have no counterpart.
- `changeSelectedYear`: `parseInt` of an arbitrary value (NaN, partial parses, truncation of non-integers) is not modelled. The action takes an integer.
- `ToNum` models `+` on cell text for the empty string (0), an optional sign, digits and at most one decimal point. Surrounding whitespace, exponents, hexadecimal, `Infinity` and the other forms JavaScript accepts read as NaN in the model. Values are exact reals, not IEEE doubles, so `-0` and rounding are not modelled.
- SetBrushedStates: JavaScript stores a reference to the caller's array, so later changes to that array show in the store. The model copies the value, so that aliasing is not modelled.
- ChangeSelectedState: JavaScript pushes onto the selected-states array in place, so after `setBrushedStates(store.selectedStates)` one push changes both fields. The model's fields are values, and its postcondition keeps `brushedStates` unchanged; it holds only when the two fields do not share an array.
- ChangeSelectedYear: the year is an unbounded integer. JavaScript numbers are doubles: above 2^53 they round, and from 1e21 on their string form is exponential, so `parseInt` gives another number. The model assumes the year is a safe integer.
- YearKey: the decimal string of an unbounded integer. It is the key JavaScript's `in` uses only for safe integers below 1e21; the model assumes the year is one.
- Pinia reactivity and getter caching are not modelled. The getters are pure functions of the state, which is what they compute on each read.

## Bounds on the joined view

The joined view is not bounded by the filtered income view. The code emits one entry per matching education row, so an education table that repeats a state gives a longer join (`StoreProperties.CombinedNotBoundedByIncome`). Only the bound by the filtered education view holds (`StoreProperties.CombinedBoundedByEducation`).
