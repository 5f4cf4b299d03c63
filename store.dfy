/**
 * The dashboard's state container: the selection made in the charts and the
 * two loaded tables (personal income and bachelor's-degree attainment by US
 * state), with the views the charts read, all computed from that state.
 */
module DashboardStore {
  import opened Wrappers
  import opened Cells
  import opened Sequences

  /** One table reduced to the selected year. */
  datatype FilteredRecord = FilteredRecord(state: Option<string>, value: Number)

  /** A state's income and education figures for the selected year. */
  datatype CombinedRecord = CombinedRecord(state: Option<string>, income: Number, education: Number)

  /** Every field of the store. */
  datatype StoreState = StoreState(
    selectedYear: int,
    selectedStates: seq<string>,
    brushedStates: seq<string>,
    highlightedState: Option<string>,
    personaleIncome: seq<Row>,
    baDegreeOrHigher: seq<Row>)

  /** The store before anything is loaded or selected. */
  const InitialState := StoreState(2006, [], [], None, [], [])

  /** The figure a row holds for `year`, as a number. */
  function YearValue(row: Row, year: int): Number
    requires HasYear(row, year)
  {
    ToNum(row[YearKey(year)])
  }

  // ---------------------------------------------------------------------------
  // Year-filtered views

  /** Keep a row that has the year, and reduce it to its state and that year's figure. */
  function ProjectYear(year: int): Row -> Option<FilteredRecord>
  {
    row => if HasYear(row, year) then Some(FilteredRecord(StateOf(row), YearValue(row, year))) else None
  }

  function Filtered(rows: seq<Row>, year: int): (r: seq<FilteredRecord>)
    ensures |r| <= |rows|
    ensures rows == [] ==> r == []
  {
    Choose(rows, ProjectYear(year))
  }

  /** The income table reduced to the selected year. */
  function FilteredPersonaleIncome(st: StoreState): (r: seq<FilteredRecord>)
    ensures |r| <= |st.personaleIncome|
    ensures st.personaleIncome == [] ==> r == []
  {
    Filtered(st.personaleIncome, st.selectedYear)
  }

  /** The education table reduced to the selected year. */
  function FilteredBaDegreeOrHigher(st: StoreState): (r: seq<FilteredRecord>)
    ensures |r| <= |st.baDegreeOrHigher|
    ensures st.baDegreeOrHigher == [] ==> r == []
  {
    Filtered(st.baDegreeOrHigher, st.selectedYear)
  }

  // ---------------------------------------------------------------------------
  // The income-education join

  /** The income row has the year and belongs to `state`. */
  predicate IncomeMatches(row: Row, state: Option<string>, year: int)
  {
    HasYear(row, year) && StateOf(row) == state
  }

  /** The year's income figure from the last income row of `state` that has the year. */
  function LastIncome(income: seq<Row>, state: Option<string>, year: int): (r: Option<Number>)
    ensures r.Some? ==>
      exists i :: 0 <= i < |income| && IncomeMatches(income[i], state, year) && r.value == YearValue(income[i], year)
    decreases |income|
  {
    if income == [] then None
    else
      var init, last := income[..|income| - 1], income[|income| - 1];
      if IncomeMatches(last, state, year) then Some(YearValue(last, year))
      else
        assert forall i :: 0 <= i < |init| ==> init[i] == income[i];
        LastIncome(init, state, year)
  }

  /** Keep an education row that has the year and whose state has income that year. */
  function JoinYear(income: seq<Row>, year: int): Row -> Option<CombinedRecord>
  {
    row =>
      if HasYear(row, year) then
        match LastIncome(income, StateOf(row), year)
        case Some(v) => Some(CombinedRecord(StateOf(row), v, YearValue(row, year)))
        case None => None
      else None
  }

  /** The inner join of the two tables on the state, in education-table order. */
  function Combined(income: seq<Row>, education: seq<Row>, year: int): (r: seq<CombinedRecord>)
    ensures |r| <= |education|
    ensures education == [] ==> r == []
  {
    Choose(education, JoinYear(income, year))
  }

  /**
   * The combined view, computed as the store does: a map from state to income
   * (later rows overwrite earlier ones), then one pass over the education rows.
   */
  method CombinedData(st: StoreState) returns (combined: seq<CombinedRecord>)
    ensures combined == Combined(st.personaleIncome, st.baDegreeOrHigher, st.selectedYear)
  {
    var year, income, education := st.selectedYear, st.personaleIncome, st.baDegreeOrHigher;
    var incomeMap: map<Option<string>, Number> := map[];
    for i := 0 to |income|
      invariant forall s :: Lookup(incomeMap, s) == LastIncome(income[..i], s, year)
    {
      var d := income[i];
      if HasYear(d, year) {
        incomeMap := incomeMap[StateOf(d) := YearValue(d, year)];
      }
      assert income[..i + 1][..i] == income[..i];
    }
    assert income[..|income|] == income;

    combined := [];
    for i := 0 to |education|
      invariant combined == Combined(income, education[..i], year)
    {
      var d := education[i];
      assert Lookup(incomeMap, StateOf(d)) == LastIncome(income, StateOf(d), year);
      if HasYear(d, year) && StateOf(d) in incomeMap {
        combined := combined + [CombinedRecord(StateOf(d), incomeMap[StateOf(d)], YearValue(d, year))];
      }
      assert education[..i + 1][..i] == education[..i];
    }
    assert education[..|education|] == education;
  }

  // ---------------------------------------------------------------------------
  // The store object and its actions

  class Store {
    var selectedYear: int
    var selectedStates: seq<string>
    var brushedStates: seq<string>
    var highlightedState: Option<string>
    var personaleIncome: seq<Row>
    var baDegreeOrHigher: seq<Row>

    function State(): StoreState
      reads this
    {
      StoreState(selectedYear, selectedStates, brushedStates, highlightedState, personaleIncome, baDegreeOrHigher)
    }

    constructor ()
      ensures State() == InitialState
      ensures FilteredPersonaleIncome(State()) == [] && FilteredBaDegreeOrHigher(State()) == []
      ensures Combined(personaleIncome, baDegreeOrHigher, selectedYear) == []
    {
      selectedYear := 2006;
      selectedStates := [];
      brushedStates := [];
      highlightedState := None;
      personaleIncome := [];
      baDegreeOrHigher := [];
    }

    method ChangeSelectedYear(year: int)
      modifies this
      ensures State() == old(State()).(selectedYear := year)
    {
      selectedYear := year;
    }

    /** Appends, duplicates included. */
    method ChangeSelectedState(state: string)
      modifies this
      ensures State() == old(State()).(selectedStates := old(selectedStates) + [state])
    {
      selectedStates := selectedStates + [state];
    }

    /** Replaces the brushed states wholesale. */
    method SetBrushedStates(states: seq<string>)
      modifies this
      ensures State() == old(State()).(brushedStates := states)
    {
      brushedStates := states;
    }

    /** Sets the highlighted state; None clears it. */
    method SetHighlightedState(state: Option<string>)
      modifies this
      ensures State() == old(State()).(highlightedState := state)
    {
      highlightedState := state;
    }
  }
}
