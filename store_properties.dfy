/** What the store's views promise, stated against the raw tables. */
module StoreProperties {
  import opened Wrappers
  import opened Cells
  import opened Sequences
  import opened DashboardStore

  /**
   * A filtered view keeps exactly the rows that have a column for the year, in
   * table order, each reduced to its `State` cell and that year's figure.
   */
  lemma {:induction false} FilteredKeepsYearRows(rows: seq<Row>, year: int)
    ensures var r, idx := Filtered(rows, year), ChosenIndices(rows, ProjectYear(year));
      && |idx| == |r|
      && (forall k, l :: 0 <= k < l < |idx| ==> idx[k] < idx[l])
      && (forall k :: 0 <= k < |idx| ==>
            && idx[k] < |rows|
            && HasYear(rows[idx[k]], year)
            && r[k] == FilteredRecord(StateOf(rows[idx[k]]), YearValue(rows[idx[k]], year)))
      && (forall i :: 0 <= i < |rows| ==> (HasYear(rows[i], year) <==> i in idx))
  {
    var f := ProjectYear(year);
    ChooseSelects(rows, f);
    var r, idx := Filtered(rows, year), ChosenIndices(rows, f);
    forall k | 0 <= k < |idx|
      ensures HasYear(rows[idx[k]], year)
      ensures r[k] == FilteredRecord(StateOf(rows[idx[k]]), YearValue(rows[idx[k]], year))
    {
      assert f(rows[idx[k]]) == Some(r[k]);
    }
    forall i | 0 <= i < |rows|
      ensures HasYear(rows[i], year) <==> i in idx
    {
      assert f(rows[i]).Some? <==> HasYear(rows[i], year);
    }
  }

  /** `LastIncome` finds a figure exactly when some income row of the state has the year. */
  lemma {:induction false} LastIncomeFound(income: seq<Row>, state: Option<string>, year: int)
    ensures LastIncome(income, state, year).Some? <==>
            exists i :: 0 <= i < |income| && IncomeMatches(income[i], state, year)
    decreases |income|
  {
    if income != [] {
      var init := income[..|income| - 1];
      LastIncomeFound(init, state, year);
      assert forall i :: 0 <= i < |init| ==> init[i] == income[i];
      if exists i :: 0 <= i < |income| && IncomeMatches(income[i], state, year) {
        var i :| 0 <= i < |income| && IncomeMatches(income[i], state, year);
        if i < |init| {
          assert IncomeMatches(init[i], state, year);
        }
      }
    }
  }

  /** Last write wins: the figure is the one of the last matching income row. */
  lemma {:induction false} LastIncomeIsLast(income: seq<Row>, state: Option<string>, year: int, i: nat)
    requires i < |income| && IncomeMatches(income[i], state, year)
    requires forall j :: i < j < |income| ==> !IncomeMatches(income[j], state, year)
    ensures LastIncome(income, state, year) == Some(YearValue(income[i], year))
    decreases |income|
  {
    if i < |income| - 1 {
      var init := income[..|income| - 1];
      assert forall j :: 0 <= j < |init| ==> init[j] == income[j];
      LastIncomeIsLast(init, state, year, i);
    }
  }

  /**
   * The combined view is the inner join on the state: each entry comes from an
   * education row that has the year, in education-table order, carries that
   * row's figure and the income figure of its state, and an education row is
   * kept exactly when it has the year and some income row of its state has it.
   */
  lemma CombinedIsInnerJoin(income: seq<Row>, education: seq<Row>, year: int)
    ensures var r, idx := Combined(income, education, year), ChosenIndices(education, JoinYear(income, year));
      && |idx| == |r|
      && (forall k, l :: 0 <= k < l < |idx| ==> idx[k] < idx[l])
      && (forall k :: 0 <= k < |idx| ==>
            && idx[k] < |education|
            && HasYear(education[idx[k]], year)
            && r[k].state == StateOf(education[idx[k]])
            && r[k].education == YearValue(education[idx[k]], year)
            && LastIncome(income, r[k].state, year) == Some(r[k].income))
      && (forall i :: 0 <= i < |education| ==>
            (i in idx <==>
               HasYear(education[i], year) &&
               exists j :: 0 <= j < |income| && IncomeMatches(income[j], StateOf(education[i]), year)))
  {
    var f := JoinYear(income, year);
    ChooseSelects(education, f);
    var r, idx := Combined(income, education, year), ChosenIndices(education, f);
    forall k | 0 <= k < |idx|
      ensures HasYear(education[idx[k]], year)
      ensures r[k].state == StateOf(education[idx[k]])
      ensures r[k].education == YearValue(education[idx[k]], year)
      ensures LastIncome(income, r[k].state, year) == Some(r[k].income)
    {
      assert f(education[idx[k]]) == Some(r[k]);
    }
    forall i | 0 <= i < |education|
      ensures i in idx <==>
              HasYear(education[i], year) &&
              exists j :: 0 <= j < |income| && IncomeMatches(income[j], StateOf(education[i]), year)
    {
      LastIncomeFound(income, StateOf(education[i]), year);
      assert f(education[i]).Some? <==>
             HasYear(education[i], year) && LastIncome(income, StateOf(education[i]), year).Some?;
    }
  }

  /** The combined view is never longer than the filtered education view. */
  lemma CombinedBoundedByEducation(income: seq<Row>, education: seq<Row>, year: int)
    ensures |Combined(income, education, year)| <= |Filtered(education, year)|
  {
    var f, g := JoinYear(income, year), ProjectYear(year);
    forall i | 0 <= i < |education|
      ensures f(education[i]).Some? ==> g(education[i]).Some?
    {
    }
    ChooseMonotone(education, f, g);
  }

  /**
   * It can be longer than the filtered income view: an education table that
   * repeats a state joins each repeat with the same income row.
   */
  lemma CombinedNotBoundedByIncome()
    ensures var income := [map[StateColumn := "X", "2006" := "1"]];
            var education := [map[StateColumn := "X", "2006" := "2"], map[StateColumn := "X", "2006" := "3"]];
            |Combined(income, education, 2006)| == 2 && |Filtered(income, 2006)| == 1
  {
    var i0 := map[StateColumn := "X", "2006" := "1"];
    var e0, e1 := map[StateColumn := "X", "2006" := "2"], map[StateColumn := "X", "2006" := "3"];
    var income, education := [i0], [e0, e1];
    assert YearKey(2006) == "2006";
    assert HasYear(i0, 2006) && HasYear(e0, 2006) && HasYear(e1, 2006);
    assert StateOf(i0) == StateOf(e0) == StateOf(e1) == Some("X");
    assert LastIncome(income, Some("X"), 2006).Some?;
    var f := JoinYear(income, 2006);
    assert f(e0).Some? && f(e1).Some?;
    assert education[..1] == [e0] && [e0][..0] == [];
    assert |Choose([e0], f)| == 1;
    assert income[..0] == [];
  }

  /** With no income rows nothing is joined. */
  lemma EmptyIncomeJoinsNothing(education: seq<Row>, year: int)
    ensures Combined([], education, year) == []
  {
    var f := JoinYear([], year);
    forall i | 0 <= i < |education|
      ensures f(education[i]) == None
    {
      assert LastIncome([], StateOf(education[i]), year) == None;
    }
    ChooseNothing(education, f);
  }

  /** Before anything is loaded every derived view is empty. */
  lemma InitialViewsEmpty()
    ensures FilteredPersonaleIncome(InitialState) == []
    ensures FilteredBaDegreeOrHigher(InitialState) == []
    ensures Combined(InitialState.personaleIncome, InitialState.baDegreeOrHigher, InitialState.selectedYear) == []
  {
  }

  /**
   * An income row with figures for 2006 and 2007 and an education row with one
   * for 2006 only: they join in 2006 and not in 2007.
   */
  lemma CombinedScenario()
    ensures var income := [map[StateColumn := "X", "2006" := "100", "2007" := "200"]];
            var education := [map[StateColumn := "X", "2006" := "10"]];
            && Combined(income, education, 2006) == [CombinedRecord(Some("X"), Num(100.0), Num(10.0))]
            && Combined(income, education, 2007) == []
  {
    var i0 := map[StateColumn := "X", "2006" := "100", "2007" := "200"];
    var e0 := map[StateColumn := "X", "2006" := "10"];
    var income, education := [i0], [e0];
    assert YearKey(2006) == "2006" && YearKey(2007) == "2007";
    assert HasYear(i0, 2006) && HasYear(e0, 2006) && !HasYear(e0, 2007);
    assert StateOf(i0) == StateOf(e0) == Some("X");
    assert ToNum("100") == Num(100.0) by {
      assert "100"[..2] == "10" && "10"[..1] == "1" && "1"[..0] == "";
      DigitsToNum("100");
    }
    assert ToNum("10") == Num(10.0) by {
      assert "10"[..1] == "1" && "1"[..0] == "";
      DigitsToNum("10");
    }
    assert LastIncome(income, Some("X"), 2006) == Some(Num(100.0));
    assert JoinYear(income, 2006)(e0) == Some(CombinedRecord(Some("X"), Num(100.0), Num(10.0)));
    assert JoinYear(income, 2007)(e0) == None;
    assert education[..0] == [];
  }

  /**
   * Selection actions, as a chart would call them: selecting a state twice
   * lists it twice, a second brush replaces the first, None clears the
   * highlight. Setting the year it already has leaves the whole state, and so
   * every view, unchanged; that holds for any year, by ChangeSelectedYear's
   * postcondition, and is only exercised here for one.
   */
  method SelectionScenario()
  {
    var store := new Store();
    store.ChangeSelectedState("California");
    store.ChangeSelectedState("California");
    assert store.selectedStates == ["California", "California"];

    store.SetBrushedStates(["A", "B"]);
    store.SetBrushedStates(["C"]);
    assert store.brushedStates == ["C"];

    store.SetHighlightedState(Some("Ohio"));
    store.SetHighlightedState(None);
    assert store.highlightedState == None;

    store.ChangeSelectedYear(2010);
    var before := store.State();
    store.ChangeSelectedYear(2010);
    assert store.State() == before;
    assert store.selectedStates == ["California", "California"] && store.brushedStates == ["C"];
  }
}
