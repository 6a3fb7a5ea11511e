/** The admin module list: its rows are modules, each referring to its year; no search, no pages. */
module ModulesList {
  import opened Wrappers
  import opened ListView
  import opened Seqs

  /** `filteredModules`: no year filter returns the list itself, otherwise the modules of that year. */
  function FilteredModules(modules: seq<Row>, yearFilter: string): (r: seq<Row>)
    ensures yearFilter == "" ==> r == modules
    ensures |r| <= |modules|
    ensures forall k :: 0 <= k < |r| ==> yearFilter == "" || RefId(r[k].parent) == yearFilter
  {
    FilterByParent(modules, yearFilter)
  }

  /** `mod.year?._id || mod.year`. */
  function YearId(module_: Row): string {
    RefId(module_.parent)
  }

  /** The name link, the Edit button and the Open link of a module row. */
  datatype RowActions = RowActions(nameLink: bool, edit: bool, open: bool, delete: bool)

  /** Edit, Open and the name link need a year id; Delete is always there. */
  function ActionsOf(module_: Row): (a: RowActions)
    ensures a.nameLink == a.edit == a.open == (YearId(module_) != "")
    ensures a.delete
  {
    var linked := YearId(module_) != "";
    RowActions(linked, linked, linked, true)
  }

  /** What the list shows when no module is left after filtering. */
  datatype EmptyState = NoModulesInYear | NoModulesYet

  /**
   * The empty-state message and action: "No modules in this year" with a clear-filter
   * button under a filter, "No modules yet" with a link to Programs otherwise.
   */
  function EmptyStateOf(modules: seq<Row>, yearFilter: string): (e: Option<EmptyState>)
    ensures e.Some? <==> |FilteredModules(modules, yearFilter)| == 0
    ensures e.Some? ==> (e.value == NoModulesInYear <==> yearFilter != "")
  {
    if |FilteredModules(modules, yearFilter)| != 0 then None
    else if yearFilter != "" then Some(NoModulesInYear)
    else Some(NoModulesYet)
  }

  /**
   * The empty state shows exactly when no module is listed: under a year filter, when no
   * module belongs to that year; without one, when there is no module at all.
   */
  lemma EmptyStateIffNoModuleShown(modules: seq<Row>, yearFilter: string)
    ensures EmptyStateOf(modules, yearFilter).Some? <==>
              forall k :: 0 <= k < |modules| ==> yearFilter != "" && YearId(modules[k]) != yearFilter
  {
    var r := FilteredModules(modules, yearFilter);
    if |r| != 0 {
      if yearFilter != "" {
        FilterByParentSpec(modules, yearFilter, r[0]);
        assert r[0] in multiset(r);
        var k :| 0 <= k < |modules| && modules[k] == r[0];
        assert YearId(modules[k]) == yearFilter;
      }
    } else if yearFilter != "" {
      forall k | 0 <= k < |modules|
        ensures YearId(modules[k]) != yearFilter
      {
        FilterByParentSpec(modules, yearFilter, modules[k]);
        assert modules[k] in multiset(modules);
      }
    }
  }
}
