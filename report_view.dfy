/** The report screen's expansion and sort state, updated in place as the
    user clicks. Fetches are synchronous here: each toggle receives the
    response it would have awaited and says whether it asked for one. */
module ReportView {
  import opened Common
  import opened Names
  import opened StableSort
  import opened Catches
  import opened ReportRows

  /** `activeTab`: the two tabs with expandable process rows, and the rest. */
  datatype Tab = ProductionTab | PendingTab | OtherTab

  /** The process ids of a table, in row order. */
  function KeySeq(rows: seq<ProcessRow>): (r: seq<ProcessKey>)
    ensures |r| == |rows|
    ensures forall i :: 0 <= i < |rows| ==> r[i] == rows[i].key
  {
    seq(|rows|, i requires 0 <= i < |rows| => rows[i].key)
  }

  /** `new Set(rows.map(p => p.processId))` */
  function KeySet(rows: seq<ProcessRow>): set<ProcessKey>
  {
    var ks := KeySeq(rows);
    set k | k in ks
  }

  /** The set holds exactly the ids of the rows. */
  lemma KeySetMembers(rows: seq<ProcessRow>)
    ensures forall k :: k in KeySet(rows) <==> exists i :: 0 <= i < |rows| && rows[i].key == k
  {
    var ks := KeySeq(rows);
    forall k | k in KeySet(rows)
      ensures exists i :: 0 <= i < |rows| && rows[i].key == k
    {
      var i :| 0 <= i < |ks| && ks[i] == k;
    }
    forall k, i | 0 <= i < |rows| && rows[i].key == k
      ensures k in KeySet(rows)
    {
      assert ks[i] == k;
    }
  }

  predicate HasKey(key: ProcessKey, r: ProcessRow)
  {
    r.key == key
  }

  predicate NotLoaded(r: ProcessRow)
  {
    !r.projectsLoaded
  }

  predicate NotTotal(r: ProcessRow)
  {
    !r.isTotal
  }

  predicate PendingToLoad(r: ProcessRow)
  {
    !r.isTotal && !r.projectsLoaded
  }

  /** `rows.find(p => p.processId === key)` exists and has no projects yet. */
  predicate NeedsProjects(rows: seq<ProcessRow>, key: ProcessKey)
  {
    var hits := Select(rows, (r: ProcessRow) => HasKey(key, r));
    hits != [] && !hits[0].projectsLoaded
  }

  /** The response a load of `key` would receive; a missing entry is a
      failed request. */
  function Answer(responses: map<ProcessKey, Option<seq<ProjectItem>>>, key: ProcessKey): Option<seq<ProjectItem>>
  {
    if key in responses then responses[key] else None
  }

  /** The response for `key` carries projects. */
  predicate Answered(responses: map<ProcessKey, Option<seq<ProjectItem>>>, key: ProcessKey)
  {
    key in responses && responses[key].Some? && responses[key].value != []
  }

  /** What loading every process of `toLoad` leaves behind: a row is
      loaded when its process was asked for and answered with projects,
      and is otherwise left alone. */
  function LoadedAll(rows: seq<ProcessRow>, toLoad: seq<ProcessRow>, responses: map<ProcessKey, Option<seq<ProjectItem>>>,
                     mapping: map<int, Raw>, pending: bool): (r: seq<ProcessRow>)
    ensures |r| == |rows|
  {
    seq(|rows|, i requires 0 <= i < |rows| =>
      if rows[i].key in KeySeq(toLoad) && Answered(responses, rows[i].key)
      then Loaded(rows[i], responses[rows[i].key].value, mapping, pending)
      else rows[i])
  }

  /** `Promise.all(toLoad.map(p => load(p.processId)))`, with the loads
      applied one after another. */
  method LoadAll(rows: seq<ProcessRow>, toLoad: seq<ProcessRow>, responses: map<ProcessKey, Option<seq<ProjectItem>>>,
                 mapping: map<int, Raw>, pending: bool) returns (out: seq<ProcessRow>)
    ensures out == LoadedAll(rows, toLoad, responses, mapping, pending)
  {
    out := rows;
    var k := 0;
    while k < |toLoad|
      invariant 0 <= k <= |toLoad| && |out| == |rows|
      invariant forall i :: 0 <= i < |rows| ==>
                  out[i] == if rows[i].key in KeySeq(toLoad[..k]) && Answered(responses, rows[i].key)
                            then Loaded(rows[i], responses[rows[i].key].value, mapping, pending)
                            else rows[i]
    {
      var key := toLoad[k].key;
      assert KeySeq(toLoad[..k + 1]) == KeySeq(toLoad[..k]) + [key];
      out := WithProjects(out, key, Answer(responses, key), mapping, pending);
      k := k + 1;
    }
    assert toLoad[..k] == toLoad;
    assert out == LoadedAll(rows, toLoad, responses, mapping, pending);
  }

  /** Expanding all on a tab leaves every row loaded unless its process's
      request brought no projects; rows loaded before keep their projects. */
  lemma ExpandAllLoads(rows: seq<ProcessRow>, responses: map<ProcessKey, Option<seq<ProjectItem>>>,
                       mapping: map<int, Raw>, pending: bool)
    ensures var out := LoadedAll(rows, Select(rows, NotLoaded), responses, mapping, pending);
            forall i :: 0 <= i < |rows| ==>
              && (out[i].projectsLoaded || !Answered(responses, rows[i].key))
              && (rows[i].projectsLoaded && rows[i].key !in KeySeq(Select(rows, NotLoaded)) ==> out[i] == rows[i])
  {
    var toLoad := Select(rows, NotLoaded);
    forall i | 0 <= i < |rows| && !rows[i].projectsLoaded
      ensures rows[i].key in KeySeq(toLoad)
    {
      SelectContains(rows, NotLoaded, i);
      var j :| 0 <= j < |toLoad| && toLoad[j] == rows[i];
      assert KeySeq(toLoad)[j] == rows[i].key;
    }
  }

  /** The column and direction after a click on a sort header: the active
      column flips its direction, another column becomes active ascending. */
  function NextSort(column: Column, direction: Direction, clicked: Column): (r: (Column, Direction))
    ensures r.0 == clicked
  {
    if column == clicked then (clicked, if direction == Asc then Desc else Asc) else (clicked, Asc)
  }

  /** Clicking the active header twice restores the order; the first click
      on a new header sorts ascending and the second descending. */
  lemma NextSortCycle(column: Column, direction: Direction, clicked: Column)
    ensures var once := NextSort(column, direction, clicked);
            var twice := NextSort(once.0, once.1, clicked);
            && (column == clicked ==> once.1 != direction && twice == (column, direction))
            && (column != clicked ==> once == (clicked, Asc) && twice == (clicked, Desc))
  {
  }

  class ReportState {
    var activeTab: Tab
    /** `processProductionDetailsData` */
    var detailsRows: seq<ProcessRow>
    /** `pendingData` */
    var pendingRows: seq<ProcessRow>
    var expandedProcesses: set<ProcessKey>
    var expandAllProcesses: bool
    /** `expandedGroupProjects`: process id to the set of expanded group ids. */
    var expandedGroupProjects: map<ProcessKey, set<int>>
    /** `groupProjectDetails`: process id to group id to fetched projects. */
    var groupProjectDetails: map<ProcessKey, map<int, seq<ProjectItem>>>
    var pendingSortColumn: Column
    var pendingSortDirection: Direction
    var expandedPendingProcessIds: set<ProcessKey>
    var expandAllPendingProcesses: bool
    /** `allProcessCatchDetails`: process id to its catch records. */
    var allProcessCatchDetails: map<ProcessKey, seq<CatchDetail>>

    /** The initial state: the production tab, nothing loaded or expanded,
        pending catches sorted by quantity, highest first. */
    constructor()
      ensures activeTab == ProductionTab && detailsRows == [] && pendingRows == []
      ensures expandedProcesses == {} && !expandAllProcesses
      ensures expandedGroupProjects == map[] && groupProjectDetails == map[]
      ensures pendingSortColumn == ByQuantity && pendingSortDirection == Desc
      ensures expandedPendingProcessIds == {} && !expandAllPendingProcesses && allProcessCatchDetails == map[]
    {
      activeTab := ProductionTab;
      detailsRows := [];
      pendingRows := [];
      expandedProcesses := {};
      expandAllProcesses := false;
      expandedGroupProjects := map[];
      groupProjectDetails := map[];
      pendingSortColumn := ByQuantity;
      pendingSortDirection := Desc;
      expandedPendingProcessIds := {};
      expandAllPendingProcesses := false;
      allProcessCatchDetails := map[];
    }

    /** `toggleProcessExpansion(key)`: flips the membership of `key`; when
        expanding on a tab with process rows whose first row for `key` has
        no projects yet, loads them with `response`. */
    method ToggleProcessExpansion(key: ProcessKey, response: Option<seq<ProjectItem>>, mapping: map<int, Raw>)
      returns (fetched: bool)
      modifies this
      ensures expandedProcesses == if key in old(expandedProcesses) then old(expandedProcesses) - {key}
                                   else old(expandedProcesses) + {key}
      ensures fetched <==> key !in old(expandedProcesses) &&
                           ((activeTab == ProductionTab && NeedsProjects(old(detailsRows), key)) ||
                            (activeTab == PendingTab && NeedsProjects(old(pendingRows), key)))
      ensures detailsRows == if fetched && activeTab == ProductionTab
                             then WithProjects(old(detailsRows), key, response, mapping, false) else old(detailsRows)
      ensures pendingRows == if fetched && activeTab == PendingTab
                             then WithProjects(old(pendingRows), key, response, mapping, true) else old(pendingRows)
      ensures activeTab == old(activeTab) && expandAllProcesses == old(expandAllProcesses)
      ensures expandedGroupProjects == old(expandedGroupProjects) && groupProjectDetails == old(groupProjectDetails)
      ensures pendingSortColumn == old(pendingSortColumn) && pendingSortDirection == old(pendingSortDirection)
      ensures expandedPendingProcessIds == old(expandedPendingProcessIds)
      ensures expandAllPendingProcesses == old(expandAllPendingProcesses)
      ensures allProcessCatchDetails == old(allProcessCatchDetails)
    {
      var newExpanded := expandedProcesses;
      fetched := false;
      if key in newExpanded {
        newExpanded := newExpanded - {key};
      } else {
        newExpanded := newExpanded + {key};
        if activeTab == ProductionTab {
          var processData := FindFirst(detailsRows, (r: ProcessRow) => HasKey(key, r));
          if processData.Some? && !processData.value.projectsLoaded {
            detailsRows := WithProjects(detailsRows, key, response, mapping, false);
            fetched := true;
          }
        } else if activeTab == PendingTab {
          var processData := FindFirst(pendingRows, (r: ProcessRow) => HasKey(key, r));
          if processData.Some? && !processData.value.projectsLoaded {
            pendingRows := WithProjects(pendingRows, key, response, mapping, true);
            fetched := true;
          }
        }
      }
      expandedProcesses := newExpanded;
    }

    /** `toggleExpandAllProcesses()`: collapses everything when all are
        expanded; otherwise expands every process of the active tab (the
        non-Total ones on the pending tab) and loads those without
        projects. Another tab changes nothing. */
    method ToggleExpandAllProcesses(responses: map<ProcessKey, Option<seq<ProjectItem>>>, mapping: map<int, Raw>)
      modifies this
      ensures old(expandAllProcesses) ==>
                expandedProcesses == {} && !expandAllProcesses &&
                detailsRows == old(detailsRows) && pendingRows == old(pendingRows)
      ensures !old(expandAllProcesses) && activeTab == ProductionTab ==>
                && expandedProcesses == KeySet(old(detailsRows)) && expandAllProcesses
                && pendingRows == old(pendingRows)
                && detailsRows == LoadedAll(old(detailsRows), Select(old(detailsRows), NotLoaded), responses, mapping, false)
      ensures !old(expandAllProcesses) && activeTab == PendingTab ==>
                && expandedProcesses == KeySet(Select(old(pendingRows), NotTotal)) && expandAllProcesses
                && detailsRows == old(detailsRows)
                && pendingRows == LoadedAll(old(pendingRows), Select(old(pendingRows), PendingToLoad), responses, mapping, true)
      ensures !old(expandAllProcesses) && activeTab == OtherTab ==>
                expandedProcesses == old(expandedProcesses) && expandAllProcesses == old(expandAllProcesses) &&
                detailsRows == old(detailsRows) && pendingRows == old(pendingRows)
      ensures activeTab == old(activeTab)
      ensures expandedGroupProjects == old(expandedGroupProjects) && groupProjectDetails == old(groupProjectDetails)
      ensures pendingSortColumn == old(pendingSortColumn) && pendingSortDirection == old(pendingSortDirection)
      ensures expandedPendingProcessIds == old(expandedPendingProcessIds)
      ensures expandAllPendingProcesses == old(expandAllPendingProcesses)
      ensures allProcessCatchDetails == old(allProcessCatchDetails)
    {
      if expandAllProcesses {
        expandedProcesses := {};
        expandAllProcesses := false;
      } else if activeTab == ProductionTab {
        var rows := detailsRows;
        var processesToLoad := Select(rows, NotLoaded);
        var loaded := LoadAll(rows, processesToLoad, responses, mapping, false);
        expandedProcesses := KeySet(rows);
        expandAllProcesses := true;
        detailsRows := loaded;
      } else if activeTab == PendingTab {
        var rows := pendingRows;
        var processesToLoad := Select(rows, PendingToLoad);
        var loaded := LoadAll(rows, processesToLoad, responses, mapping, true);
        expandedProcesses := KeySet(Select(rows, NotTotal));
        expandAllProcesses := true;
        pendingRows := loaded;
      }
    }

    /** `fetchProjectsForGroup(pid, gid)`: an array response is cached under
        the process and group; anything else leaves the cache alone. */
    method FetchProjectsForGroup(pid: ProcessKey, gid: int, response: Option<seq<ProjectItem>>)
      modifies this
      ensures response.None? ==> groupProjectDetails == old(groupProjectDetails)
      ensures response.Some? ==>
                var before := if pid in old(groupProjectDetails) then old(groupProjectDetails)[pid] else map[];
                groupProjectDetails == old(groupProjectDetails)[pid := before[gid := response.value]]
      ensures activeTab == old(activeTab) && detailsRows == old(detailsRows) && pendingRows == old(pendingRows)
      ensures expandedProcesses == old(expandedProcesses) && expandAllProcesses == old(expandAllProcesses)
      ensures expandedGroupProjects == old(expandedGroupProjects)
      ensures pendingSortColumn == old(pendingSortColumn) && pendingSortDirection == old(pendingSortDirection)
      ensures expandedPendingProcessIds == old(expandedPendingProcessIds)
      ensures expandAllPendingProcesses == old(expandAllPendingProcesses)
      ensures allProcessCatchDetails == old(allProcessCatchDetails)
    {
      if response.Some? {
        var before := if pid in groupProjectDetails then groupProjectDetails[pid] else map[];
        groupProjectDetails := groupProjectDetails[pid := before[gid := response.value]];
      }
    }

    /** `toggleGroupProjectExpansion(pid, gid)`: flips `gid` in the set of
        `pid` (an absent set counts as empty) and touches no other process's
        set; expanding fetches unless projects for that group are cached,
        an empty cached list included. */
    method ToggleGroupProjectExpansion(pid: ProcessKey, gid: int, response: Option<seq<ProjectItem>>)
      returns (fetched: bool)
      modifies this
      ensures var before := if pid in old(expandedGroupProjects) then old(expandedGroupProjects)[pid] else {};
              && pid in expandedGroupProjects
              && expandedGroupProjects[pid] == (if gid in before then before - {gid} else before + {gid})
              && fetched == (gid !in before && !(pid in old(groupProjectDetails) && gid in old(groupProjectDetails)[pid]))
      ensures forall k :: k != pid ==>
                (k in expandedGroupProjects <==> k in old(expandedGroupProjects)) &&
                (k in expandedGroupProjects ==> expandedGroupProjects[k] == old(expandedGroupProjects)[k])
      ensures fetched && response.Some? ==>
                var cached := if pid in old(groupProjectDetails) then old(groupProjectDetails)[pid] else map[];
                groupProjectDetails == old(groupProjectDetails)[pid := cached[gid := response.value]]
      ensures !fetched || response.None? ==> groupProjectDetails == old(groupProjectDetails)
      ensures activeTab == old(activeTab) && detailsRows == old(detailsRows) && pendingRows == old(pendingRows)
      ensures expandedProcesses == old(expandedProcesses) && expandAllProcesses == old(expandAllProcesses)
      ensures pendingSortColumn == old(pendingSortColumn) && pendingSortDirection == old(pendingSortDirection)
      ensures expandedPendingProcessIds == old(expandedPendingProcessIds)
      ensures expandAllPendingProcesses == old(expandAllPendingProcesses)
      ensures allProcessCatchDetails == old(allProcessCatchDetails)
    {
      var processGroups := if pid in expandedGroupProjects then expandedGroupProjects[pid] else {};
      fetched := false;
      if gid in processGroups {
        processGroups := processGroups - {gid};
      } else {
        processGroups := processGroups + {gid};
        if pid !in groupProjectDetails || gid !in groupProjectDetails[pid] {
          FetchProjectsForGroup(pid, gid, response);
          fetched := true;
        }
      }
      expandedGroupProjects := expandedGroupProjects[pid := processGroups];
    }

    /** A click on the Catch or Quantity header of the pending table. */
    method ClickSortHeader(clicked: Column)
      modifies this
      ensures (pendingSortColumn, pendingSortDirection) == NextSort(old(pendingSortColumn), old(pendingSortDirection), clicked)
      ensures activeTab == old(activeTab) && detailsRows == old(detailsRows) && pendingRows == old(pendingRows)
      ensures expandedProcesses == old(expandedProcesses) && expandAllProcesses == old(expandAllProcesses)
      ensures expandedGroupProjects == old(expandedGroupProjects) && groupProjectDetails == old(groupProjectDetails)
      ensures expandedPendingProcessIds == old(expandedPendingProcessIds)
      ensures expandAllPendingProcesses == old(expandAllPendingProcesses)
      ensures allProcessCatchDetails == old(allProcessCatchDetails)
    {
      if pendingSortColumn == clicked {
        pendingSortDirection := if pendingSortDirection == Asc then Desc else Asc;
      } else {
        pendingSortColumn := clicked;
        pendingSortDirection := Asc;
      }
    }

    /** `handleTabChange(tabKey)`: the new tab starts with no production or
        pending data and no expanded process rows. */
    method HandleTabChange(tab: Tab)
      modifies this
      ensures activeTab == tab && detailsRows == [] && pendingRows == []
      ensures expandedProcesses == {} && !expandAllProcesses
      ensures expandedGroupProjects == old(expandedGroupProjects) && groupProjectDetails == old(groupProjectDetails)
      ensures pendingSortColumn == old(pendingSortColumn) && pendingSortDirection == old(pendingSortDirection)
      ensures expandedPendingProcessIds == old(expandedPendingProcessIds)
      ensures expandAllPendingProcesses == old(expandAllPendingProcesses)
      ensures allProcessCatchDetails == old(allProcessCatchDetails)
    {
      activeTab := tab;
      detailsRows := [];
      pendingRows := [];
      expandedProcesses := {};
      expandAllProcesses := false;
    }

    /** The effect of changing the group, project or lot filter: pending
        data and its expansions are cleared and the sort returns to
        quantity, highest first. */
    method ResetPendingFilters()
      modifies this
      ensures pendingRows == [] && expandedPendingProcessIds == {} && !expandAllPendingProcesses
      ensures allProcessCatchDetails == map[]
      ensures pendingSortColumn == ByQuantity && pendingSortDirection == Desc
      ensures activeTab == old(activeTab) && detailsRows == old(detailsRows)
      ensures expandedProcesses == old(expandedProcesses) && expandAllProcesses == old(expandAllProcesses)
      ensures expandedGroupProjects == old(expandedGroupProjects) && groupProjectDetails == old(groupProjectDetails)
    {
      pendingRows := [];
      expandedPendingProcessIds := {};
      expandAllPendingProcesses := false;
      allProcessCatchDetails := map[];
      pendingSortColumn := ByQuantity;
      pendingSortDirection := Desc;
    }
  }
}
