/**
 * The dashboard's figures: the three stat cards and the recent-workflows
 * panel (a spinner while loading, an empty-state message for an empty list,
 * otherwise the first five workflows in the order the store holds them).
 */
module Dashboard {
  import opened WorkflowSlice
  import opened WorkflowList

  const RecentCount: nat := 5
  const TeamMembers: string := "5"

  /** `workflows.filter(w => w.status === "active")`. */
  function ActiveOnly(ws: seq<WorkflowView>): (r: seq<WorkflowView>)
    ensures |r| <= |ws|
    ensures forall w :: w in r <==> w in ws && w.status == "active"
    ensures forall w :: multiset(r)[w] == if w.status == "active" then multiset(ws)[w] else 0
    decreases |ws|
  {
    if ws == [] then []
    else
      assert ws == [ws[0]] + ws[1..];
      (if ws[0].status == "active" then [ws[0]] else []) + ActiveOnly(ws[1..])
  }

  datatype StatValue = Count(n: nat) | Label(text: string)
  datatype Stat = Stat(name: string, value: StatValue)

  /** The three stat cards, in display order. */
  function Stats(ws: seq<WorkflowView>): (cards: seq<Stat>)
    ensures |cards| == 3
    ensures cards[0].name == "Total Workflows" && cards[1].name == "Active Workflows" && cards[2].name == "Team Members"
    ensures cards[0].value.Count? && cards[1].value.Count? && cards[1].value.n <= cards[0].value.n
  {
    [ Stat("Total Workflows", Count(|ws|)),
      Stat("Active Workflows", Count(|ActiveOnly(ws)|)),
      Stat("Team Members", Label(TeamMembers)) ]
  }

  /**
   * The active count never exceeds the total, equals the total exactly when
   * every workflow is active, and is the size of the list page's view
   * filtered to "active" with no search term.
   */
  lemma StatsAgree(ws: seq<WorkflowView>)
    ensures Stats(ws)[0].value == Count(|ws|)
    ensures Stats(ws)[1].value.n <= Stats(ws)[0].value.n
    ensures Stats(ws)[1].value.n == |ws| <==> forall i :: 0 <= i < |ws| ==> ws[i].status == "active"
    ensures Stats(ws)[1].value.n == |Filtered(ws, "", "active")|
    ensures Stats(ws)[2].value == Label("5")
  {
    ActiveAllIff(ws);
    ActiveIsStatusFilter(ws);
  }

  lemma {:induction false} ActiveAllIff(ws: seq<WorkflowView>)
    ensures |ActiveOnly(ws)| == |ws| <==> forall i :: 0 <= i < |ws| ==> ws[i].status == "active"
    decreases |ws|
  {
    if ws != [] {
      ActiveAllIff(ws[1..]);
      AllActiveSplit(ws);
    }
  }

  /** Every entry is active iff the first is and every later one is. */
  lemma AllActiveSplit(ws: seq<WorkflowView>)
    requires ws != []
    ensures (forall i :: 0 <= i < |ws| ==> ws[i].status == "active")
        <==> ws[0].status == "active" && forall i :: 0 <= i < |ws[1..]| ==> ws[1..][i].status == "active"
  {
    assert forall i :: 0 <= i < |ws[1..]| ==> ws[1..][i] == ws[i + 1];
  }

  /** Counting active entries agrees with the list page's status filter. */
  lemma {:induction false} ActiveIsStatusFilter(ws: seq<WorkflowView>)
    ensures ActiveOnly(ws) == Filtered(ws, "", "active")
    decreases |ws|
  {
    if ws != [] {
      EmptySearchMatchesAll(ws[0]);
      ActiveIsStatusFilter(ws[1..]);
    }
  }

  datatype RecentPanel = Spinner | EmptyState | RecentList(items: seq<WorkflowView>)

  function Min(a: nat, b: nat): nat {
    if a <= b then a else b
  }

  /** The recent-workflows panel for the store's loading flag and list. */
  function Recent(ws: seq<WorkflowView>, loading: bool): (p: RecentPanel)
    ensures p.Spinner? <==> loading
    ensures p.EmptyState? <==> !loading && ws == []
    ensures p.RecentList? ==> |p.items| == Min(RecentCount, |ws|) && p.items == ws[..|p.items|]
  {
    if loading then Spinner
    else if |ws| == 0 then EmptyState
    else RecentList(ws[..Min(RecentCount, |ws|)])
  }

  /** Creating a workflow with a list of fewer than five shows it last among the recent ones. */
  lemma CreatedShowsWhenFewerThanFive(s: State, w: WorkflowView)
    requires |s.workflows| < RecentCount
    ensures var t := Reduce(s, CreateFulfilled(w));
      Recent(t.workflows, t.loading) == RecentList(s.workflows + [w])
  {
  }
}
