/**
 * The list page's client-side filter over the fetched workflows: a
 * case-insensitive search on name or description, and a status filter where
 * "all" passes everything. Also the status badge the list and the dashboard
 * draw beside each entry.
 */
module WorkflowList {
  import opened Wrappers
  import opened Text
  import opened WorkflowSlice

  const AllStatuses: string := "all"

  /** The name contains the term, or a present description does (ignoring case). */
  predicate MatchesSearch(w: WorkflowView, term: string) {
    ContainsIgnoreCase(w.name, term)
    || (w.description.Some? && ContainsIgnoreCase(w.description.value, term))
  }

  predicate MatchesStatus(w: WorkflowView, statusFilter: string) {
    statusFilter == AllStatuses || w.status == statusFilter
  }

  predicate Kept(w: WorkflowView, term: string, statusFilter: string) {
    MatchesSearch(w, term) && MatchesStatus(w, statusFilter)
  }

  /** `a` is `b` with some entries dropped, the rest in their original order. */
  predicate Subsequence(a: seq<WorkflowView>, b: seq<WorkflowView>)
    decreases |b|
  {
    a == [] || (b != [] && ((a[0] == b[0] && Subsequence(a[1..], b[1..])) || Subsequence(a, b[1..])))
  }

  /** `filteredWorkflows`. */
  function Filtered(ws: seq<WorkflowView>, term: string, statusFilter: string): (r: seq<WorkflowView>)
    ensures Subsequence(r, ws)
    ensures |r| <= |ws|
    ensures forall w :: w in r <==> w in ws && Kept(w, term, statusFilter)
    ensures forall w :: multiset(r)[w] == if Kept(w, term, statusFilter) then multiset(ws)[w] else 0
    decreases |ws|
  {
    if ws == [] then []
    else
      assert ws == [ws[0]] + ws[1..];
      var rest := Filtered(ws[1..], term, statusFilter);
      if Kept(ws[0], term, statusFilter) then
        assert ([ws[0]] + rest)[1..] == rest;
        [ws[0]] + rest
      else rest
  }

  /** The empty search term matches every workflow. */
  lemma EmptySearchMatchesAll(w: WorkflowView)
    ensures MatchesSearch(w, "")
  {
    assert Lower("") == "";
    ContainsEmpty(Lower(w.name));
  }

  /** With no search term and "all" selected, the list is shown unfiltered. */
  lemma {:induction false} NoFiltersShowAll(ws: seq<WorkflowView>)
    ensures Filtered(ws, "", AllStatuses) == ws
    decreases |ws|
  {
    if ws != [] {
      EmptySearchMatchesAll(ws[0]);
      NoFiltersShowAll(ws[1..]);
    }
  }

  /** A status other than "all" keeps exactly the workflows with that status. */
  lemma StatusFilterExact(w: WorkflowView, statusFilter: string)
    requires statusFilter != AllStatuses
    ensures MatchesStatus(w, statusFilter) <==> w.status == statusFilter
  {
  }

  /** A workflow without a description can match the search only by its name. */
  lemma NoDescriptionNameOnly(w: WorkflowView, term: string)
    requires w.description.None?
    ensures MatchesSearch(w, term) <==> ContainsIgnoreCase(w.name, term)
  {
  }

  /** The search ignores case: an upper-case term finds a lower-case name. */
  lemma SearchIgnoresCase()
    ensures MatchesSearch(WorkflowView("id1", "onboarding", None, "draft", []), "BOARD")
  {
    var name := "onboarding";
    assert Lower(name) == name;
    assert Lower("BOARD") == "board";
    assert StartsWith(name[2..], "board");
    assert Contains(name[2..], "board");
    assert Contains(name[1..], "board");
  }

  /** The colour of the status badge in the list and on the dashboard. */
  function BadgeClass(status: string): (c: string)
    ensures status == "active" <==> c == "bg-green-100 text-green-800"
    ensures status == "inactive" <==> c == "bg-red-100 text-red-800"
    ensures status != "active" && status != "inactive" <==> c == "bg-yellow-100 text-yellow-800"
  {
    if status == "active" then "bg-green-100 text-green-800"
    else if status == "inactive" then "bg-red-100 text-red-800"
    else "bg-yellow-100 text-yellow-800"
  }
}
