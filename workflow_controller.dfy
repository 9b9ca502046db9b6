/**
 * The workflow handlers: `createWorkflow` over a workflow store, and
 * `getWorkflows` as a query over the stored workflows (owner filter, optional
 * case-insensitive search, optional status filter, newest first, skip/limit
 * pagination and the page count).
 */
module WorkflowController {
  import opened Wrappers
  import opened Text
  import opened AuthMiddleware
  import opened WorkflowModel

  /** A request body: the schema paths it sets, and the names of any other keys it carries. */
  datatype Body = Body(fields: WorkflowInput, otherKeys: set<string>)

  function Keys(b: Body): set<string> {
    (if b.fields.name.Some? then {"name"} else {})
    + (if b.fields.description.Some? then {"description"} else {})
    + (if b.fields.status.Some? then {"status"} else {})
    + (if b.fields.createdBy.Some? then {"createdBy"} else {})
    + (if b.fields.steps.Some? then {"steps"} else {})
    + (if b.fields.metadata.Some? then {"metadata"} else {})
    + (if b.fields.createdAt.Some? then {"createdAt"} else {})
    + b.otherKeys
  }

  /** `!req.body || Object.keys(req.body).length === 0`. */
  predicate EmptyBody(body: Option<Body>)
    ensures EmptyBody(body) <==>
      body.None? || (body.value.otherKeys == {} && body.value.fields == WorkflowInput(None, None, None, None, None, None, None))
  {
    body.None? || Keys(body.value) == {}
  }

  /**
   * `{ ...req.body, createdBy: req.user.id }`: the spread comes first, so the
   * request identity's id replaces any owner the body names; keys outside the
   * schema are dropped by the schema.
   */
  function Stamp(b: Body, owner: Option<UserId>): (input: WorkflowInput)
    ensures input.createdBy == owner
    ensures input.(createdBy := b.fields.createdBy) == b.fields
  {
    b.fields.(createdBy := owner)
  }

  datatype CreateReply =
    | Created(workflow: Workflow)
    | CreateFailure(status: nat, error: string)
    | CreateInvalid(messages: seq<string>)

  const BodyRequiredError: string := "Request body is required"
  const DuplicateNameError: string := "A workflow with this name already exists"

  /** Some stored workflow of `owner` already has this name: the unique index refuses the save. */
  predicate NameTaken(docs: seq<Workflow>, name: string, owner: UserId) {
    exists i :: 0 <= i < |docs| && docs[i].name == name && docs[i].createdBy == owner
  }

  lemma AppendKeepsUnique(docs: seq<Workflow>, w: Workflow)
    requires UniqueNameOwner(docs) && !NameTaken(docs, w.name, w.createdBy)
    ensures UniqueNameOwner(docs + [w])
  {
    var ds := docs + [w];
    forall i, j | 0 <= i < j < |ds| ensures ds[i].name != ds[j].name || ds[i].createdBy != ds[j].createdBy {
      if j == |docs| {
        assert ds[i] == docs[i];
      }
    }
  }

  class WorkflowStore {
    var docs: seq<Workflow>

    ghost predicate Valid()
      reads this
    {
      && (forall i :: 0 <= i < |docs| ==> docs[i].id == i && WellFormed(docs[i]))
      && UniqueNameOwner(docs)
    }

    constructor ()
      ensures Valid() && docs == []
    {
      docs := [];
    }

    /**
     * `createWorkflow` for the request identity's id `owner` at time `now`:
     * empty-body check, owner stamp, validation, then the (name, owner) index.
     */
    method CreateWorkflow(body: Option<Body>, owner: Option<UserId>, now: int) returns (reply: CreateReply)
      requires Valid()
      modifies this
      ensures Valid()
      ensures EmptyBody(body) ==> reply == CreateFailure(400, BodyRequiredError) && docs == old(docs)
      ensures !EmptyBody(body) ==>
        var v := Validate(Stamp(body.value, owner), |old(docs)|, now);
        && (v.Rejected? ==> reply == CreateInvalid(v.messages) && docs == old(docs))
        && (v.Accepted? && NameTaken(old(docs), v.workflow.name, v.workflow.createdBy) ==>
              reply == CreateFailure(400, DuplicateNameError) && docs == old(docs))
        && (v.Accepted? && !NameTaken(old(docs), v.workflow.name, v.workflow.createdBy) ==>
              docs == old(docs) + [v.workflow] && reply == Created(v.workflow))
      ensures reply.Created? ==> owner == Some(reply.workflow.createdBy)
    {
      if EmptyBody(body) {
        return CreateFailure(400, BodyRequiredError);
      }
      var v := Validate(Stamp(body.value, owner), |docs|, now);
      if v.Rejected? {
        return CreateInvalid(v.messages);
      }
      var w := v.workflow;
      if NameTaken(docs, w.name, w.createdBy) {
        return CreateFailure(400, DuplicateNameError);
      }
      AppendKeepsUnique(docs, w);
      docs := docs + [w];
      reply := Created(w);
    }
  }

  /** A body with just a valid name, stamped with an owner, is accepted under that name and owner. */
  lemma NameOnlyAccepted(b: Body, name: string, owner: UserId, id: nat, now: int)
    requires Trimmed(name) && 0 < |name| <= MaxNameLength
    requires b.fields.name == Some(name) && b.fields.description.None? && b.fields.status.None? && b.fields.steps.None?
    ensures !EmptyBody(Some(b))
    ensures var v := Validate(Stamp(b, Some(owner)), id, now);
      v.Accepted? && v.workflow.name == name && v.workflow.createdBy == owner
  {
    TrimFixesTrimmed(name);
    NoViolationsIff(Stamp(b, Some(owner)));
  }

  /** A body with just a valid name is created when the owner has no workflow of that name yet. */
  method CreateFree(store: WorkflowStore, b: Body, name: string, owner: UserId, now: int) returns (r: CreateReply)
    requires store.Valid() && !NameTaken(store.docs, name, owner)
    requires Trimmed(name) && 0 < |name| <= MaxNameLength
    requires b.fields.name == Some(name) && b.fields.description.None? && b.fields.status.None? && b.fields.steps.None?
    modifies store
    ensures store.Valid() && r.Created? && r.workflow.name == name && r.workflow.createdBy == owner
    ensures store.docs == old(store.docs) + [r.workflow]
  {
    NameOnlyAccepted(b, name, owner, |store.docs|, now);
    r := store.CreateWorkflow(Some(b), Some(owner), now);
  }

  /** A body with just a valid name is refused when the owner already has a workflow of that name. */
  method CreateTaken(store: WorkflowStore, b: Body, name: string, owner: UserId, now: int) returns (r: CreateReply)
    requires store.Valid() && NameTaken(store.docs, name, owner)
    requires Trimmed(name) && 0 < |name| <= MaxNameLength
    requires b.fields.name == Some(name) && b.fields.description.None? && b.fields.status.None? && b.fields.steps.None?
    modifies store
    ensures store.Valid() && r == CreateFailure(400, DuplicateNameError) && store.docs == old(store.docs)
  {
    NameOnlyAccepted(b, name, owner, |store.docs|, now);
    r := store.CreateWorkflow(Some(b), Some(owner), now);
  }

  /** The same name under two owners is accepted for both; a second use by one owner is refused. */
  method SameNameTwoOwners(store: WorkflowStore, b: Body, name: string, alice: UserId, bob: UserId, now: int)
      returns (r1: CreateReply, r2: CreateReply, r3: CreateReply)
    requires store.Valid() && store.docs == [] && alice != bob
    requires Trimmed(name) && 0 < |name| <= MaxNameLength
    requires b.fields.name == Some(name) && b.fields.description.None? && b.fields.status.None? && b.fields.steps.None?
    modifies store
    ensures r1.Created? && r2.Created?
    ensures r3 == CreateFailure(400, DuplicateNameError)
  {
    r1 := CreateFree(store, b, name, alice, now);
    r2 := CreateFree(store, b, name, bob, now);
    assert store.docs[0] == r1.workflow;
    r3 := CreateTaken(store, b, name, alice, now);
  }

  /** The list request's query string; `page` and `limit` are what `parseInt` made of them (absent for NaN). */
  datatype ListQuery = ListQuery(page: Option<int>, limit: Option<int>, search: Option<string>, status: Option<string>)

  /** The query document: an owner, and the search and status conditions when given. */
  datatype Filter = Filter(owner: Option<UserId>, search: Option<string>, status: Option<string>)

  /** `parseInt(x) || default`: NaN and 0 fall back. */
  function OrDefault(x: Option<int>, default: int): (r: int)
    ensures x.None? || x.value == 0 ==> r == default
    ensures x.Some? && x.value != 0 ==> r == x.value
    ensures default != 0 ==> r != 0
  {
    if x.None? || x.value == 0 then default else x.value
  }

  /**
   * The query for the request identity's id `owner`. An absent owner stays
   * in the document as `undefined`, which the query layer drops from the filter.
   */
  function BuildFilter(owner: Option<UserId>, q: ListQuery): (f: Filter)
    ensures f.owner == owner
    ensures f.search.Some? <==> Truthy(q.search)
    ensures f.search.Some? ==> f.search == q.search
    ensures f.status.Some? <==> Truthy(q.status)
    ensures f.status.Some? ==> f.status == q.status
  {
    Filter(owner, if Truthy(q.search) then q.search else None, if Truthy(q.status) then q.status else None)
  }

  predicate MatchesFilter(w: Workflow, f: Filter) {
    && (f.owner.None? || w.createdBy == f.owner.value)
    && (f.search.None?
        || ContainsIgnoreCase(w.name, f.search.value)
        || (w.description.Some? && ContainsIgnoreCase(w.description.value, f.search.value)))
    && (f.status.None? || WorkflowStatusName(w.status) == f.status.value)
  }

  /** What the filter means for the list request: owner, then search over name OR description, then status. */
  lemma FilterMeaning(w: Workflow, owner: UserId, q: ListQuery)
    ensures MatchesFilter(w, BuildFilter(Some(owner), q)) <==>
      && w.createdBy == owner
      && (!Truthy(q.search) || ContainsIgnoreCase(w.name, q.search.value)
          || (w.description.Some? && ContainsIgnoreCase(w.description.value, q.search.value)))
      && (!Truthy(q.status) || WorkflowStatusName(w.status) == q.status.value)
  {
  }

  /** Without an owner id the filter does not scope by owner at all. */
  lemma UndefinedOwnerNotScoped(w: Workflow, q: ListQuery)
    ensures MatchesFilter(w, BuildFilter(None, q)) <==> MatchesFilter(w, BuildFilter(Some(w.createdBy), q))
  {
  }

  /** `find(query)` and `countDocuments(query)`: the matching workflows in store order. */
  function Select(docs: seq<Workflow>, f: Filter): (r: seq<Workflow>)
    ensures |r| <= |docs|
    ensures forall w :: multiset(r)[w] == if MatchesFilter(w, f) then multiset(docs)[w] else 0
    ensures forall w :: w in r ==> w in docs && MatchesFilter(w, f)
    ensures forall w :: w in docs && MatchesFilter(w, f) ==> w in r
    decreases |docs|
  {
    if docs == [] then []
    else
      assert docs == [docs[0]] + docs[1..];
      (if MatchesFilter(docs[0], f) then [docs[0]] else []) + Select(docs[1..], f)
  }

  predicate NewestFirstOrder(ws: seq<Workflow>) {
    forall i, j :: 0 <= i < j < |ws| ==> ws[i].createdAt >= ws[j].createdAt
  }

  function Insert(w: Workflow, sorted: seq<Workflow>): (r: seq<Workflow>)
    requires NewestFirstOrder(sorted)
    ensures NewestFirstOrder(r)
    ensures multiset(r) == multiset(sorted) + multiset{w}
    ensures |r| == |sorted| + 1 && (r[0] == w || (sorted != [] && r[0] == sorted[0]))
    decreases |sorted|
  {
    if sorted == [] || w.createdAt >= sorted[0].createdAt then
      ConsOrdered(w, sorted);
      [w] + sorted
    else
      TailOrdered(sorted);
      var rest := Insert(w, sorted[1..]);
      ConsOrdered(sorted[0], rest);
      assert sorted == [sorted[0]] + sorted[1..];
      assert multiset([sorted[0]] + rest) == multiset{sorted[0]} + multiset(rest);
      [sorted[0]] + rest
  }

  lemma TailOrdered(s: seq<Workflow>)
    requires s != [] && NewestFirstOrder(s)
    ensures NewestFirstOrder(s[1..])
  {
    assert forall i :: 0 <= i < |s| - 1 ==> s[1..][i] == s[i + 1];
  }

  /** A workflow no older than the head of a newest-first list can go in front of it. */
  lemma ConsOrdered(x: Workflow, s: seq<Workflow>)
    requires NewestFirstOrder(s) && (s == [] || x.createdAt >= s[0].createdAt)
    ensures NewestFirstOrder([x] + s)
  {
    var r := [x] + s;
    forall i, j | 0 <= i < j < |r| ensures r[i].createdAt >= r[j].createdAt {
      if i == 0 {
        assert r[j] == s[j - 1];
        assert s[0].createdAt >= s[j - 1].createdAt;
      } else {
        assert r[i] == s[i - 1] && r[j] == s[j - 1];
      }
    }
  }

  /** `.sort({ createdAt: -1 })`: newest first, a permutation of its input. */
  function NewestFirst(ws: seq<Workflow>): (r: seq<Workflow>)
    ensures NewestFirstOrder(r)
    ensures multiset(r) == multiset(ws) && |r| == |ws|
    ensures forall w :: w in r <==> w in ws
    decreases |ws|
  {
    if ws == [] then []
    else
      assert ws == [ws[0]] + ws[1..];
      var r := Insert(ws[0], NewestFirst(ws[1..]));
      assert forall w :: w in r <==> w in multiset(r);
      assert forall w :: w in ws <==> w in multiset(ws);
      r
  }

  /** `.skip(skip).limit(n)`. */
  function Window(s: seq<Workflow>, skip: nat, n: nat): (r: seq<Workflow>)
    ensures |r| <= n
    ensures forall w :: w in r ==> w in s
    ensures NewestFirstOrder(s) ==> NewestFirstOrder(r)
    ensures |r| == if skip >= |s| then 0 else if skip + n <= |s| then n else |s| - skip
    ensures skip < |s| ==> r == s[skip..skip + |r|]
  {
    if skip >= |s| then [] else if skip + n <= |s| then s[skip..skip + n] else s[skip..]
  }

  /** `Math.ceil(total / limit)`. */
  function CeilDiv(total: nat, limit: int): (pages: int)
    requires limit != 0
    ensures limit > 0 ==> pages >= 0
    ensures limit < 0 ==> pages <= 0 && -pages * -limit <= total < (1 - pages) * -limit
  {
    if limit > 0 then (total + limit - 1) / limit
    else
      var d, q := -limit, total / -limit;
      assert total == q * d + total % d && 0 <= total % d < d;
      assert -(-q) * d == q * d && (1 - -q) * d == q * d + d;
      -q
  }

  /** With a positive limit the pages hold the total exactly: the last page is non-empty. */
  lemma PagesCoverTotal(total: nat, limit: nat)
    requires limit > 0
    ensures total == 0 ==> CeilDiv(total, limit) == 0
    ensures total > 0 ==> (CeilDiv(total, limit) - 1) * limit < total <= CeilDiv(total, limit) * limit
  {
    var p := CeilDiv(total, limit);
    var x := total + limit - 1;
    assert x == p * limit + x % limit;
    if total > 0 {
      assert p >= 1;
      assert (p - 1) * limit == p * limit - limit;
    }
  }

  /** `(page - 1) * limit`, the number of matches the request skips. */
  function PageSkip(q: ListQuery): int {
    (OrDefault(q.page, 1) - 1) * OrDefault(q.limit, 10)
  }

  /** The most records a page holds: the database reads a negative limit as its absolute value. */
  function PageSize(q: ListQuery): nat {
    var limit := OrDefault(q.limit, 10);
    if limit < 0 then -limit else limit
  }

  /** Every match of the request's filter, newest first: the sequence the pages are cut from. */
  function Matching(docs: seq<Workflow>, owner: Option<UserId>, q: ListQuery): (r: seq<Workflow>)
    ensures NewestFirstOrder(r)
    ensures multiset(r) == multiset(Select(docs, BuildFilter(owner, q)))
    ensures |r| == |Select(docs, BuildFilter(owner, q))|
  {
    NewestFirst(Select(docs, BuildFilter(owner, q)))
  }

  datatype ListReply =
    | Listed(data: seq<Workflow>, total: nat, page: int, pages: int)
    | ListFailure(status: nat, error: string)

  const FetchError: string := "Internal server error while fetching workflows"

  /**
   * `getWorkflows`. A negative skip is refused by the database and answered
   * with 500; a negative limit returns at most its absolute value.
   */
  function ListWorkflows(docs: seq<Workflow>, owner: Option<UserId>, q: ListQuery): (r: ListReply)
    ensures r.ListFailure? <==> PageSkip(q) < 0
    ensures r.ListFailure? ==> r == ListFailure(500, FetchError)
    ensures r.Listed? ==> r.page == OrDefault(q.page, 1)
    ensures r.Listed? ==> PageSkip(q) >= 0 && r.data == Window(Matching(docs, owner, q), PageSkip(q), PageSize(q))
    ensures r.Listed? ==> forall w :: w in r.data ==> w in docs && MatchesFilter(w, BuildFilter(owner, q))
    ensures r.Listed? ==> r.total == |Select(docs, BuildFilter(owner, q))|
    ensures r.Listed? ==> r.pages == CeilDiv(r.total, OrDefault(q.limit, 10))
    ensures r.Listed? ==> NewestFirstOrder(r.data)
    ensures r.Listed? ==> |r.data| <= PageSize(q)
  {
    if PageSkip(q) < 0 then ListFailure(500, FetchError)
    else
      var total := |Select(docs, BuildFilter(owner, q))|;
      Listed(Window(Matching(docs, owner, q), PageSkip(q), PageSize(q)), total,
             OrDefault(q.page, 1), CeilDiv(total, OrDefault(q.limit, 10)))
  }

  /** Every listed workflow belongs to the caller, whatever the search, status and pagination. */
  lemma ListScopedToOwner(docs: seq<Workflow>, owner: UserId, q: ListQuery)
    ensures var r := ListWorkflows(docs, Some(owner), q);
      r.Listed? ==> forall w :: w in r.data ==> w.createdBy == owner
  {
  }

  /** The reply depends on the query only through the parsed page and limit, the search and the status. */
  lemma QueryByValue(docs: seq<Workflow>, owner: Option<UserId>, q1: ListQuery, q2: ListQuery)
    requires OrDefault(q1.page, 1) == OrDefault(q2.page, 1) && OrDefault(q1.limit, 10) == OrDefault(q2.limit, 10)
    requires q1.search == q2.search && q1.status == q2.status
    ensures ListWorkflows(docs, owner, q1) == ListWorkflows(docs, owner, q2)
  {
    assert PageSkip(q1) == PageSkip(q2) && PageSize(q1) == PageSize(q2);
    assert BuildFilter(owner, q1) == BuildFilter(owner, q2);
  }

  /** Absent, non-numeric or zero page and limit, in any combination, mean page 1 of 10. */
  lemma DefaultPaging(docs: seq<Workflow>, owner: Option<UserId>, page: Option<int>, limit: Option<int>,
                      search: Option<string>, status: Option<string>)
    requires page.None? || page == Some(0)
    requires limit.None? || limit == Some(0)
    ensures var q := ListQuery(page, limit, search, status);
      var r := ListWorkflows(docs, owner, q);
      && r == ListWorkflows(docs, owner, ListQuery(Some(1), Some(10), search, status))
      && r.Listed? && r.page == 1 && r.pages == CeilDiv(r.total, 10)
      && r.data == Window(Matching(docs, owner, q), 0, 10)
  {
    QueryByValue(docs, owner, ListQuery(page, limit, search, status), ListQuery(Some(1), Some(10), search, status));
  }

  /** The records of pages 1 to `count` of one listing request, page by page. */
  function PageRecords(docs: seq<Workflow>, owner: Option<UserId>, q: ListQuery, count: nat): (pages: seq<seq<Workflow>>)
    ensures |pages| == count
  {
    if count == 0 then []
    else
      var r := ListWorkflows(docs, owner, q.(page := Some(count)));
      PageRecords(docs, owner, q, count - 1) + [if r.Listed? then r.data else []]
  }

  /** Pages laid end to end. */
  function Concat(pages: seq<seq<Workflow>>): (r: seq<Workflow>)
    ensures pages != [] ==> r == Concat(pages[..|pages| - 1]) + pages[|pages| - 1]
    decreases |pages|
  {
    if pages == [] then [] else Concat(pages[..|pages| - 1]) + pages[|pages| - 1]
  }

  /** `count` consecutive windows of `n` records, from the start of `s`. */
  function Windows(s: seq<Workflow>, n: nat, count: nat): (ws: seq<seq<Workflow>>)
    ensures |ws| == count
  {
    if count == 0 then [] else Windows(s, n, count - 1) + [Window(s, (count - 1) * n, n)]
  }

  /** Consecutive windows laid end to end are one window. */
  lemma {:induction false} WindowsTile(s: seq<Workflow>, n: nat, count: nat)
    ensures Concat(Windows(s, n, count)) == Window(s, 0, count * n)
  {
    if count == 0 {
      assert Window(s, 0, 0) == [];
    } else {
      PrevMultiple(count, n);
      var ws := Windows(s, n, count);
      assert ws[..count - 1] == Windows(s, n, count - 1);
      WindowsTile(s, n, count - 1);
      WindowsJoin(s, 0, (count - 1) * n, n);
    }
  }

  lemma PrevMultiple(count: nat, n: nat)
    requires count > 0
    ensures 0 <= (count - 1) * n && (count - 1) * n + n == count * n
  {
  }

  /** Two adjacent windows make one. */
  lemma WindowsJoin(s: seq<Workflow>, skip: nat, n: nat, m: nat)
    ensures Window(s, skip, n) + Window(s, skip + n, m) == Window(s, skip, n + m)
  {
    if skip + n < |s| && skip + n + m > |s| {
      assert s[skip..skip + n] + s[skip + n..] == s[skip..];
    } else if skip + n + m <= |s| {
      assert s[skip..skip + n] + s[skip + n..skip + n + m] == s[skip..skip + n + m];
    }
  }

  /** A window from the start at least as long as the sequence is all of it. */
  lemma WindowAll(s: seq<Workflow>, n: nat)
    requires |s| <= n
    ensures Window(s, 0, n) == s
  {
    if s != [] {
      assert s[0..] == s;
    }
  }

  /** The matches do not depend on the requested page. */
  lemma MatchingIgnoresPage(docs: seq<Workflow>, owner: Option<UserId>, q: ListQuery, page: Option<int>)
    ensures Matching(docs, owner, q.(page := page)) == Matching(docs, owner, q)
  {
    assert BuildFilter(owner, q.(page := page)) == BuildFilter(owner, q);
  }

  /** Page `from` skips `from - 1` pages of `limit` records. */
  lemma SkipOf(q: ListQuery, from: nat)
    requires from >= 1 && OrDefault(q.limit, 10) > 0
    ensures PageSkip(q.(page := Some(from))) == (from - 1) * OrDefault(q.limit, 10) >= 0
  {
  }

  /** Page `from` of a request with a positive limit is the window of `limit` matches at its skip. */
  lemma OnePage(docs: seq<Workflow>, owner: Option<UserId>, q: ListQuery, from: nat)
    requires from >= 1 && OrDefault(q.limit, 10) > 0
    ensures var qp := q.(page := Some(from));
      var r := ListWorkflows(docs, owner, qp);
      PageSkip(qp) >= 0 && r.Listed?
      && r.data == Window(Matching(docs, owner, q), PageSkip(qp), OrDefault(q.limit, 10))
  {
    SkipOf(q, from);
    MatchingIgnoresPage(docs, owner, q, Some(from));
  }

  /** With a positive limit, page `i + 1` is the `i`-th window of `limit` sorted matches. */
  lemma {:induction false} PagesAreWindows(docs: seq<Workflow>, owner: Option<UserId>, q: ListQuery, count: nat)
    requires OrDefault(q.limit, 10) > 0
    ensures PageRecords(docs, owner, q, count) == Windows(Matching(docs, owner, q), OrDefault(q.limit, 10), count)
  {
    if count > 0 {
      var s, limit := Matching(docs, owner, q), OrDefault(q.limit, 10);
      PagesAreWindows(docs, owner, q, count - 1);
      var qp := q.(page := Some(count));
      var skip := PageSkip(qp);
      assert skip == (count - 1) * limit by { SkipOf(q, count); }
      var r := ListWorkflows(docs, owner, qp);
      assert r.Listed? && r.data == Window(s, skip, limit) by { OnePage(docs, owner, q, count); }
    }
  }

  /**
   * With a positive limit, pages 1 to `pages` of a request, laid end to end,
   * are every match, newest first: each match is on exactly one page, in order.
   */
  lemma PagesTileMatches(docs: seq<Workflow>, owner: Option<UserId>, q: ListQuery)
    requires OrDefault(q.limit, 10) > 0
    ensures var first := ListWorkflows(docs, owner, q.(page := Some(1)));
      first.Listed? && first.pages >= 0
      && Concat(PageRecords(docs, owner, q, first.pages)) == Matching(docs, owner, q)
  {
    var s, limit := Matching(docs, owner, q), OrDefault(q.limit, 10);
    PageCount(docs, owner, q);
    var p := ListWorkflows(docs, owner, q.(page := Some(1))).pages;
    PagesAreWindows(docs, owner, q, p);
    WindowsTile(s, limit, p);
    WindowAll(s, p * limit);
  }

  /** The page count of a request with a positive limit is the ceiling of its matches over the limit. */
  lemma PageCount(docs: seq<Workflow>, owner: Option<UserId>, q: ListQuery)
    requires OrDefault(q.limit, 10) > 0
    ensures var r := ListWorkflows(docs, owner, q.(page := Some(1)));
      var n, limit := |Matching(docs, owner, q)|, OrDefault(q.limit, 10);
      r.Listed? && r.pages >= 0 && n <= r.pages * limit
  {
    MatchingIgnoresPage(docs, owner, q, Some(1));
    var r := ListWorkflows(docs, owner, q.(page := Some(1)));
    PagesCoverTotal(r.total, OrDefault(q.limit, 10));
  }

  /** 15 matches with limit 10: two pages, and page 2 holds the last 5. */
  lemma FifteenMatchesSecondPage(docs: seq<Workflow>, owner: UserId)
    requires |Select(docs, BuildFilter(Some(owner), ListQuery(Some(2), Some(10), None, None)))| == 15
    ensures var r := ListWorkflows(docs, Some(owner), ListQuery(Some(2), Some(10), None, None));
      r.Listed? && r.total == 15 && r.pages == 2 && |r.data| == 5
  {
  }
}
