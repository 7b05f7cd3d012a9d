/**
 * Improvement plans and their search index: each report stores a plan first and indexes it after,
 * and a search joins the two again.
 */
module PlanIndex {
  import opened SessionKeys

  // A stored plan; plans from before companies were recorded have none.
  datatype Plan = Plan(inventory: int, company: Option<int>, problem: string, details: string)

  // A row of the index, kept under the inventory it names.
  datatype Row = Row(inventory: int, company: int, problem: string)

  // The plan that the analysis returned; `inventory` should be the one it was asked about.
  datatype Analysis = Analysis(inventory: int, problem: string, details: string)

  // One report and what goes wrong in it: `analysis` is missing when the analysis fails or its
  // inventory is malformed, `stores` says whether the plan is written, and `indexes` whether the
  // accesses after that reach the index and succeed there.
  datatype Report = Report(
    inventory: Option<int>, hasText: bool, user: int, company: int,
    analysis: Option<Analysis>, stores: bool, indexes: bool)

  datatype Result = Extracted | InvalidReport | BelongsToAnotherCompany | AnalysisFailed | NotStored | NotIndexed

  datatype State = State(plans: seq<Plan>, index: map<int, Row>)

  const INITIAL := State([], map[])

  // ---- The collection ----

  /** `find_one`: the first match. */
  function Find(plans: seq<Plan>, inventory: int): Option<Plan> {
    if plans == [] then None
    else if plans[0].inventory == inventory then Some(plans[0])
    else Find(plans[1..], inventory)
  }

  /** `replace_one`: replaces the first match, if there is one. */
  function ReplaceFirst(plans: seq<Plan>, p: Plan): seq<Plan> {
    if plans == [] then []
    else if plans[0].inventory == p.inventory then [p] + plans[1..]
    else [plans[0]] + ReplaceFirst(plans[1..], p)
  }

  // ---- Reports ----

  predicate ValidReport(r: Report) {
    r.inventory.Some? && r.hasText && r.user > 0 && r.company > 0
  }

  predicate OtherCompany(plans: seq<Plan>, r: Report)
    requires ValidReport(r)
  {
    var current := Find(plans, r.inventory.value);
    current.Some? && current.value.company.Some? && current.value.company.value != r.company
  }

  // The report gets as far as writing its plan.
  predicate Stores(s: State, r: Report) {
    ValidReport(r) && !OtherCompany(s.plans, r) && r.analysis.Some? && r.stores
  }

  function StoredPlan(r: Report): Plan
    requires r.analysis.Some?
  {
    Plan(r.analysis.value.inventory, Some(r.company), r.analysis.value.problem, r.analysis.value.details)
  }

  function PlansAfter(s: State, r: Report): seq<Plan>
    requires Stores(s, r)
  {
    if Find(s.plans, r.inventory.value).None? then s.plans + [StoredPlan(r)]
    else ReplaceFirst(s.plans, StoredPlan(r))
  }

  function IndexAfter(s: State, r: Report): map<int, Row>
    requires Stores(s, r)
  {
    var a := r.analysis.value;
    if r.indexes then s.index[a.inventory := Row(a.inventory, r.company, a.problem)] else s.index
  }

  function Submit(s: State, r: Report): State {
    if Stores(s, r) then State(PlansAfter(s, r), IndexAfter(s, r)) else s
  }

  function ResultOf(s: State, r: Report): Result {
    if !ValidReport(r) then InvalidReport
    else if OtherCompany(s.plans, r) then BelongsToAnotherCompany
    else if r.analysis.None? then AnalysisFailed
    else if !r.stores then NotStored
    else if !r.indexes then NotIndexed
    else Extracted
  }

  function Run(s: State, rs: seq<Report>): State {
    if rs == [] then s else Submit(Run(s, rs[..|rs| - 1]), rs[|rs| - 1])
  }

  // ---- Consistency of the store and the index ----

  ghost predicate OnePlanPerInventory(plans: seq<Plan>) {
    forall a, b :: 0 <= a < b < |plans| ==> plans[a].inventory != plans[b].inventory
  }

  ghost predicate RowBacked(s: State, i: int) {
    && i in s.index && s.index[i].inventory == i
    && Find(s.plans, i).Some? && Find(s.plans, i).value.company == Some(s.index[i].company)
  }

  ghost predicate IndexBacked(s: State) {
    forall i :: i in s.index ==> RowBacked(s, i)
  }

  ghost predicate Consistent(s: State) {
    OnePlanPerInventory(s.plans) && IndexBacked(s)
  }

  ghost predicate CompanyKept(before: seq<Plan>, after: seq<Plan>, i: int) {
    var plan := Find(before, i);
    plan.Some? ==>
      && Find(after, i).Some?
      && (plan.value.company.Some? ==> Find(after, i).value.company == plan.value.company)
  }

  // No plan disappears, and none changes company once it has one.
  ghost predicate CompaniesKept(before: State, after: State) {
    forall i :: CompanyKept(before.plans, after.plans, i)
  }

  lemma {:induction false} FindIsFirst(plans: seq<Plan>, i: int)
    ensures Find(plans, i).None? <==> forall k :: 0 <= k < |plans| ==> plans[k].inventory != i
    ensures Find(plans, i).Some? ==> Find(plans, i).value in plans && Find(plans, i).value.inventory == i
  {
    if plans != [] {
      FindIsFirst(plans[1..], i);
      assert plans == [plans[0]] + plans[1..];
    }
  }

  // The plan at `k` is the first of its inventory.
  ghost predicate IsFirst(plans: seq<Plan>, k: nat, i: int)
    requires k < |plans|
  {
    plans[k].inventory == i && forall j :: 0 <= j < k ==> plans[j].inventory != i
  }

  lemma {:induction false} FirstIsFound(plans: seq<Plan>, i: int)
    ensures Find(plans, i).Some? <==> exists k :: 0 <= k < |plans| && IsFirst(plans, k, i)
    ensures forall k :: 0 <= k < |plans| && IsFirst(plans, k, i) ==> Find(plans, i) == Some(plans[k])
  {
    if plans != [] {
      if plans[0].inventory == i {
        assert IsFirst(plans, 0, i);
      } else {
        FirstIsFound(plans[1..], i);
        forall k | 0 < k < |plans| ensures IsFirst(plans, k, i) <==> IsFirst(plans[1..], k - 1, i) {
          FirstInRest(plans, k, i);
        }
        if k :| 0 <= k < |plans| - 1 && IsFirst(plans[1..], k, i) {
          assert IsFirst(plans, k + 1, i);
        }
      }
    }
  }

  lemma FirstInRest(plans: seq<Plan>, k: nat, i: int)
    requires 0 < k < |plans| && plans[0].inventory != i
    ensures IsFirst(plans, k, i) <==> IsFirst(plans[1..], k - 1, i)
  {
    assert forall j :: 0 < j < |plans| ==> plans[j] == plans[1..][j - 1];
  }

  lemma {:induction false} FindAppended(plans: seq<Plan>, p: Plan, i: int)
    ensures Find(plans + [p], i)
      == if Find(plans, i).Some? then Find(plans, i) else if p.inventory == i then Some(p) else None
  {
    if plans != [] {
      FindAppended(plans[1..], p, i);
      assert (plans + [p])[1..] == plans[1..] + [p];
    }
  }

  lemma {:induction false} FindReplaced(plans: seq<Plan>, p: Plan, i: int)
    ensures Find(ReplaceFirst(plans, p), i)
      == if p.inventory == i && Find(plans, i).Some? then Some(p) else Find(plans, i)
    ensures |ReplaceFirst(plans, p)| == |plans|
    ensures forall k :: 0 <= k < |plans| ==> ReplaceFirst(plans, p)[k].inventory == plans[k].inventory
  {
    if plans != [] && plans[0].inventory != p.inventory {
      FindReplaced(plans[1..], p, i);
    }
  }

  lemma {:induction false} ReplaceAt(plans: seq<Plan>, p: Plan, i: nat)
    requires i <= |plans| && forall k :: 0 <= k < i ==> plans[k].inventory != p.inventory
    requires i < |plans| ==> plans[i].inventory == p.inventory
    ensures ReplaceFirst(plans, p) == if i < |plans| then plans[i := p] else plans
  {
    if i > 0 {
      ReplaceAt(plans[1..], p, i - 1);
    } else if plans != [] {
      assert plans[0 := p] == [p] + plans[1..];
    }
  }

  // What a storing report leaves under each inventory.
  lemma FindAfter(s: State, r: Report, i: int)
    requires Stores(s, r)
    ensures var p := StoredPlan(r);
      Find(PlansAfter(s, r), i)
      == if i != p.inventory then Find(s.plans, i)
         else if Find(s.plans, r.inventory.value).None? then
           (if Find(s.plans, i).Some? then Find(s.plans, i) else Some(p))
         else if Find(s.plans, i).Some? then Some(p) else None
  {
    FindAppended(s.plans, StoredPlan(r), i);
    FindReplaced(s.plans, StoredPlan(r), i);
  }

  lemma PlansStayUnique(s: State, r: Report)
    requires OnePlanPerInventory(s.plans) && Stores(s, r)
    ensures OnePlanPerInventory(PlansAfter(s, r))
      <==> Find(s.plans, r.inventory.value).Some? || Find(s.plans, r.analysis.value.inventory).None?
  {
    var p := StoredPlan(r);
    FindIsFirst(s.plans, p.inventory);
    FindReplaced(s.plans, p, 0);
    if Find(s.plans, r.inventory.value).None? && Find(s.plans, p.inventory).Some? {
      var k :| 0 <= k < |s.plans| && s.plans[k].inventory == p.inventory;
      assert PlansAfter(s, r)[k].inventory == PlansAfter(s, r)[|s.plans|].inventory;
    }
  }

  /**
   * The answer of the analysis is filed under the wrong plan: it names an inventory other than the
   * one asked about, and that one already has a plan (for a first report), or a plan of another
   * company, or no plan to replace while the index gets its row.
   */
  predicate Misfiles(s: State, r: Report) {
    Stores(s, r)
    && var named := r.analysis.value.inventory;
       var there := Find(s.plans, named);
       && named != r.inventory.value
       && if Find(s.plans, r.inventory.value).None? then there.Some?
          else if there.Some? then there.value.company.Some? && there.value.company.value != r.company
          else r.indexes
  }

  lemma FiledKeepsCompanies(s: State, r: Report)
    requires Stores(s, r) && !Misfiles(s, r)
    ensures CompaniesKept(s, Submit(s, r))
  {
    hide Find, PlansAfter;
    forall i ensures CompanyKept(s.plans, Submit(s, r).plans, i) {
      FindAfter(s, r, i);
    }
  }

  lemma FiledKeepsIndexBacked(s: State, r: Report)
    requires IndexBacked(s) && Stores(s, r) && !Misfiles(s, r)
    ensures IndexBacked(Submit(s, r))
  {
    hide Find, PlansAfter;
    var after := Submit(s, r);
    forall i | i in after.index ensures RowBacked(after, i) {
      FindAfter(s, r, i);
      FindAfter(s, r, r.inventory.value);
      assert i in s.index ==> RowBacked(s, i);
    }
  }

  // Misfiling duplicates a plan, moves one to another company, or indexes one that does not exist.
  lemma MisfilingShows(s: State, r: Report)
    requires Consistent(s) && Misfiles(s, r)
    ensures !Consistent(Submit(s, r)) || !CompaniesKept(s, Submit(s, r))
  {
    hide Find, PlansAfter;
    var named := r.analysis.value.inventory;
    FindAfter(s, r, named);
    if Find(s.plans, r.inventory.value).None? {
      PlansStayUnique(s, r);
    } else if Find(s.plans, named).Some? {
      assert !CompanyKept(s.plans, Submit(s, r).plans, named);
    } else {
      assert !RowBacked(Submit(s, r), named);
    }
  }

  /**
   * A report keeps one plan per inventory, every plan's company and the index backed by the plans
   * exactly when it does not misfile its answer, whether or not the index write succeeds.
   */
  lemma ReportKeepsOrderIffFiled(s: State, r: Report)
    requires Consistent(s)
    ensures Consistent(Submit(s, r)) && CompaniesKept(s, Submit(s, r)) <==> !Misfiles(s, r)
  {
    hide Find, PlansAfter, Misfiles, CompaniesKept, IndexBacked, OnePlanPerInventory;
    if Misfiles(s, r) {
      MisfilingShows(s, r);
    } else if Stores(s, r) {
      FiledKeepsCompanies(s, r);
      FiledKeepsIndexBacked(s, r);
      FiledStaysUnique(s, r);
    } else {
      NothingChangesCompanies(s);
    }
  }

  lemma FiledStaysUnique(s: State, r: Report)
    requires OnePlanPerInventory(s.plans) && Stores(s, r) && !Misfiles(s, r)
    ensures OnePlanPerInventory(PlansAfter(s, r))
  {
    hide Find, PlansAfter, OnePlanPerInventory;
    PlansStayUnique(s, r);
  }

  lemma NothingChangesCompanies(s: State)
    ensures CompaniesKept(s, s)
  {
    forall i ensures CompanyKept(s.plans, s.plans, i) {
    }
  }

  ghost predicate AlwaysFiled(s: State, rs: seq<Report>) {
    forall k :: 0 <= k < |rs| ==> !Misfiles(Run(s, rs[..k]), rs[k])
  }

  // The analysis answers about the inventory it was asked about.
  predicate Echoes(r: Report) {
    r.inventory.Some? && r.analysis.Some? ==> r.analysis.value.inventory == r.inventory.value
  }

  lemma EchoedRunsAreFiled(s: State, rs: seq<Report>)
    requires forall k :: 0 <= k < |rs| ==> Echoes(rs[k])
    ensures AlwaysFiled(s, rs)
  {
    hide Run;
    forall k | 0 <= k < |rs| ensures !Misfiles(Run(s, rs[..k]), rs[k]) {
      assert Echoes(rs[k]);
    }
  }

  lemma CompaniesKeptOnward(a: State, b: State, c: State)
    requires CompaniesKept(a, b) && CompaniesKept(b, c)
    ensures CompaniesKept(a, c)
  {
    hide Find;
    forall i ensures CompanyKept(a.plans, c.plans, i) {
      assert CompanyKept(a.plans, b.plans, i) && CompanyKept(b.plans, c.plans, i);
    }
  }

  /**
   * Over any run of reports that file their answers, with the analysis, the store and the index free
   * to fail at any of them: each inventory has at most one plan, no plan is lost or changes company
   * once it has one, and every index row belongs to a stored plan of its own company.
   */
  lemma {:induction false} RunsStayConsistent(s: State, rs: seq<Report>)
    requires Consistent(s) && AlwaysFiled(s, rs)
    ensures Consistent(Run(s, rs)) && CompaniesKept(s, Run(s, rs))
  {
    hide Consistent, CompaniesKept, Misfiles, Submit;
    if rs == [] {
      NothingChangesCompanies(s);
    } else {
      var n := |rs| - 1;
      forall k | 0 <= k < n ensures rs[..n][..k] == rs[..k] && rs[..n][k] == rs[k] {
      }
      assert !Misfiles(Run(s, rs[..n]), rs[n]);
      RunsStayConsistent(s, rs[..n]);
      ReportKeepsOrderIffFiled(Run(s, rs[..n]), rs[n]);
      CompaniesKeptOnward(s, Run(s, rs[..n]), Run(s, rs));
    }
  }

  /** So they hold of every such run from the empty collection and index. */
  lemma {:induction false} EveryRunIsConsistent(rs: seq<Report>, n: nat)
    requires AlwaysFiled(INITIAL, rs) && n <= |rs|
    ensures Consistent(Run(INITIAL, rs)) && CompaniesKept(Run(INITIAL, rs[..n]), Run(INITIAL, rs))
    decreases |rs| - n
  {
    hide Consistent, CompaniesKept, Misfiles, Submit;
    InitialIsConsistent();
    RunsStayConsistent(INITIAL, rs);
    if n == |rs| {
      assert rs[..n] == rs;
      NothingChangesCompanies(Run(INITIAL, rs));
    } else {
      EveryRunIsConsistent(rs, n + 1);
      assert rs[..n + 1][..n] == rs[..n];
      forall k | 0 <= k < n ensures rs[..n][..k] == rs[..k] && rs[..n][k] == rs[k] {
      }
      RunsStayConsistent(INITIAL, rs[..n]);
      assert !Misfiles(Run(INITIAL, rs[..n]), rs[n]);
      ReportKeepsOrderIffFiled(Run(INITIAL, rs[..n]), rs[n]);
      CompaniesKeptOnward(Run(INITIAL, rs[..n]), Run(INITIAL, rs[..n + 1]), Run(INITIAL, rs));
    }
  }

  lemma InitialIsConsistent()
    ensures Consistent(INITIAL)
  {
  }

  /** When the analysis answers about another inventory, one plan per inventory can fail. */
  lemma UnechoedReportDuplicatesPlan() returns (rs: seq<Report>)
    ensures |rs| == 2 && !OnePlanPerInventory(Run(INITIAL, rs).plans)
  {
    var first := Report(Some(1), true, 1, 1, Some(Analysis(1, "heat", "")), true, true);
    var second := Report(Some(2), true, 1, 1, Some(Analysis(1, "fuel", "")), true, true);
    rs := [first, second];
    assert rs[..1] == [first] && rs[..1][..0] == [];
    var plans := Run(INITIAL, rs).plans;
    assert Run(INITIAL, rs[..1]) == Submit(INITIAL, first);
    assert plans == [StoredPlan(first), StoredPlan(second)];
    assert plans[0].inventory == plans[1].inventory;
  }

  // ---- Searching ----

  datatype Document = Document(inventory: int, problem: string, details: string)

  function DocumentOf(p: Plan): Document {
    Document(p.inventory, p.problem, p.details)
  }

  // A hit of the index may come back without its inventory.
  datatype Hit = NoInventory | Hit(inventory: int)

  function HydratedHit(plans: seq<Plan>, hit: Hit, company: int): seq<Document> {
    if hit.NoInventory? then []
    else
      var plan := Find(plans, hit.inventory);
      if plan.Some? && plan.value.company == Some(company) then [DocumentOf(plan.value)] else []
  }

  function Hydrated(plans: seq<Plan>, hits: seq<Hit>, company: int): seq<Document> {
    if hits == [] then []
    else Hydrated(plans, hits[..|hits| - 1], company) + HydratedHit(plans, hits[|hits| - 1], company)
  }

  // An answer of the index to a query for one company: any of its rows, ranked in any order.
  ghost predicate AnswersQuery(s: State, hits: seq<Hit>, company: int) {
    forall k :: 0 <= k < |hits| ==>
      hits[k].Hit? && hits[k].inventory in s.index && s.index[hits[k].inventory].company == company
  }

  /** Whatever the query and the ranking, only plans of the asking company come out. */
  lemma {:induction false} HydrationStaysInCompany(plans: seq<Plan>, hits: seq<Hit>, company: int)
    ensures forall d :: d in Hydrated(plans, hits, company) ==>
      exists p :: p in plans && p.company == Some(company) && d == DocumentOf(p)
  {
    if hits != [] {
      var n := |hits| - 1;
      HydrationStaysInCompany(plans, hits[..n], company);
      if hits[n].Hit? {
        FindIsFirst(plans, hits[n].inventory);
      }
    }
  }

  /** After any filed run, hydrating a company's answer drops no hit: its documents are the hits' plans, in order. */
  lemma HydrationDropsNothing(s: State, rs: seq<Report>, hits: seq<Hit>, company: int)
    requires Consistent(s) && AlwaysFiled(s, rs) && AnswersQuery(Run(s, rs), hits, company)
    ensures var documents := Hydrated(Run(s, rs).plans, hits, company);
      |documents| == |hits| && forall k :: 0 <= k < |hits| ==>
        Find(Run(s, rs).plans, hits[k].inventory).Some?
        && var plan := Find(Run(s, rs).plans, hits[k].inventory).value;
           documents[k] == Document(hits[k].inventory, plan.problem, plan.details)
  {
    RunsStayConsistent(s, rs);
    BackedHitsHydrate(Run(s, rs), hits, company);
  }

  lemma {:induction false} BackedHitsHydrate(s: State, hits: seq<Hit>, company: int)
    requires IndexBacked(s) && AnswersQuery(s, hits, company)
    ensures var documents := Hydrated(s.plans, hits, company);
      |documents| == |hits| && forall k :: 0 <= k < |hits| ==>
        Find(s.plans, hits[k].inventory).Some?
        && var plan := Find(s.plans, hits[k].inventory).value;
           documents[k] == Document(hits[k].inventory, plan.problem, plan.details)
  {
    if hits != [] {
      var n := |hits| - 1;
      BackedHitsHydrate(s, hits[..n], company);
      assert hits[n].inventory in s.index && RowBacked(s, hits[n].inventory);
      FindIsFirst(s.plans, hits[n].inventory);
    }
  }

  // ---- How old an index row can be ----

  // Report `k` is the last that stored a plan for inventory `i`.
  ghost predicate LastStored(s: State, rs: seq<Report>, k: nat, i: int) {
    && k < |rs| && Stores(Run(s, rs[..k]), rs[k]) && rs[k].analysis.value.inventory == i
    && forall j :: k < j < |rs| && Stores(Run(s, rs[..j]), rs[j]) ==> rs[j].analysis.value.inventory != i
  }

  /** The row of an inventory is that of its last stored plan when that report was indexed, and otherwise older. */
  lemma {:induction false} IndexFollowsLastReport(s: State, rs: seq<Report>, k: nat, i: int)
    requires LastStored(s, rs, k, i)
    ensures rs[k].indexes ==>
      i in Run(s, rs).index && Run(s, rs).index[i] == Row(i, rs[k].company, rs[k].analysis.value.problem)
    ensures !rs[k].indexes ==>
      (i in Run(s, rs).index <==> i in Run(s, rs[..k]).index)
      && (i in Run(s, rs).index ==> Run(s, rs).index[i] == Run(s, rs[..k]).index[i])
  {
    hide PlansAfter, ValidReport, OtherCompany;
    var n := |rs| - 1;
    assert rs[..n][..k] == rs[..k];
    if k < n {
      forall j | 0 <= j < n ensures rs[..n][..j] == rs[..j] && rs[..n][j] == rs[j] {
      }
      IndexFollowsLastReport(s, rs[..n], k, i);
      assert Stores(Run(s, rs[..n]), rs[n]) ==> rs[n].analysis.value.inventory != i;
    }
  }

  // ---- The service over its collection and its index ----

  class PlanService {
    var plans: seq<Plan>
    var index: map<int, Row>

    ghost function Contents(): State
      reads this
    {
      State(plans, index)
    }

    constructor ()
      ensures Contents() == INITIAL
    {
      plans, index := [], map[];
    }

    method GetByIdExternalInventory(inventory: int) returns (plan: Option<Plan>)
      ensures plan == Find(plans, inventory)
      ensures plan.Some? <==> exists k :: 0 <= k < |plans| && IsFirst(plans, k, inventory)
      ensures forall k :: 0 <= k < |plans| && IsFirst(plans, k, inventory) ==> plan == Some(plans[k])
    {
      FindIsFirst(plans, inventory);
      FirstIsFound(plans, inventory);
      for i := 0 to |plans|
        invariant Find(plans, inventory) == Find(plans[i..], inventory)
      {
        if plans[i].inventory == inventory {
          return Some(plans[i]);
        }
      }
      return None;
    }

    method Create(p: Plan)
      modifies `plans
      ensures plans == old(plans) + [p]
    {
      plans := plans + [p];
    }

    method Replace(p: Plan)
      modifies `plans
      ensures plans == ReplaceFirst(old(plans), p)
    {
      var i := 0;
      while i < |plans| && plans[i].inventory != p.inventory
        invariant 0 <= i <= |plans|
        invariant forall k :: 0 <= k < i ==> plans[k].inventory != p.inventory
      {
        i := i + 1;
      }
      ReplaceAt(plans, p, i);
      if i < |plans| {
        plans := plans[i := p];
      }
    }

    method UpsertProblem(inventory: int, problem: string, company: int)
      modifies `index
      ensures index == old(index)[inventory := Row(inventory, company, problem)]
    {
      index := index[inventory := Row(inventory, company, problem)];
    }

    method InputInventory(r: Report) returns (result: Result)
      modifies this
      ensures Contents() == Submit(old(Contents()), r)
      ensures result == ResultOf(old(Contents()), r)
      ensures result.InvalidReport? <==> r.inventory.None? || !r.hasText || r.user <= 0 || r.company <= 0
      ensures result.BelongsToAnotherCompany? <==>
        && !result.InvalidReport?
        && exists k :: 0 <= k < |old(plans)| && IsFirst(old(plans), k, r.inventory.value)
             && old(plans)[k].company.Some? && old(plans)[k].company.value != r.company
      ensures result.Extracted? || result.NotIndexed? ==>
        && r.analysis.Some?
        && var a := r.analysis.value;
           var p := Plan(a.inventory, Some(r.company), a.problem, a.details);
           && plans == (if forall k :: 0 <= k < |old(plans)| ==> old(plans)[k].inventory != r.inventory.value
                        then old(plans) + [p] else ReplaceFirst(old(plans), p))
           && index == if result.NotIndexed? then old(index)
                       else old(index)[p.inventory := Row(p.inventory, r.company, p.problem)]
      ensures !result.Extracted? && !result.NotIndexed? ==> plans == old(plans) && index == old(index)
    {
      if r.inventory.Some? {
        FindIsFirst(plans, r.inventory.value);
        FirstIsFound(plans, r.inventory.value);
      }
      if r.inventory.None? || !r.hasText || r.user <= 0 || r.company <= 0 {
        return InvalidReport;
      }
      var existing := GetByIdExternalInventory(r.inventory.value);
      if existing.Some? && existing.value.company.Some? && existing.value.company.value != r.company {
        return BelongsToAnotherCompany;
      }
      if r.analysis.None? {
        return AnalysisFailed;
      }
      if !r.stores {
        return NotStored;
      }
      var a := r.analysis.value;
      var plan := Plan(a.inventory, Some(r.company), a.problem, a.details);
      if existing.None? {
        Create(plan);
      } else {
        Replace(plan);
      }
      if !r.indexes {
        return NotIndexed;
      }
      UpsertProblem(a.inventory, a.problem, r.company);
      return Extracted;
    }

    method HydratePlans(hits: seq<Hit>, company: int) returns (documents: seq<Document>)
      ensures documents == Hydrated(plans, hits, company)
    {
      documents := [];
      for k := 0 to |hits|
        invariant documents == Hydrated(plans, hits[..k], company)
      {
        assert hits[..k + 1][..k] == hits[..k];
        if hits[k].NoInventory? {
          continue;
        }
        var plan := GetByIdExternalInventory(hits[k].inventory);
        if plan.None? || plan.value.company != Some(company) {
          continue;
        }
        documents := documents + [DocumentOf(plan.value)];
      }
      assert hits[..|hits|] == hits;
    }
  }
}
