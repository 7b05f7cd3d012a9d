/** The cost of a run and of a company, in micro-USD and exact arithmetic. */
module Costs {
  import opened Prices
  import opened SessionKeys
  import opened Text

  // What one agent used; `llm` may name several models.
  datatype Agent = Agent(llm: string, inputTokens: nat, outputTokens: nat)

  // A recorded run.
  datatype Metric = Metric(user: Option<int>, cost: int)

  datatype UserCost = UserCost(user: int, cost: int)

  datatype CompanyCost = CompanyCost(company: int, cost: int, users: seq<UserCost>)

  // ---- Rounding ----

  /** To the nearest whole number, halves to the even one. */
  function Round(x: real): (n: int)
    ensures -0.5 <= n as real - x <= 0.5
    ensures n as real - x == 0.5 || n as real - x == -0.5 ==> n % 2 == 0
  {
    var f := x.Floor;
    var rest := x - f as real;
    if rest < 0.5 then f
    else if rest > 0.5 then f + 1
    else if f % 2 == 0 then f
    else f + 1
  }

  /** A whole number stays as it is. */
  lemma RoundKeepsWhole(n: int)
    ensures Round(n as real) == n
  {
  }

  // ---- The cost of a run ----

  /** The pieces that are not blank, stripped. */
  function Parts(pieces: seq<string>): (parts: seq<string>)
    ensures "" !in parts
    ensures forall s :: s in pieces && Strip(s) != "" ==> Strip(s) in parts
  {
    if pieces == [] then []
    else if Strip(pieces[0]) == "" then Parts(pieces[1..])
    else [Strip(pieces[0])] + Parts(pieces[1..])
  }

  // The first priced model of the list, else the first model.
  function FirstPriced(parts: seq<string>, rows: seq<Row>): Option<Rates> {
    if parts == [] then None
    else if Lookup(parts[0], rows) != FREE then Some(Lookup(parts[0], rows))
    else FirstPriced(parts[1..], rows)
  }

  function AgentRates(llm: string, rows: seq<Row>): Rates {
    var parts := Parts(Split(llm, ','));
    if parts == [] then Lookup(llm, rows)
    else if FirstPriced(parts, rows).Some? then FirstPriced(parts, rows).value
    else Lookup(parts[0], rows)
  }

  // The exact cost of an agent's tokens, in micro-USD.
  function AgentCost(a: Agent, rows: seq<Row>): real {
    var rates := AgentRates(a.llm, rows);
    a.inputTokens as real * rates.input + a.outputTokens as real * rates.output
  }

  function ExactCost(agents: seq<Agent>, rows: seq<Row>): real {
    if agents == [] then 0.0 else ExactCost(agents[..|agents| - 1], rows) + AgentCost(agents[|agents| - 1], rows)
  }

  method RatesForAgentLlm(llm: string, rows: seq<Row>) returns (rates: Rates)
    ensures rates == AgentRates(llm, rows)
  {
    hide Lookup;
    var parts := Parts(Split(llm, ','));
    if parts == [] {
      rates := LookupRates(llm, rows);
      return;
    }
    for i := 0 to |parts|
      invariant FirstPriced(parts, rows) == FirstPriced(parts[i..], rows)
    {
      rates := LookupRates(parts[i], rows);
      if rates != FREE {
        return;
      }
    }
    rates := LookupRates(parts[0], rows);
  }

  /** The recorded cost is the exact one to within half a micro-USD. */
  method CostUsd(agents: seq<Agent>, prices: seq<Row>, fast: string, slow: string) returns (cost: int)
    ensures cost == Round(ExactCost(agents, Enrich(prices, fast, slow)))
    ensures -0.5 <= cost as real - ExactCost(agents, Enrich(prices, fast, slow)) <= 0.5
  {
    hide AgentRates, Enrich;
    var table := EnrichPrices(prices, fast, slow);
    var total := 0.0;
    for i := 0 to |agents|
      invariant total == ExactCost(agents[..i], table)
    {
      assert agents[..i + 1][..i] == agents[..i];
      var rates := RatesForAgentLlm(agents[i].llm, table);
      total := total + agents[i].inputTokens as real * rates.input;
      total := total + agents[i].outputTokens as real * rates.output;
    }
    assert agents[..|agents|] == agents;
    return Round(total);
  }

  /** A list of models costs what its first priced model costs; one that has no priced model is free. */
  lemma {:induction false} FirstPricedModelCounts(parts: seq<string>, rows: seq<Row>)
    ensures FirstPriced(parts, rows).None? <==> forall k :: 0 <= k < |parts| ==> Lookup(parts[k], rows) == FREE
    ensures FirstPriced(parts, rows).Some? ==>
      exists k :: 0 <= k < |parts| && FirstPriced(parts, rows) == Some(Lookup(parts[k], rows))
        && Lookup(parts[k], rows) != FREE && forall j :: 0 <= j < k ==> Lookup(parts[j], rows) == FREE
  {
    hide Lookup;
    if parts != [] && Lookup(parts[0], rows) == FREE {
      FirstPricedModelCounts(parts[1..], rows);
      if FirstPriced(parts[1..], rows).Some? {
        var k :| 0 <= k < |parts| - 1 && FirstPriced(parts[1..], rows) == Some(Lookup(parts[1..][k], rows))
          && Lookup(parts[1..][k], rows) != FREE && forall j :: 0 <= j < k ==> Lookup(parts[1..][j], rows) == FREE;
        assert parts[k + 1] == parts[1..][k];
        forall j | 0 <= j < k + 1 ensures Lookup(parts[j], rows) == FREE {
          assert j > 0 ==> parts[j] == parts[1..][j - 1];
        }
      }
    }
  }

  /** An input token costs the input rate and an output token the output rate, and no tokens cost nothing. */
  lemma AgentCostPerToken(llm: string, inputs: nat, outputs: nat, rows: seq<Row>)
    ensures AgentCost(Agent(llm, 0, 0), rows) == 0.0
    ensures AgentCost(Agent(llm, inputs + 1, outputs), rows)
      == AgentCost(Agent(llm, inputs, outputs), rows) + AgentRates(llm, rows).input
    ensures AgentCost(Agent(llm, inputs, outputs + 1), rows)
      == AgentCost(Agent(llm, inputs, outputs), rows) + AgentRates(llm, rows).output
  {
    hide AgentRates;
  }

  lemma WholeName(name: string)
    requires ',' !in name
    ensures Split(name, ',') == [name]
  {
    HeadFits(name, ',');
    var h := Head(name, ',');
    assert |h| == |name| && name[..|name|] == name;
  }

  lemma {:induction false} PartsOfSplit(name: string, rest: string)
    requires ',' !in name
    ensures Parts(Split(name + [','] + rest, ','))
      == (if Strip(name) == "" then [] else [Strip(name)]) + Parts(Split(rest, ','))
    ensures Parts(Split(name, ',')) == if Strip(name) == "" then [] else [Strip(name)]
  {
    hide Strip;
    SplitAfter(name, rest, ',');
    WholeName(name);
  }

  /**
   * Models are listed between commas: a priced first one decides, blank ones do not count, and an
   * unpriced first one leaves it to the others if one of them is priced.
   */
  lemma FirstListedModelDecides(name: string, rest: string, rows: seq<Row>)
    requires ',' !in name
    ensures Strip(name) != "" ==> AgentRates(name, rows) == Lookup(Strip(name), rows)
    ensures Strip(name) != "" && Lookup(Strip(name), rows) != FREE ==>
      AgentRates(name + [','] + rest, rows) == Lookup(Strip(name), rows)
    ensures Strip(name) == "" && Parts(Split(rest, ',')) != [] ==>
      AgentRates(name + [','] + rest, rows) == AgentRates(rest, rows)
    ensures Strip(name) != "" && Lookup(Strip(name), rows) == FREE && AgentRates(rest, rows) != FREE
            && Parts(Split(rest, ',')) != [] ==>
      AgentRates(name + [','] + rest, rows) == AgentRates(rest, rows)
  {
    hide Lookup, Strip, Split, Parts;
    PartsOfSplit(name, rest);
    var others := Parts(Split(rest, ','));
    assert [Strip(name)] + others != [] && ([Strip(name)] + others)[1..] == others;
    assert [] + others == others && [Strip(name)][1..] == [];
    var alone := [Strip(name)];
    assert FirstPriced(alone[1..], rows) == None;
    assert FirstPriced(alone, rows) == if Lookup(alone[0], rows) != FREE then Some(Lookup(alone[0], rows)) else None;
  }

  // ---- The cost of a company ----

  function UserTotal(metrics: seq<Metric>, user: int): int {
    if metrics == [] then 0
    else
      var m := metrics[|metrics| - 1];
      UserTotal(metrics[..|metrics| - 1], user) + if m.user == Some(user) then m.cost else 0
  }

  // What the runs that have a user cost together.
  function Recorded(metrics: seq<Metric>): int {
    if metrics == [] then 0
    else
      var m := metrics[|metrics| - 1];
      Recorded(metrics[..|metrics| - 1]) + if m.user.Some? then m.cost else 0
  }

  ghost predicate Pays(metrics: seq<Metric>, user: int) {
    exists k :: 0 <= k < |metrics| && metrics[k].user == Some(user)
  }

  function Sum(users: seq<UserCost>): int {
    if users == [] then 0 else Sum(users[..|users| - 1]) + users[|users| - 1].cost
  }

  function Ids(users: seq<UserCost>): (us: seq<int>)
    ensures |us| == |users| && forall k :: 0 <= k < |us| ==> us[k] == users[k].user
  {
    if users == [] then [] else [users[0].user] + Ids(users[1..])
  }

  ghost predicate Ascending(users: seq<UserCost>) {
    forall i, j :: 0 <= i < j < |users| ==> users[i].user < users[j].user
  }

  // One entry for each user of the metrics, with what that user cost.
  ghost predicate Tallies(users: seq<UserCost>, metrics: seq<Metric>) {
    && Distinct(Ids(users))
    && (forall u :: Pays(metrics, u) <==> u in Ids(users))
    && (forall x :: x in users ==> x.cost == UserTotal(metrics, x.user))
  }

  // The same, in the order of the users.
  ghost predicate Breakdown(users: seq<UserCost>, metrics: seq<Metric>) {
    Tallies(users, metrics) && Ascending(users)
  }

  function SumOver(us: seq<int>, metrics: seq<Metric>): int {
    if us == [] then 0 else SumOver(us[..|us| - 1], metrics) + UserTotal(metrics, us[|us| - 1])
  }

  predicate Distinct(us: seq<int>) {
    forall i, j :: 0 <= i < j < |us| ==> us[i] != us[j]
  }

  lemma {:induction false} OneMoreMetric(us: seq<int>, metrics: seq<Metric>, m: Metric)
    requires Distinct(us)
    ensures SumOver(us, metrics + [m])
      == SumOver(us, metrics) + if m.user.Some? && m.user.value in us then m.cost else 0
  {
    assert (metrics + [m])[..|metrics|] == metrics;
    if us != [] {
      OneMoreMetric(us[..|us| - 1], metrics, m);
      assert us == us[..|us| - 1] + [us[|us| - 1]];
    }
  }

  lemma {:induction false} SumOverNothing(us: seq<int>)
    ensures SumOver(us, []) == 0
  {
    if us != [] {
      SumOverNothing(us[..|us| - 1]);
    }
  }

  lemma {:induction false} UsersCoverRecorded(us: seq<int>, metrics: seq<Metric>)
    requires Distinct(us) && forall m :: m in metrics && m.user.Some? ==> m.user.value in us
    ensures SumOver(us, metrics) == Recorded(metrics)
  {
    if metrics == [] {
      SumOverNothing(us);
    } else {
      var n := |metrics| - 1;
      assert metrics == metrics[..n] + [metrics[n]];
      UsersCoverRecorded(us, metrics[..n]);
      OneMoreMetric(us, metrics[..n], metrics[n]);
    }
  }

  lemma {:induction false} SumIsSumOver(users: seq<UserCost>, metrics: seq<Metric>)
    requires forall x :: x in users ==> x.cost == UserTotal(metrics, x.user)
    ensures Sum(users) == SumOver(Ids(users), metrics)
  {
    hide UserTotal;
    if users != [] {
      var n := |users| - 1;
      assert users == users[..n] + [users[n]];
      SumIsSumOver(users[..n], metrics);
      assert Ids(users)[..n] == Ids(users[..n]);
    }
  }

  lemma EveryRunIsPaid(metrics: seq<Metric>, m: Metric)
    requires m in metrics && m.user.Some?
    ensures Pays(metrics, m.user.value)
  {
    var k :| 0 <= k < |metrics| && metrics[k] == m;
    assert metrics[k].user == Some(m.user.value);
  }

  /** The users' costs add up to the recorded costs of the runs that have a user. */
  lemma TalliesAddUp(users: seq<UserCost>, metrics: seq<Metric>)
    requires Tallies(users, metrics)
    ensures Sum(users) == Recorded(metrics)
  {
    hide UserTotal, Recorded, Ids, Pays;
    SumIsSumOver(users, metrics);
    forall m | m in metrics && m.user.Some? ensures m.user.value in Ids(users) {
      EveryRunIsPaid(metrics, m);
    }
    UsersCoverRecorded(Ids(users), metrics);
  }

  /** The metrics determine the list: there is only one. */
  lemma BreakdownIsUnique(a: seq<UserCost>, b: seq<UserCost>, metrics: seq<Metric>)
    requires Breakdown(a, metrics) && Breakdown(b, metrics)
    ensures a == b
  {
    SameFrom(a, b, metrics, 0);
  }

  // After a common beginning both lists continue with the same user.
  lemma {:induction false} SameFrom(a: seq<UserCost>, b: seq<UserCost>, metrics: seq<Metric>, i: nat)
    requires Breakdown(a, metrics) && Breakdown(b, metrics)
    requires i <= |a| && i <= |b| && a[..i] == b[..i]
    ensures a == b
    decreases |a| - i
  {
    hide UserTotal, Pays, Ids, Distinct;
    if i < |a| {
      PlaceInOther(a, b, metrics, i);
      PlaceInOther(b, a, metrics, i);
      assert a[i] in a && b[i] in b;
      assert a[..i + 1] == a[..i] + [a[i]] && b[..i + 1] == b[..i] + [b[i]];
      SameFrom(a, b, metrics, i + 1);
    } else if i < |b| {
      PlaceInOther(b, a, metrics, i);
    }
  }

  // What comes next in one list comes no earlier in the other.
  lemma PlaceInOther(a: seq<UserCost>, b: seq<UserCost>, metrics: seq<Metric>, i: nat)
    requires Breakdown(a, metrics) && Breakdown(b, metrics)
    requires i < |a| && i <= |b| && a[..i] == b[..i]
    ensures i < |b| && b[i].user <= a[i].user
  {
    hide UserTotal, Pays, Ids, Distinct;
    assert Ids(a)[i] == a[i].user && a[i].user in Ids(b);
    var k :| 0 <= k < |Ids(b)| && Ids(b)[k] == a[i].user;
    forall j | 0 <= j < i ensures b[j].user < a[i].user {
      assert a[..i][j] == b[..i][j];
    }
  }

  /** `totals[user] = totals.get(user, 0) + cost`, in a dictionary that keeps the order of its keys. */
  function Add(totals: seq<UserCost>, user: int, cost: int): seq<UserCost> {
    if totals == [] then [UserCost(user, cost)]
    else if totals[0].user == user then [UserCost(user, totals[0].cost + cost)] + totals[1..]
    else [totals[0]] + Add(totals[1..], user, cost)
  }

  lemma {:induction false} AddKeepsIds(totals: seq<UserCost>, user: int, cost: int)
    requires Distinct(Ids(totals))
    ensures Distinct(Ids(Add(totals, user, cost)))
    ensures forall u :: u in Ids(Add(totals, user, cost)) <==> u in Ids(totals) || u == user
  {
    if totals != [] {
      TailIsDistinct(totals);
      if totals[0].user == user {
        assert Ids(Add(totals, user, cost)) == Ids(totals);
      } else {
        AddKeepsIds(totals[1..], user, cost);
        assert Ids(totals) == [totals[0].user] + Ids(totals[1..]);
        var added := Add(totals[1..], user, cost);
        assert Ids([totals[0]] + added) == [totals[0].user] + Ids(added);
      }
    }
  }

  lemma TailIsDistinct(totals: seq<UserCost>)
    requires totals != [] && Distinct(Ids(totals))
    ensures Distinct(Ids(totals[1..])) && totals[0].user !in Ids(totals[1..])
  {
    var us := Ids(totals);
    assert forall k :: 0 <= k < |totals| - 1 ==> Ids(totals[1..])[k] == us[k + 1];
    assert us[0] == totals[0].user;
  }

  // What an entry was before: the same, or less by the new cost, or not there.
  ghost predicate Grew(totals: seq<UserCost>, user: int, cost: int, x: UserCost) {
    if x.user != user then x in totals
    else if user in Ids(totals) then UserCost(user, x.cost - cost) in totals
    else x.cost == cost
  }

  lemma {:induction false} AddChangesOne(totals: seq<UserCost>, user: int, cost: int, x: UserCost)
    requires Distinct(Ids(totals)) && x in Add(totals, user, cost)
    ensures Grew(totals, user, cost, x)
  {
    if totals != [] {
      TailIsDistinct(totals);
      assert totals == [totals[0]] + totals[1..] && Ids(totals) == [totals[0].user] + Ids(totals[1..]);
      if totals[0].user == user {
        MembersHaveIds(totals[1..]);
      } else if x != totals[0] {
        AddChangesOne(totals[1..], user, cost, x);
      }
    }
  }

  lemma MembersHaveIds(users: seq<UserCost>)
    ensures forall x :: x in users ==> x.user in Ids(users)
  {
    forall x | x in users ensures x.user in Ids(users) {
      var k :| 0 <= k < |users| && users[k] == x;
      assert Ids(users)[k] == x.user;
    }
  }

  lemma AddTallies(totals: seq<UserCost>, metrics: seq<Metric>, m: Metric)
    requires Tallies(totals, metrics)
    ensures Tallies(if m.user.Some? then Add(totals, m.user.value, m.cost) else totals, metrics + [m])
  {
    hide Ids, Distinct, Add, Pays;
    PayersOfOneMore(metrics, m);
    assert (metrics + [m])[..|metrics|] == metrics;
    if m.user.Some? {
      var user := m.user.value;
      AddKeepsIds(totals, user, m.cost);
      NewUserHasNothing(metrics, user);
      forall x | x in Add(totals, user, m.cost) ensures x.cost == UserTotal(metrics + [m], x.user) {
        AddChangesOne(totals, user, m.cost, x);
      }
    }
  }

  method TotalsByUser(metrics: seq<Metric>) returns (totals: seq<UserCost>)
    ensures Tallies(totals, metrics)
  {
    hide Tallies;
    totals := [];
    assert Tallies(totals, metrics[..0]) by { NothingTallies(); }
    for i := 0 to |metrics|
      invariant Tallies(totals, metrics[..i])
    {
      assert metrics[..i + 1] == metrics[..i] + [metrics[i]];
      AddTallies(totals, metrics[..i], metrics[i]);
      if metrics[i].user.None? {
        continue;
      }
      totals := Add(totals, metrics[i].user.value, metrics[i].cost);
    }
    assert metrics[..|metrics|] == metrics;
  }

  lemma NothingTallies()
    ensures Tallies([], [])
  {
  }

  lemma PayersOfOneMore(metrics: seq<Metric>, m: Metric)
    ensures forall u :: Pays(metrics + [m], u) <==> Pays(metrics, u) || m.user == Some(u)
  {
    var all := metrics + [m];
    forall u ensures Pays(all, u) <==> Pays(metrics, u) || m.user == Some(u) {
      if Pays(metrics, u) {
        var k :| 0 <= k < |metrics| && metrics[k].user == Some(u);
        assert all[k].user == Some(u);
      }
      if m.user == Some(u) {
        assert all[|metrics|].user == Some(u);
      }
    }
  }

  lemma {:induction false} NewUserHasNothing(metrics: seq<Metric>, user: int)
    ensures !Pays(metrics, user) ==> UserTotal(metrics, user) == 0
  {
    if metrics != [] && !Pays(metrics, user) {
      var n := |metrics| - 1;
      assert metrics == metrics[..n] + [metrics[n]];
      PayersOfOneMore(metrics[..n], metrics[n]);
      NewUserHasNothing(metrics[..n], user);
    }
  }

  // ---- Sorting ----

  function Insert(x: UserCost, sorted: seq<UserCost>): seq<UserCost> {
    if sorted == [] || x.user <= sorted[0].user then [x] + sorted else [sorted[0]] + Insert(x, sorted[1..])
  }

  /** `sorted(totals.items())`. */
  function Sorted(items: seq<UserCost>): seq<UserCost> {
    if items == [] then [] else Insert(items[0], Sorted(items[1..]))
  }

  lemma {:induction false} InsertKeepsOrder(x: UserCost, sorted: seq<UserCost>)
    requires Ascending(sorted) && x.user !in Ids(sorted)
    ensures Ascending(Insert(x, sorted))
    ensures forall y :: y in Insert(x, sorted) <==> y == x || y in sorted
  {
    if sorted != [] && x.user > sorted[0].user {
      assert sorted == [sorted[0]] + sorted[1..];
      InsertKeepsOrder(x, sorted[1..]);
      var rest := Insert(x, sorted[1..]);
      forall k | 0 <= k < |rest| ensures sorted[0].user < rest[k].user {
        assert rest[k] in rest;
      }
    } else if sorted != [] {
      assert x.user != Ids(sorted)[0];
    }
  }

  lemma {:induction false} SortedIsInOrder(items: seq<UserCost>)
    requires Distinct(Ids(items))
    ensures Ascending(Sorted(items))
    ensures forall y :: y in Sorted(items) <==> y in items
  {
    if items != [] {
      var rest := items[1..];
      assert items == [items[0]] + rest && Ids(items) == [items[0].user] + Ids(rest);
      assert Distinct(Ids(rest)) && items[0].user !in Ids(rest);
      SortedIsInOrder(rest);
      MembersHaveIds(rest);
      forall k | 0 <= k < |Sorted(rest)| ensures Ids(Sorted(rest))[k] != items[0].user {
        assert Sorted(rest)[k] in Sorted(rest);
      }
      InsertKeepsOrder(items[0], Sorted(rest));
    }
  }

  lemma AscendingIdsAreDistinct(users: seq<UserCost>)
    requires Ascending(users)
    ensures Distinct(Ids(users))
  {
    hide Ids;
  }

  lemma SameMembersSameIds(a: seq<UserCost>, b: seq<UserCost>)
    requires forall y :: y in a ==> y in b
    ensures forall u :: u in Ids(a) ==> u in Ids(b)
  {
    hide Ids;
    MembersHaveIds(b);
    forall u | u in Ids(a) ensures u in Ids(b) {
      var k :| 0 <= k < |a| && Ids(a)[k] == u;
      assert a[k] in b;
    }
  }

  lemma SortingGivesBreakdown(items: seq<UserCost>, metrics: seq<Metric>)
    requires Tallies(items, metrics)
    ensures Breakdown(Sorted(items), metrics)
  {
    hide Sorted, UserTotal, Pays, Ids, Ascending, Distinct;
    SortedIsInOrder(items);
    AscendingIdsAreDistinct(Sorted(items));
    SameMembersSameIds(items, Sorted(items));
    SameMembersSameIds(Sorted(items), items);
  }

  /** `metrics` are the company's runs of the last `n` days. */
  method CompanyCostOf(n: int, company: int, metrics: seq<Metric>) returns (cost: Option<CompanyCost>)
    ensures cost.None? <==> n <= 0 || company <= 0
    ensures cost.Some? ==>
      && cost.value.company == company && Breakdown(cost.value.users, metrics)
      && cost.value.cost == Sum(cost.value.users) == Recorded(metrics)
  {
    hide Tallies, Recorded, Ascending;
    if n <= 0 || company <= 0 {
      return None;
    }
    var totals := TotalsByUser(metrics);
    var sorted := Sorted(totals);
    SortingGivesBreakdown(totals, metrics);
    TalliesAddUp(sorted, metrics);
    var users: seq<UserCost> := [];
    for i := 0 to |sorted|
      invariant users == sorted[..i]
    {
      RoundKeepsWhole(sorted[i].cost);
      users := users + [UserCost(sorted[i].user, Round(sorted[i].cost as real))];
    }
    assert users == sorted;
    var total := 0;
    for i := 0 to |users|
      invariant total == Sum(users[..i])
    {
      assert users[..i + 1][..i] == users[..i];
      total := total + users[i].cost;
    }
    assert users[..|users|] == users;
    RoundKeepsWhole(total);
    return Some(CompanyCost(company, Round(total as real), users));
  }

  // ---- From tokens to the company's total ----

  // A run as it happened and as it was recorded.
  datatype PricedRun = PricedRun(user: Option<int>, agents: seq<Agent>, rows: seq<Row>)

  function RecordOf(run: PricedRun): Metric {
    Metric(run.user, Round(ExactCost(run.agents, run.rows)))
  }

  function RecordsOf(runs: seq<PricedRun>): (metrics: seq<Metric>)
    ensures |metrics| == |runs|
  {
    if runs == [] then [] else RecordsOf(runs[..|runs| - 1]) + [RecordOf(runs[|runs| - 1])]
  }

  // The exact token cost of the runs that have a user, and their number.
  function ExactTotal(runs: seq<PricedRun>): real {
    if runs == [] then 0.0
    else
      var run := runs[|runs| - 1];
      ExactTotal(runs[..|runs| - 1]) + if run.user.Some? then ExactCost(run.agents, run.rows) else 0.0
  }

  function Counted(runs: seq<PricedRun>): nat {
    if runs == [] then 0
    else Counted(runs[..|runs| - 1]) + if runs[|runs| - 1].user.Some? then 1 else 0
  }

  /** The company's total is off the exact token cost of its n counted runs by at most n/2 micro-USD. */
  lemma {:induction false} TotalIsNearExact(runs: seq<PricedRun>)
    ensures -(Counted(runs) as real) / 2.0
      <= Recorded(RecordsOf(runs)) as real - ExactTotal(runs) <= Counted(runs) as real / 2.0
  {
    hide ExactCost, Round;
    if runs != [] {
      var n := |runs| - 1;
      TotalIsNearExact(runs[..n]);
      assert RecordsOf(runs)[..n] == RecordsOf(runs[..n]);
    }
  }

  /** What the company is told: a total that is the sum over its users and near the exact cost. */
  method CompanyCostOfRuns(days: int, company: int, runs: seq<PricedRun>) returns (cost: Option<CompanyCost>)
    ensures cost.None? <==> days <= 0 || company <= 0
    ensures cost.Some? ==>
      && Breakdown(cost.value.users, RecordsOf(runs)) && cost.value.cost == Sum(cost.value.users)
      && -(Counted(runs) as real) / 2.0 <= cost.value.cost as real - ExactTotal(runs) <= Counted(runs) as real / 2.0
  {
    hide Recorded, UserTotal;
    TotalIsNearExact(runs);
    cost := CompanyCostOf(days, company, RecordsOf(runs));
  }
}
