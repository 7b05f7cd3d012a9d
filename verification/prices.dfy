/** The price table: how a model finds its rates, and the aliases of the configured models. */
module Prices {
  import opened SessionKeys
  import opened Text

  // USD per million tokens, which is also micro-USD per token.
  datatype Rates = Rates(input: real, output: real)

  // A row of the table; missing numbers count as zero.
  datatype Entry = Entry(input: Option<real>, output: Option<real>)

  // The rows in the order they were added; `Table` has one row per name.
  datatype Row = Row(name: string, entry: Entry)

  predicate Table(rows: seq<Row>) {
    forall i, j :: 0 <= i < j < |rows| ==> rows[i].name != rows[j].name
  }

  const FREE := Rates(0.0, 0.0)

  function Or(x: Option<real>): real {
    if x.Some? then x.value else 0.0
  }

  function RatesOf(entry: Entry): Rates {
    Rates(Or(entry.input), Or(entry.output))
  }

  // ---- Names ----

  function Lower(s: string): string {
    if s == "" then "" else [if 'A' <= s[0] <= 'Z' then (s[0] as int + 32) as char else s[0]] + Lower(s[1..])
  }

  /** Each capital becomes the small letter of the same place in the alphabet; all else stays as it is. */
  lemma {:induction false} LowerMapsLetters(s: string, i: nat)
    requires i < |s|
    ensures |Lower(s)| == |s|
    ensures if 'A' <= s[i] <= 'Z' then Lower(s)[i] as int - 'a' as int == s[i] as int - 'A' as int
            else Lower(s)[i] == s[i]
  {
    if |s| > 1 {
      LowerMapsLetters(s[1..], if i > 0 then i - 1 else 0);
    }
  }

  function LastSegment(s: string): string {
    var parts := Split(s, '/');
    parts[|parts| - 1]
  }

  const MODELS_PREFIX := "models/"

  function Normalize(model: string): string {
    var text := Lower(Strip(model));
    LastSegment(if MODELS_PREFIX <= text then text[|MODELS_PREFIX|..] else text)
  }

  lemma {:induction false} LastOfSplit(q: string, name: string)
    requires '/' !in name
    ensures LastSegment(q + ['/'] + name) == name
    decreases |q|
  {
    HeadFits(q, '/');
    HeadFits(name, '/');
    var h := Head(q, '/');
    if |h| == |q| {
      SplitAfter(q, name, '/');
      OnePart(name);
    } else {
      var rest := q[|h| + 1..];
      assert q + ['/'] + name == h + ['/'] + (rest + ['/'] + name);
      SplitAfter(h, rest + ['/'] + name, '/');
      LastOfSplit(rest, name);
    }
  }

  lemma OnePart(s: string)
    requires '/' !in s
    ensures LastSegment(s) == s && Split(s, '/') == [s]
  {
    HeadFits(s, '/');
  }

  /** The normalized id is what follows the last slash of the stripped id in lower case. */
  lemma NormalizeTakesLastName(model: string, q: string, name: string)
    requires '/' !in name
    ensures Lower(Strip(model)) == q + ['/'] + name ==> Normalize(model) == name
    ensures Lower(Strip(model)) == name ==> Normalize(model) == name
  {
    hide LastSegment, Lower, Strip;
    var text := Lower(Strip(model));
    OnePart(name);
    if text == q + ['/'] + name {
      LastOfSplit(q, name);
      if MODELS_PREFIX <= text {
        assert text[6] == '/';
        if |q| == 6 {
          assert text[7..] == name;
        } else {
          SlashBeforeName(q, name);
          assert text[7..] == q[7..] + ['/'] + name;
          LastOfSplit(q[7..], name);
        }
      }
    }
    assert MODELS_PREFIX <= name ==> name[6] == '/';
  }

  lemma SlashBeforeName(q: string, name: string)
    requires '/' !in name && |q + ['/'] + name| >= 7 && (q + ['/'] + name)[6] == '/' && |q| != 6
    ensures |q| > 6
  {
    var text := q + ['/'] + name;
    forall k | |q| < k < |text| ensures text[k] != '/' {
      assert text[k] == name[k - |q| - 1];
    }
  }

  predicate Contains(text: string, part: string) {
    exists i :: 0 <= i <= |text| - |part| && OccursAt(text, part, i)
  }

  predicate OccursAt(text: string, part: string, i: nat)
    requires i <= |text| - |part|
  {
    text[i..i + |part|] == part
  }

  // Two normalized names of which one contains the other.
  predicate Related(a: string, b: string) {
    Contains(a, b) || Contains(b, a)
  }

  // ---- Finding the rates of a model ----

  function FindRow(rows: seq<Row>, name: string): Option<Entry> {
    if rows == [] then None
    else if rows[0].name == name then Some(rows[0].entry)
    else FindRow(rows[1..], name)
  }

  function KeyLength(rows: seq<Row>, k: Option<nat>): nat
    requires k.Some? ==> k.value < |rows|
  {
    if k.Some? then |Normalize(rows[k.value].name)| else 0
  }

  // The row that the scan for related names ends with.
  function Longest(rows: seq<Row>, model: string): (k: Option<nat>)
    ensures k.Some? ==> k.value < |rows|
  {
    if rows == [] then None
    else
      var n := |rows| - 1;
      var best := Longest(rows[..n], model);
      var key := Normalize(rows[n].name);
      if Related(key, model) && |key| > KeyLength(rows[..n], best) then Some(n) else best
  }

  function Lookup(model: string, rows: seq<Row>): Rates {
    var raw := Strip(model);
    if raw == "" then FREE
    else if FindRow(rows, raw).Some? then RatesOf(FindRow(rows, raw).value)
    else if FindRow(rows, Normalize(raw)).Some? then RatesOf(FindRow(rows, Normalize(raw)).value)
    else
      var k := Longest(rows, Normalize(raw));
      if k.Some? then RatesOf(rows[k.value].entry) else FREE
  }

  // Row `k` is related to the model by a non-empty name, none is longer, and none before it as long.
  ghost predicate IsFirstLongest(rows: seq<Row>, model: string, k: nat) {
    && k < |rows| && IsCandidate(rows[k], model)
    && (forall j :: 0 <= j < |rows| && IsCandidate(rows[j], model) ==>
          |Normalize(rows[j].name)| <= |Normalize(rows[k].name)|)
    && (forall j :: 0 <= j < k && IsCandidate(rows[j], model) ==>
          |Normalize(rows[j].name)| < |Normalize(rows[k].name)|)
  }

  ghost predicate IsCandidate(row: Row, model: string) {
    Related(Normalize(row.name), model) && Normalize(row.name) != ""
  }

  /** The scan picks the first longest related row, and none exactly when none is related. */
  lemma {:induction false} LongestIsFirstLongest(rows: seq<Row>, model: string)
    ensures forall k: nat :: Longest(rows, model) == Some(k) <==> IsFirstLongest(rows, model, k)
    ensures Longest(rows, model).None? <==> forall k :: 0 <= k < |rows| ==> !IsCandidate(rows[k], model)
  {
    hide Normalize, Related;
    if rows != [] {
      var n := |rows| - 1;
      LongestIsFirstLongest(rows[..n], model);
      var best := Longest(rows[..n], model);
      if best.Some? {
        assert IsFirstLongest(rows[..n], model, best.value);
      }
      if Longest(rows, model).Some? {
        FirstLongestIsUnique(rows, model, Longest(rows, model).value);
      }
    }
  }

  lemma FirstLongestIsUnique(rows: seq<Row>, model: string, k: nat)
    requires IsFirstLongest(rows, model, k)
    ensures forall j: nat :: IsFirstLongest(rows, model, j) ==> j == k
  {
    hide Normalize, Related;
  }

  lemma {:induction false} FindRowIsRow(rows: seq<Row>, name: string)
    ensures FindRow(rows, name).Some? <==> exists k :: 0 <= k < |rows| && rows[k].name == name
    ensures Table(rows) ==>
      forall k :: 0 <= k < |rows| && rows[k].name == name ==> FindRow(rows, name) == Some(rows[k].entry)
  {
    if rows != [] {
      FindRowIsRow(rows[1..], name);
      if k :| 0 <= k < |rows| && rows[k].name == name {
        assert k == 0 || rows[1..][k - 1].name == name;
      }
      if FindRow(rows[1..], name).Some? {
        var k :| 0 <= k < |rows[1..]| && rows[1..][k].name == name;
        assert rows[k + 1].name == name;
      }
    }
  }

  // Row `k` has the name, and none before it has.
  ghost predicate IsNamed(rows: seq<Row>, name: string, k: nat) {
    k < |rows| && rows[k].name == name && forall j :: 0 <= j < k ==> rows[j].name != name
  }

  ghost predicate NoneNamed(rows: seq<Row>, name: string) {
    forall k :: 0 <= k < |rows| ==> rows[k].name != name
  }

  lemma {:induction false} FindRowIsNamed(rows: seq<Row>, name: string)
    ensures FindRow(rows, name).None? <==> NoneNamed(rows, name)
    ensures forall k: nat :: IsNamed(rows, name, k) ==> FindRow(rows, name) == Some(rows[k].entry)
  {
    if rows != [] {
      FindRowIsNamed(rows[1..], name);
      if rows[0].name != name {
        assert forall k :: 0 < k < |rows| ==> rows[1..][k - 1] == rows[k];
        forall k: nat | IsNamed(rows, name, k) ensures IsNamed(rows[1..], name, k - 1) {
        }
      }
    }
  }

  // The entry's own numbers, zero where it has none.
  ghost predicate Charges(rates: Rates, entry: Entry) {
    && rates.input == (match entry.input case Some(x) => x case None => 0.0)
    && rates.output == (match entry.output case Some(x) => x case None => 0.0)
  }

  // Where a model's rates come from, by the rows alone.
  ghost predicate ChargedBy(rates: Rates, rows: seq<Row>, raw: string) {
    if raw == "" then rates == Rates(0.0, 0.0)
    else if !NoneNamed(rows, raw) then forall k: nat :: IsNamed(rows, raw, k) ==> Charges(rates, rows[k].entry)
    else if !NoneNamed(rows, Normalize(raw)) then
      forall k: nat :: IsNamed(rows, Normalize(raw), k) ==> Charges(rates, rows[k].entry)
    else
      && (forall k: nat :: IsFirstLongest(rows, Normalize(raw), k) ==> Charges(rates, rows[k].entry))
      && ((forall k :: 0 <= k < |rows| ==> !IsCandidate(rows[k], Normalize(raw))) ==> rates == Rates(0.0, 0.0))
  }

  /**
   * A model's rates are those of the row of its exact name, else of the row of its normalized name,
   * else of the first longest related row, and zero when there is none of these.
   */
  lemma LookupIsCharged(model: string, rows: seq<Row>)
    ensures ChargedBy(Lookup(model, rows), rows, Strip(model))
  {
    hide Normalize, Related, FindRow, IsFirstLongest, NoneNamed, IsNamed, Strip, IsCandidate;
    var raw := Strip(model);
    LongestIsFirstLongest(rows, Normalize(raw));
    FindRowIsNamed(rows, raw);
    FindRowIsNamed(rows, Normalize(raw));
  }

  method LookupRates(model: string, rows: seq<Row>) returns (rates: Rates)
    ensures rates == Lookup(model, rows)
    ensures ChargedBy(rates, rows, Strip(model))
  {
    LookupIsCharged(model, rows);
    hide Normalize, Related, FindRow, IsFirstLongest, ChargedBy;
    var raw := Strip(model);
    if raw == "" {
      return FREE;
    }
    var exact := FindRow(rows, raw);
    if exact.Some? {
      return RatesOf(exact.value);
    }
    var normModel := Normalize(raw);
    var normalized := FindRow(rows, normModel);
    if normalized.Some? {
      return RatesOf(normalized.value);
    }
    var bestKey: Option<nat>, bestLen := None, 0;
    for i := 0 to |rows|
      invariant bestKey == Longest(rows[..i], normModel)
      invariant bestLen == KeyLength(rows[..i], bestKey)
    {
      assert rows[..i + 1][..i] == rows[..i];
      var normKey := Normalize(rows[i].name);
      if Contains(normModel, normKey) || Contains(normKey, normModel) {
        assert Related(normKey, normModel) by { RelatedEitherWay(normKey, normModel); }
        if |normKey| > bestLen {
          bestLen, bestKey := |normKey|, Some(i);
        }
      } else {
        assert !Related(normKey, normModel) by { RelatedEitherWay(normKey, normModel); }
      }
    }
    assert rows[..|rows|] == rows;
    return if bestKey.Some? then RatesOf(rows[bestKey.value].entry) else FREE;
  }

  lemma RelatedEitherWay(a: string, b: string)
    ensures Related(a, b) <==> Contains(b, a) || Contains(a, b)
  {
  }

  // ---- Aliases of the configured models ----

  const FLASH_LITE := "flash-lite"

  // A row whose rates an unpriced configured model may take over.
  predicate Lends(row: Row, model: string) {
    var normKey, normModel := Normalize(row.name), Normalize(model);
    Related(normKey, normModel) || (Contains(normModel, FLASH_LITE) && Contains(normKey, FLASH_LITE))
  }

  function FirstLender(rows: seq<Row>, model: string): Option<Entry> {
    if rows == [] then None
    else if Lends(rows[0], model) then Some(rows[0].entry)
    else FirstLender(rows[1..], model)
  }

  // The row added for a configured model, if any.
  function Alias(enriched: seq<Row>, rows: seq<Row>, setting: string): Option<Row> {
    var model := Strip(setting);
    if model == "" || FindRow(enriched, model).Some? then None
    else
      var rates := Lookup(model, rows);
      if rates != FREE then Some(Row(model, Entry(Some(rates.input), Some(rates.output))))
      else
        var lender := FirstLender(rows, model);
        if lender.Some? then Some(Row(model, lender.value)) else None
  }

  function WithAlias(enriched: seq<Row>, rows: seq<Row>, setting: string): seq<Row> {
    var alias := Alias(enriched, rows, setting);
    if alias.Some? then enriched + [alias.value] else enriched
  }

  /** Both settings are matched against the table as it was. */
  function Enrich(rows: seq<Row>, fast: string, slow: string): seq<Row> {
    WithAlias(WithAlias(rows, rows, fast), rows, slow)
  }

  lemma ContainsItself(s: string)
    ensures Contains(s, s)
  {
    assert OccursAt(s, s, 0);
  }

  /** Adds the alias of each configured model in turn; an unpriced one takes over the first lender's row. */
  method EnrichPrices(prices: seq<Row>, fast: string, slow: string) returns (enriched: seq<Row>)
    ensures enriched == Enrich(prices, fast, slow)
  {
    hide Lookup, Normalize, Contains, Strip;
    var settings := [fast, slow];
    enriched := prices;
    for i := 0 to |settings|
      invariant enriched
        == match i case 0 => prices case 1 => WithAlias(prices, prices, fast) case _ => Enrich(prices, fast, slow)
    {
      var model := Strip(settings[i]);
      if model == "" || FindRow(enriched, model).Some? {
        continue;
      }
      var rates := LookupRates(model, prices);
      if rates.input != 0.0 || rates.output != 0.0 {
        enriched := enriched + [Row(model, Entry(Some(rates.input), Some(rates.output)))];
        continue;
      }
      for k := 0 to |prices|
        invariant FirstLender(prices, model) == FirstLender(prices[k..], model)
      {
        var normKey, normModel := Normalize(prices[k].name), Normalize(model);
        if normKey == normModel || Contains(normModel, normKey) || Contains(normKey, normModel)
          || (Contains(normModel, "flash-lite") && Contains(normKey, "flash-lite")) {
          ContainsItself(normModel);
          enriched := enriched + [Row(model, prices[k].entry)];
          break;
        }
      }
    }
  }

  lemma AliasIsNew(enriched: seq<Row>, rows: seq<Row>, setting: string)
    requires Table(enriched)
    ensures Table(WithAlias(enriched, rows, setting)) && enriched <= WithAlias(enriched, rows, setting)
  {
    hide Lookup, FirstLender;
    FindRowIsRow(enriched, Strip(setting));
  }

  /** Enriching keeps every row and adds at most the two configured names. */
  lemma EnrichKeepsRows(rows: seq<Row>, fast: string, slow: string)
    requires Table(rows)
    ensures var enriched := Enrich(rows, fast, slow);
      && Table(enriched) && rows <= enriched && |enriched| <= |rows| + 2
      && forall k :: |rows| <= k < |enriched| ==> enriched[k].name == Strip(fast) || enriched[k].name == Strip(slow)
  {
    hide Lookup, FirstLender;
    AliasIsNew(rows, rows, fast);
    AliasIsNew(WithAlias(rows, rows, fast), rows, slow);
  }

  lemma RowsKeepRates(rows: seq<Row>, more: seq<Row>, name: string)
    requires Table(more) && rows <= more && FindRow(rows, name).Some?
    ensures FindRow(more, name) == FindRow(rows, name)
  {
    FindRowIsRow(rows, name);
    FindRowIsRow(more, name);
    var k :| 0 <= k < |rows| && rows[k].name == name;
    assert more[k] == rows[k];
    assert Table(rows) by {
      forall i, j | 0 <= i < j < |rows| ensures rows[i].name != rows[j].name {
        assert more[i] == rows[i] && more[j] == rows[j];
      }
    }
  }

  // A configured model has its own row afterwards if it had rates before, and the same rates.
  lemma AliasKeepsRates(enriched: seq<Row>, rows: seq<Row>, setting: string)
    requires Table(enriched) && rows <= enriched && Table(rows)
    requires Lookup(setting, rows) != FREE
    requires FindRow(enriched, Strip(setting)).Some? ==>
      RatesOf(FindRow(enriched, Strip(setting)).value) == Lookup(setting, rows)
    ensures var after := WithAlias(enriched, rows, setting);
      FindRow(after, Strip(setting)).Some? && RatesOf(FindRow(after, Strip(setting)).value) == Lookup(setting, rows)
  {
    hide FirstLender, Longest, Normalize;
    StripLeavesNothing(setting);
    AliasIsNew(enriched, rows, setting);
    var after := WithAlias(enriched, rows, setting);
    FindRowIsRow(after, Strip(setting));
    if FindRow(enriched, Strip(setting)).None? {
      assert after[|enriched|].name == Strip(setting);
    }
  }

  /** A configured model that had rates has the same rates afterwards. */
  lemma EnrichKeepsConfiguredRates(rows: seq<Row>, fast: string, slow: string, setting: string)
    requires Table(rows) && (setting == fast || setting == slow) && Lookup(setting, rows) != FREE
    ensures Lookup(setting, Enrich(rows, fast, slow)) == Lookup(setting, rows)
  {
    hide Lookup, WithAlias, FirstLender, Table;
    var once := WithAlias(rows, rows, fast);
    AliasIsNew(rows, rows, fast);
    AliasIsNew(once, rows, slow);
    ExactRowGivesRates(setting, rows);
    if setting == fast {
      AliasKeepsRates(rows, rows, fast);
      RowsKeepRates(once, Enrich(rows, fast, slow), Strip(fast));
    } else {
      SlowRowBefore(rows, fast, slow);
      AliasKeepsRates(once, rows, slow);
    }
    ExactRowGivesRates(setting, Enrich(rows, fast, slow));
  }

  lemma ExactRowGivesRates(model: string, rows: seq<Row>)
    ensures FindRow(rows, Strip(model)).Some? && Strip(model) != "" ==>
      Lookup(model, rows) == RatesOf(FindRow(rows, Strip(model)).value)
    ensures Lookup(model, rows) != FREE ==> Strip(model) != ""
  {
  }

  // If the slow model already has a row before its turn, that row gives its old rates.
  lemma SlowRowBefore(rows: seq<Row>, fast: string, slow: string)
    requires Table(rows) && Lookup(slow, rows) != FREE
    ensures var once := WithAlias(rows, rows, fast);
      FindRow(once, Strip(slow)).Some? ==> RatesOf(FindRow(once, Strip(slow)).value) == Lookup(slow, rows)
  {
    hide FirstLender, Longest, Normalize;
    var once := WithAlias(rows, rows, fast);
    AliasIsNew(rows, rows, fast);
    StripLeavesNothing(slow);
    StripLeavesNothing(fast);
    if FindRow(rows, Strip(slow)).Some? {
      RowsKeepRates(rows, once, Strip(slow));
    } else if FindRow(once, Strip(slow)).Some? {
      FindRowIsRow(once, Strip(slow));
      FindRowIsRow(rows, Strip(slow));
      assert once[|rows|].name == Strip(slow) == Strip(fast);
    }
  }

  // ---- Who takes over whose rates ----

  ghost predicate NoUpper(s: string) {
    forall c :: c in s ==> !('A' <= c <= 'Z')
  }

  lemma {:induction false} LowerHasNoUpper(s: string)
    ensures NoUpper(Lower(s)) && (NoUpper(s) ==> Lower(s) == s)
  {
    if s != "" {
      LowerHasNoUpper(s[1..]);
      assert s == [s[0]] + s[1..] && s[0] in s;
      assert forall c :: c in s[1..] ==> c in s;
    }
  }

  lemma {:induction false} SegmentHasNoOtherLetters(s: string)
    ensures forall k, c :: 0 <= k < |Split(s, '/')| && c in Split(s, '/')[k] ==> c in s
    decreases |s|
  {
    HeadFits(s, '/');
    var h := Head(s, '/');
    if |h| < |s| {
      var rest := s[|h| + 1..];
      SegmentHasNoOtherLetters(rest);
      assert forall c :: c in rest ==> c in s;
    }
  }

  lemma NormalizedIsPlain(model: string)
    ensures '/' !in Normalize(model) && NoUpper(Normalize(model))
  {
    hide Lower, Strip, Split;
    var text := Lower(Strip(model));
    LowerHasNoUpper(Strip(model));
    var segment := if MODELS_PREFIX <= text then text[|MODELS_PREFIX|..] else text;
    assert forall c :: c in segment ==> c in text;
    SegmentHasNoOtherLetters(segment);
    forall c | c in Normalize(model) ensures c in text {
      assert Normalize(model) == Split(segment, '/')[|Split(segment, '/')| - 1];
    }
  }

  lemma {:induction false} StripRightIsPrefix(s: string)
    ensures StripRight(s) <= s
  {
    if s != "" && IsSpace(s[|s| - 1]) {
      StripRightIsPrefix(s[..|s| - 1]);
    }
  }

  lemma {:induction false} StripLeftIsSuffix(s: string) returns (i: nat)
    ensures i <= |s| && StripLeft(s) == s[i..]
  {
    if s != "" && IsSpace(s[0]) {
      i := StripLeftIsSuffix(s[1..]);
      i := i + 1;
    } else {
      i := 0;
    }
  }

  lemma ContainsStripped(s: string)
    ensures Contains(s, Strip(s)) && forall c :: c in Strip(s) ==> c in s
  {
    var i := StripLeftIsSuffix(s);
    StripRightIsPrefix(s[i..]);
    assert OccursAt(s, Strip(s), i);
  }

  /** Normalizing a normalized name gives a part of it, so a row under that name is related. */
  lemma NormalizedNameIsRelated(model: string)
    ensures Related(Normalize(Normalize(model)), Normalize(model))
  {
    hide Lower, Strip, Contains;
    var name := Normalize(model);
    NormalizedIsPlain(model);
    ContainsStripped(name);
    LowerHasNoUpper(Strip(name));
    NormalizeTakesLastName(name, "", Strip(name));
  }

  // One configured model may take over the other's row, by their names alone.
  predicate Kin(a: string, b: string) {
    var m, n := Normalize(Strip(a)), Normalize(Strip(b));
    Contains(m, n) || Contains(n, m) || (Contains(m, FLASH_LITE) && Contains(n, FLASH_LITE))
  }

  ghost predicate Missing(rows: seq<Row>, setting: string) {
    Strip(setting) != "" && forall k :: 0 <= k < |rows| ==> rows[k].name != Strip(setting)
  }

  ghost predicate HasLender(rows: seq<Row>, setting: string) {
    exists k :: 0 <= k < |rows| && Kin(rows[k].name, setting)
  }

  // Enriching adds a row for the model: it has none, and some row is kin to it.
  ghost predicate Adopts(rows: seq<Row>, setting: string) {
    Missing(rows, setting) && HasLender(rows, setting)
  }

  // The model has no row, and nothing to take one from.
  ghost predicate Waits(rows: seq<Row>, setting: string) {
    Missing(rows, setting) && !HasLender(rows, setting)
  }

  lemma LendsByName(row: Row, setting: string)
    ensures Lends(row, Strip(setting)) <==> Kin(row.name, setting)
  {
    StripLeavesNothing(setting);
    NormalizeIgnoresStrip(row.name);
    hide Normalize, Contains, Strip;
  }

  lemma NormalizeIgnoresStrip(model: string)
    ensures Normalize(Strip(model)) == Normalize(model)
  {
    StripLeavesNothing(model);
  }

  lemma {:induction false} FirstLenderIffSome(rows: seq<Row>, setting: string)
    ensures FirstLender(rows, Strip(setting)).Some? <==> HasLender(rows, setting)
  {
    hide Lends, Kin, Strip;
    if rows != [] {
      LendsByName(rows[0], setting);
      FirstLenderIffSome(rows[1..], setting);
      if k :| 0 < k < |rows| && Kin(rows[k].name, setting) {
        assert rows[1..][k - 1] == rows[k];
      }
      if k :| 0 <= k < |rows[1..]| && Kin(rows[1..][k].name, setting) {
        assert rows[k + 1] == rows[1..][k];
      }
    }
  }

  // Rates that are not under the model's own name come from a row that lends.
  lemma PricedHasLender(rows: seq<Row>, setting: string)
    requires FindRow(rows, Strip(setting)).None? && Lookup(Strip(setting), rows) != FREE
    ensures HasLender(rows, setting)
  {
    hide Normalize, Contains, Strip, Kin;
    StripLeavesNothing(setting);
    var model := Strip(setting);
    if k :| 0 <= k < |rows| && rows[k].name == Normalize(model) {
      NormalizedNameIsRelated(model);
      LendsByName(rows[k], setting);
    } else {
      FindRowIsRow(rows, Normalize(model));
      LongestIsFirstLongest(rows, Normalize(model));
      var k := Longest(rows, Normalize(model)).value;
      assert IsFirstLongest(rows, Normalize(model), k);
      LendsByName(rows[k], setting);
    }
  }

  /** A configured model gets a row exactly when it has none and a row is kin to it by name. */
  lemma AliasIffAdopts(rows: seq<Row>, setting: string)
    ensures Alias(rows, rows, setting).Some? <==> Adopts(rows, setting)
    ensures Alias(rows, rows, setting).Some? ==> Alias(rows, rows, setting).value.name == Strip(setting)
  {
    hide Lookup, FirstLender, Strip, Kin;
    FindRowIsRow(rows, Strip(setting));
    FirstLenderIffSome(rows, setting);
    if FindRow(rows, Strip(setting)).None? && Lookup(Strip(setting), rows) != FREE {
      PricedHasLender(rows, setting);
    }
  }

  ghost predicate IsFirstLender(rows: seq<Row>, setting: string, k: nat) {
    k < |rows| && Kin(rows[k].name, setting) && forall j :: 0 <= j < k ==> !Kin(rows[j].name, setting)
  }

  lemma {:induction false} FirstLenderIsFirst(rows: seq<Row>, setting: string)
    ensures forall k: nat :: IsFirstLender(rows, setting, k) ==>
      FirstLender(rows, Strip(setting)) == Some(rows[k].entry)
  {
    hide Kin, Strip, Lends;
    if rows != [] {
      LendsByName(rows[0], setting);
      FirstLenderIsFirst(rows[1..], setting);
      assert forall k :: 0 < k < |rows| ==> rows[1..][k - 1] == rows[k];
      if !Kin(rows[0].name, setting) {
        forall k: nat | IsFirstLender(rows, setting, k) ensures IsFirstLender(rows[1..], setting, k - 1) {
        }
      }
    }
  }

  /**
   * The row a configured model gets has the rates the table already gave the model, and if those are
   * zero, the entry of the first row that is kin to it.
   */
  lemma AliasTakesRates(enriched: seq<Row>, rows: seq<Row>, setting: string)
    requires Alias(enriched, rows, setting).Some?
    ensures var row, rates := Alias(enriched, rows, setting).value, Lookup(Strip(setting), rows);
      && row.name == Strip(setting)
      && (rates.input != 0.0 || rates.output != 0.0 ==> row.entry == Entry(Some(rates.input), Some(rates.output)))
      && (rates.input == 0.0 && rates.output == 0.0 ==>
            forall k: nat :: IsFirstLender(rows, setting, k) ==> row.entry == rows[k].entry)
  {
    hide Lookup, FirstLender, IsFirstLender, Strip;
    FirstLenderIsFirst(rows, setting);
  }

  /** Enriching changes nothing exactly when no configured model without a row is kin to a row. */
  lemma EnrichIsIdentityIff(rows: seq<Row>, fast: string, slow: string)
    ensures Enrich(rows, fast, slow) == rows <==> !Adopts(rows, fast) && !Adopts(rows, slow)
  {
    hide Alias, Adopts;
    AliasIffAdopts(rows, fast);
    AliasIffAdopts(rows, slow);
    var once := WithAlias(rows, rows, fast);
    assert |rows| <= |once| <= |Enrich(rows, fast, slow)|;
  }

  /** In particular when every configured model has a row. */
  lemma PresentModelsNeedNoEnriching(rows: seq<Row>, fast: string, slow: string)
    requires Strip(fast) == "" || FindRow(rows, Strip(fast)).Some?
    requires Strip(slow) == "" || FindRow(rows, Strip(slow)).Some?
    ensures Enrich(rows, fast, slow) == rows
  {
    hide Strip;
    FindRowIsRow(rows, Strip(fast));
    FindRowIsRow(rows, Strip(slow));
    EnrichIsIdentityIff(rows, fast, slow);
  }

  // ---- Enriching twice ----

  lemma EnrichedAlias(enriched: seq<Row>, rows: seq<Row>, setting: string)
    requires rows <= enriched && forall k :: |rows| <= k < |enriched| ==> enriched[k].name != Strip(setting)
    ensures Alias(enriched, rows, setting) == Alias(rows, rows, setting)
  {
    hide Lookup, FirstLender, Strip;
    FindRowIsRow(rows, Strip(setting));
    FindRowIsRow(enriched, Strip(setting));
    if k :| 0 <= k < |rows| && rows[k].name == Strip(setting) {
      assert enriched[k].name == Strip(setting);
    }
  }

  // The names that enriching adds, in order.
  ghost function AddedNames(rows: seq<Row>, fast: string, slow: string): seq<string> {
    (if Adopts(rows, fast) then [Strip(fast)] else [])
    + (if Adopts(rows, slow) && !(Adopts(rows, fast) && Strip(slow) == Strip(fast)) then [Strip(slow)] else [])
  }

  lemma EnrichAddsNames(rows: seq<Row>, fast: string, slow: string)
    ensures var once, added := Enrich(rows, fast, slow), AddedNames(rows, fast, slow);
      && rows <= once && |once| == |rows| + |added|
      && forall k :: 0 <= k < |added| ==> once[|rows| + k].name == added[k]
  {
    hide Alias, Adopts, Strip;
    AliasIffAdopts(rows, fast);
    AliasIffAdopts(rows, slow);
    var first := WithAlias(rows, rows, fast);
    if Adopts(rows, fast) && Strip(slow) == Strip(fast) {
      FindRowIsRow(first, Strip(slow));
      assert first[|rows|].name == Strip(slow);
      PresentGetsNoAlias(first, rows, slow);
    } else {
      EnrichedAlias(first, rows, slow);
    }
  }

  lemma PresentGetsNoAlias(enriched: seq<Row>, rows: seq<Row>, setting: string)
    requires FindRow(enriched, Strip(setting)).Some?
    ensures Alias(enriched, rows, setting).None?
  {
  }

  // After enriching, a model adopts a row exactly when it waited and the other's row is kin to it.
  lemma AdoptsLater(rows: seq<Row>, once: seq<Row>, added: seq<string>, setting: string)
    requires rows <= once && |once| == |rows| + |added|
    requires forall k :: 0 <= k < |added| ==> once[|rows| + k].name == added[k]
    requires Adopts(rows, setting) ==> Strip(setting) in added
    ensures Adopts(once, setting) <==>
      Waits(rows, setting) && Strip(setting) !in added && exists k :: 0 <= k < |added| && Kin(added[k], setting)
  {
    hide Kin, Strip;
    MissingLater(rows, once, added, setting);
    HasLenderLater(rows, once, added, setting);
  }

  lemma MissingLater(rows: seq<Row>, once: seq<Row>, added: seq<string>, setting: string)
    requires rows <= once && |once| == |rows| + |added|
    requires forall k :: 0 <= k < |added| ==> once[|rows| + k].name == added[k]
    ensures Missing(once, setting) <==> Missing(rows, setting) && Strip(setting) !in added
  {
    hide Strip;
    forall k | 0 <= k < |rows| ensures once[k] == rows[k] {
    }
    if Strip(setting) in added {
      var k :| 0 <= k < |added| && added[k] == Strip(setting);
      assert once[|rows| + k].name == Strip(setting);
    }
    if Missing(rows, setting) && Strip(setting) !in added {
      forall k | 0 <= k < |once| ensures once[k].name != Strip(setting) {
        assert k >= |rows| ==> once[k].name == added[k - |rows|];
      }
    }
    if Missing(once, setting) {
      forall k | 0 <= k < |rows| ensures rows[k].name != Strip(setting) {
        assert once[k] == rows[k];
      }
    }
  }

  lemma HasLenderLater(rows: seq<Row>, once: seq<Row>, added: seq<string>, setting: string)
    requires rows <= once && |once| == |rows| + |added|
    requires forall k :: 0 <= k < |added| ==> once[|rows| + k].name == added[k]
    ensures HasLender(once, setting)
      <==> HasLender(rows, setting) || exists k :: 0 <= k < |added| && Kin(added[k], setting)
  {
    hide Kin;
    if k :| 0 <= k < |once| && Kin(once[k].name, setting) {
      assert if k < |rows| then once[k] == rows[k] else once[k].name == added[k - |rows|];
      assert if k < |rows| then Kin(rows[k].name, setting) else Kin(added[k - |rows|], setting);
    }
    if k :| 0 <= k < |added| && Kin(added[k], setting) {
      assert Kin(once[|rows| + k].name, setting);
    }
    if k :| 0 <= k < |rows| && Kin(rows[k].name, setting) {
      assert once[k] == rows[k] && Kin(once[k].name, setting);
    }
  }

  lemma KinIsSymmetric(a: string, b: string)
    ensures Kin(a, b) <==> Kin(b, a)
    ensures Kin(Strip(a), b) <==> Kin(a, b)
  {
    StripLeavesNothing(a);
  }

  /**
   * Loading the table enriches it and pricing enriches it again. The second time adds a row exactly
   * when one configured model adopted a row from the loaded table, the other still waits, and the
   * two are kin: a condition on the loaded table and the two names.
   */
  lemma EnrichTwiceIff(rows: seq<Row>, fast: string, slow: string)
    ensures var once := Enrich(rows, fast, slow);
      Enrich(once, fast, slow) != once
      <==> Kin(fast, slow) && ((Adopts(rows, fast) && Waits(rows, slow)) || (Adopts(rows, slow) && Waits(rows, fast)))
  {
    hide Enrich, Kin, Strip, HasLender;
    var once, added := Enrich(rows, fast, slow), AddedNames(rows, fast, slow);
    EnrichAddsNames(rows, fast, slow);
    EnrichIsIdentityIff(once, fast, slow);
    AdoptsLater(rows, once, added, fast);
    AdoptsLater(rows, once, added, slow);
    KinIsSymmetric(fast, slow);
    KinIsSymmetric(slow, fast);
    SameNameAdopts(rows, fast, slow);
    if Adopts(rows, fast) && Waits(rows, slow) {
      assert added == [Strip(fast)];
    } else if Adopts(rows, slow) && Waits(rows, fast) {
      assert added == [Strip(slow)];
    }
  }

  lemma SameNameAdopts(rows: seq<Row>, a: string, b: string)
    ensures Strip(a) == Strip(b) ==> (Adopts(rows, a) <==> Adopts(rows, b)) && (Waits(rows, a) <==> Waits(rows, b))
  {
    hide Contains, Normalize, Strip;
    if Strip(a) == Strip(b) {
      assert forall k :: 0 <= k < |rows| ==> (Kin(rows[k].name, a) <==> Kin(rows[k].name, b));
    }
  }

  lemma ShortNames()
    ensures Normalize("a") == "a" && Normalize("b") == "b" && Normalize("ab") == "ab"
    ensures Strip("a") == "a" && Strip("ab") == "ab" && Strip("b") == "b"
    ensures "a" != "b" && "a" != "ab"
  {
    assert "a"[0] != "b"[0];
    assert Lower("b") == "b" && Lower("ab") == ['a'] + Lower("b");
    assert Head("a", '/') == "a" && Head("b", '/') == "b" && "ab"[1..] == "b";
    assert Head("ab", '/') == ['a'] + Head("b", '/');
    OnePart("a");
    OnePart("b");
    OnePart("ab");
  }

  lemma ShortNamesRelated()
    ensures Related("a", "ab") && !Related("a", "b") && Related("ab", "b")
    ensures !Contains("b", FLASH_LITE)
  {
    assert OccursAt("ab", "a", 0) && OccursAt("ab", "b", 1);
    assert "a"[0..1][0] == 'a' && "b"[0..1][0] == 'b';
  }

  /** The second time can add a row: here the slow model matches only the alias of the fast one. */
  lemma EnrichTwiceCanAdd(entry: Entry) returns (rows: seq<Row>, fast: string, slow: string)
    ensures Table(rows) && Enrich(Enrich(rows, fast, slow), fast, slow) != Enrich(rows, fast, slow)
  {
    hide Normalize, Contains, Strip, Enrich;
    rows, fast, slow := [Row("a", entry)], "ab", "b";
    ShortNames();
    ShortNamesRelated();
    assert Kin(rows[0].name, fast);
    EnrichTwiceIff(rows, fast, slow);
  }
}
