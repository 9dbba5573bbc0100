/** The Atlas Search base query (src/query/base-query.ts): sort normalisation, the text
    search clauses, the four-stage aggregation pipeline and the page envelope. */
module Query {
  import opened Wrappers
  import opened JsStrings
  import opened Documents

  // ---------------------------------------------------------------- clauses and sorts

  /** Fuzzy-matching settings of a `text` clause. */
  datatype Fuzzy = Fuzzy(maxEdits: int, prefixLength: int, maxExpansions: int)

  /** A compound sub-clause. `Text` is an object whose `text` key is set; `Other` stands for
      every operator the model does not spell out (`equals`, `exists`, ...). */
  datatype Clause =
    | Text(path: seq<string>, query: string, fuzzy: Option<Fuzzy>)
    | Wildcard(path: seq<string>, query: string, allowAnalyzedField: bool, boost: Option<int>)
    | Range(field: string, gte: Option<int>, lte: Option<int>)
    | Other(operator: string)

  /** One key of a sort object: a field and its direction. */
  datatype SortKey = SortKey(field: string, direction: int)

  /** A sort object, its keys in iteration order. */
  type SortSpec = seq<SortKey>

  /** A JavaScript object never holds the same key twice. */
  predicate DistinctFields(s: SortSpec) {
    forall i, j :: 0 <= i < j < |s| ==> s[i].field != s[j].field
  }

  /** What the subclass hook `buildSearchOptions` supplies. */
  datatype ClauseSet = ClauseSet(
    must: seq<Clause>, mustNot: seq<Clause>, should: seq<Clause>, filter: seq<Clause>,
    sort: SortSpec)

  /** The pagination request the query was built with. `verbose` may be undefined. */
  datatype Pagination = Pagination(pageNum: int, pageSize: int, includeSource: bool, verbose: Option<bool>)

  // ---------------------------------------------------------------- sort normalisation

  /** `convertOrderToMongoFormat`: 1 for a (trimmed) "asc", -1 for everything else,
      "desc", the empty string and undefined included. */
  function ConvertOrder(order: Option<string>): (direction: int)
    ensures direction == 1 || direction == -1
    ensures direction == 1 <==> order.Some? && Trim(order.value) == "asc"
  {
    if order.Some? && order.value != "" && Trim(order.value) == "asc" then 1
    else if order.Some? && order.value != "" && Trim(order.value) == "desc" then -1
    else -1
  }

  /** `buildSort`: a one-key sort object on the given field. */
  function BuildSort(field: string, order: Option<string>): (s: SortSpec)
    ensures |s| == 1 && s[0].field == field
    ensures s[0].direction == 1 || s[0].direction == -1
    ensures s[0].direction == 1 <==> order.Some? && Trim(order.value) == "asc"
  {
    [SortKey(field, ConvertOrder(order))]
  }

  /** `obj[key.field] = key.direction`: an existing key keeps its place, a new one goes last. */
  function Assign(obj: SortSpec, key: SortKey): SortSpec
  {
    if obj == [] then [key]
    else if obj[0].field == key.field then [key] + obj[1..]
    else [obj[0]] + Assign(obj[1..], key)
  }

  /** `{...obj, ...src}`: the keys of `src` assigned one by one into `obj`. */
  function Spread(obj: SortSpec, src: SortSpec): SortSpec
    decreases |src|
  {
    if src == [] then obj else Spread(Assign(obj, src[0]), src[1..])
  }

  /** The keys of `s` other than `field`, in order. */
  function Without(s: SortSpec, field: string): (r: SortSpec)
    ensures forall k <- r :: k in s && k.field != field
  {
    if s == [] then []
    else (if s[0].field == field then [] else [s[0]]) + Without(s[1..], field)
  }

  /** The direction `s` gives `field` (its last such key), or `default` when it has none. */
  function DirectionOr(s: SortSpec, field: string, default: int): (d: int)
    ensures (forall k <- s :: k.field != field) ==> d == default
    ensures DistinctFields(s) ==> forall k <- s :: k.field == field ==> d == k.direction
  {
    if s == [] then default
    else
      var d := DirectionOr(s[1..], field, if s[0].field == field then s[0].direction else default);
      assert DistinctFields(s) ==> DistinctFields(s[1..]) && forall k <- s[1..] :: k.field != s[0].field by {
        if DistinctFields(s) {
          forall k <- s[1..] ensures k.field != s[0].field {
            var j :| 0 <= j < |s[1..]| && s[1..][j] == k;
            assert s[j + 1] == k;
          }
        }
      }
      d
  }

  /** The key `$search` sorts by relevance under. */
  const ScoreField := "score"

  /** Assigning a key the object does not have appends it. */
  lemma {:induction false} AssignNewKey(obj: SortSpec, key: SortKey)
    requires forall k <- obj :: k.field != key.field
    ensures Assign(obj, key) == obj + [key]
  {
    if obj != [] {
      AssignNewKey(obj[1..], key);
      assert [obj[0]] + (obj[1..] + [key]) == obj + [key];
    }
  }

  /** The spread into an object that starts with `score` keeps `score` first. */
  lemma {:induction false} SpreadKeepsScoreFirst(obj: SortSpec, src: SortSpec)
    requires obj != [] && obj[0].field == ScoreField
    requires forall k <- obj[1..] :: k.field != ScoreField
    requires DistinctFields(obj) && DistinctFields(src)
    requires forall a <- obj[1..], b <- src :: a.field != b.field
    ensures Spread(obj, src)
      == [SortKey(ScoreField, DirectionOr(src, ScoreField, obj[0].direction))] + obj[1..] + Without(src, ScoreField)
    decreases |src|, 1
  {
    if src != [] {
      DistinctTail(src);
      if src[0].field == ScoreField {
        SpreadScoreKey(obj, src);
      } else {
        SpreadOtherKey(obj, src);
      }
    }
  }

  /** The step of SpreadKeepsScoreFirst where the next key is `score`. */
  lemma {:induction false} SpreadScoreKey(obj: SortSpec, src: SortSpec)
    requires obj != [] && obj[0].field == ScoreField
    requires forall k <- obj[1..] :: k.field != ScoreField
    requires DistinctFields(obj) && DistinctFields(src)
    requires src != [] && src[0].field == ScoreField
    requires DistinctFields(src[1..]) && forall k <- src[1..] :: k.field != src[0].field
    requires forall a <- obj[1..], b <- src :: a.field != b.field
    ensures Spread(obj, src)
      == [SortKey(ScoreField, DirectionOr(src, ScoreField, obj[0].direction))] + obj[1..] + Without(src, ScoreField)
    decreases |src|, 0
  {
    var key := src[0];
    var obj' := [key] + obj[1..];
    ReplaceScore(obj, key);
    assert Spread(obj, src) == Spread(obj', src[1..]);
    assert forall a <- obj'[1..], b <- src[1..] :: a.field != b.field by {
      assert forall b <- src[1..] :: b in src;
    }
    SpreadKeepsScoreFirst(obj', src[1..]);
    assert DirectionOr(src, ScoreField, obj[0].direction) == DirectionOr(src[1..], ScoreField, key.direction);
    assert Without(src, ScoreField) == Without(src[1..], ScoreField);
  }

  /** The step of SpreadKeepsScoreFirst where the next key is not `score`. */
  lemma {:induction false} SpreadOtherKey(obj: SortSpec, src: SortSpec)
    requires obj != [] && obj[0].field == ScoreField
    requires forall k <- obj[1..] :: k.field != ScoreField
    requires DistinctFields(obj) && DistinctFields(src)
    requires src != [] && src[0].field != ScoreField
    requires DistinctFields(src[1..]) && forall k <- src[1..] :: k.field != src[0].field
    requires forall a <- obj[1..], b <- src :: a.field != b.field
    ensures Spread(obj, src)
      == [SortKey(ScoreField, DirectionOr(src, ScoreField, obj[0].direction))] + obj[1..] + Without(src, ScoreField)
    decreases |src|, 0
  {
    var key := src[0];
    var obj' := obj + [key];
    var rest := Without(src[1..], ScoreField);
    var d := DirectionOr(src[1..], ScoreField, obj[0].direction);
    assert Spread(obj, src) == [SortKey(ScoreField, d)] + (obj[1..] + [key]) + rest by {
      AppendKey(obj, src);
      assert Spread(obj, src) == Spread(obj', src[1..]);
      assert forall k <- obj'[1..] :: k.field != ScoreField;
      SpreadKeepsScoreFirst(obj', src[1..]);
    }
    assert DirectionOr(src, ScoreField, obj[0].direction) == d;
    assert Without(src, ScoreField) == [key] + rest;
    assert [SortKey(ScoreField, d)] + (obj[1..] + [key]) + rest == [SortKey(ScoreField, d)] + obj[1..] + ([key] + rest);
  }

  /** The keys after the first of a sort with distinct fields are distinct and differ from it. */
  lemma DistinctTail(src: SortSpec)
    requires src != [] && DistinctFields(src)
    ensures DistinctFields(src[1..])
    ensures forall k <- src[1..] :: k.field != src[0].field
  {
    forall k <- src[1..] ensures k.field != src[0].field {
      var j :| 0 <= j < |src[1..]| && src[1..][j] == k;
      assert src[j + 1] == k;
    }
  }

  /** Assigning `score` into an object that starts with `score` replaces that first key. */
  lemma ReplaceScore(obj: SortSpec, key: SortKey)
    requires obj != [] && obj[0].field == ScoreField && key.field == ScoreField
    requires forall k <- obj[1..] :: k.field != ScoreField
    requires DistinctFields(obj)
    ensures Assign(obj, key) == [key] + obj[1..]
    ensures ([key] + obj[1..])[1..] == obj[1..]
    ensures DistinctFields([key] + obj[1..])
  {
    var obj' := [key] + obj[1..];
    assert obj'[1..] == obj[1..];
    forall i, j | 0 <= i < j < |obj'| ensures obj'[i].field != obj'[j].field {
      if i > 0 { assert obj'[i] == obj[i] && obj'[j] == obj[j]; }
      else { assert obj'[j] == obj[j] && obj[j] in obj[1..]; }
    }
  }

  /** Assigning a key the object lacks appends it, and the spread's preconditions carry over. */
  lemma AppendKey(obj: SortSpec, src: SortSpec)
    requires obj != [] && obj[0].field == ScoreField && src != [] && src[0].field != ScoreField
    requires DistinctFields(obj) && DistinctFields(src)
    requires forall a <- obj[1..], b <- src :: a.field != b.field
    requires forall k <- src[1..] :: k.field != src[0].field
    ensures Assign(obj, src[0]) == obj + [src[0]]
    ensures (obj + [src[0]])[1..] == obj[1..] + [src[0]]
    ensures DistinctFields(obj + [src[0]])
    ensures forall a <- (obj + [src[0]])[1..], b <- src[1..] :: a.field != b.field
  {
    var key := src[0];
    assert forall k <- obj :: k.field != key.field by {
      assert forall a <- obj[1..] :: a.field != key.field;
      assert forall k <- obj :: k == obj[0] || k in obj[1..];
    }
    AssignNewKey(obj, key);
    AppendKeyDistinct(obj, key);
    var obj' := obj + [key];
    assert obj'[1..] == obj[1..] + [key];
    forall a <- obj'[1..], b <- src[1..] ensures a.field != b.field {
      if a != key { assert a in obj[1..] && b in src; }
    }
  }

  /** Appending a key whose field is new keeps the fields distinct. */
  lemma AppendKeyDistinct(obj: SortSpec, key: SortKey)
    requires DistinctFields(obj)
    requires forall k <- obj :: k.field != key.field
    ensures DistinctFields(obj + [key])
  {
    var obj' := obj + [key];
    forall i, j | 0 <= i < j < |obj'| ensures obj'[i].field != obj'[j].field {
      if j < |obj| { assert obj'[i] == obj[i] && obj'[j] == obj[j]; }
      else { assert obj'[i] == obj[i] && obj[i] in obj; }
    }
  }

  /** `{score: -1, ...sort}` from `buildTextSearchQuery`. */
  function SearchSort(sort: SortSpec): (r: SortSpec)
    ensures |r| >= 1 && r[0].field == ScoreField
  {
    SpreadKeepsFirstField([SortKey(ScoreField, -1)], sort);
    Spread([SortKey(ScoreField, -1)], sort)
  }

  /** Assigning into a non-empty object never moves its first key. */
  lemma {:induction false} AssignKeepsFirstField(obj: SortSpec, key: SortKey)
    requires obj != []
    ensures |Assign(obj, key)| >= 1 && Assign(obj, key)[0].field == obj[0].field
  {
  }

  /** Spreading into a non-empty object never moves its first key, whatever keys the source
      holds, repeated ones included. */
  lemma {:induction false} SpreadKeepsFirstField(obj: SortSpec, src: SortSpec)
    requires obj != []
    ensures |Spread(obj, src)| >= 1 && Spread(obj, src)[0].field == obj[0].field
    decreases |src|
  {
    if src != [] {
      AssignKeepsFirstField(obj, src[0]);
      SpreadKeepsFirstField(Assign(obj, src[0]), src[1..]);
    }
  }

  /** The search sort puts `score` first (descending unless the base sort gives `score` a
      direction of its own), then the base sort's other keys in their order. */
  lemma SearchSortLayering(sort: SortSpec)
    requires DistinctFields(sort)
    ensures |SearchSort(sort)| >= 1
    ensures SearchSort(sort)[0] == SortKey(ScoreField, DirectionOr(sort, ScoreField, -1))
    ensures SearchSort(sort)[1..] == Without(sort, ScoreField)
  {
    SpreadKeepsScoreFirst([SortKey(ScoreField, -1)], sort);
    assert [SortKey(ScoreField, -1)][1..] == [];
  }

  /** Without a `score` key of its own, the base sort follows `score: -1` unchanged. */
  lemma SearchSortWithoutScore(sort: SortSpec)
    requires DistinctFields(sort)
    requires forall k <- sort :: k.field != ScoreField
    ensures SearchSort(sort) == [SortKey(ScoreField, -1)] + sort
  {
    SearchSortLayering(sort);
    WithoutAbsentField(sort, ScoreField);
    assert SearchSort(sort) == [SearchSort(sort)[0]] + SearchSort(sort)[1..];
  }

  /** Removing a field the sort does not have changes nothing. */
  lemma {:induction false} WithoutAbsentField(s: SortSpec, field: string)
    requires forall k <- s :: k.field != field
    ensures Without(s, field) == s
  {
    if s != [] {
      WithoutAbsentField(s[1..], field);
      assert [s[0]] + s[1..] == s;
    }
  }

  // ---------------------------------------------------------------- text search clauses

  /** The fuzzy settings of the text clause: two edits, first character fixed, 100 expansions. */
  const TextFuzzy := Fuzzy(2, 1, 100)

  /** The boost applied to every wildcard term clause. */
  const TermBoost := 10

  /** The output of `buildTextSearchQuery`. */
  datatype TextSearch = TextSearch(searchShould: seq<Clause>, searchSort: SortSpec, searchMust: seq<Clause>)

  /** `query.trim().split(' ')`. */
  function SearchTerms(query: string): (terms: seq<string>)
    ensures |terms| >= 1
    ensures forall t <- terms :: ' ' !in t
    ensures Join(terms, ' ') == Trim(query)
  {
    JoinSplit(Trim(query), ' ');
    Split(Trim(query), ' ')
  }

  /** The boosted wildcard clause for one term. */
  function TermClause(paths: seq<string>, term: string): (c: Clause)
    ensures c.Wildcard? && c.path == paths && c.allowAnalyzedField && c.boost == Some(TermBoost)
  {
    Wildcard(paths, "*" + Trim(term) + "*", true, Some(TermBoost))
  }

  /** A term's clause is a wildcard on the given paths, analysed fields allowed, boosted by
      10, whose query is the trimmed term between two `*`. */
  lemma TermClauseShape(paths: seq<string>, term: string)
    ensures var c := TermClause(paths, term);
      && c.Wildcard? && c.path == paths && c.allowAnalyzedField && c.boost == Some(TermBoost)
      && |c.query| >= 2 && c.query[0] == '*' && c.query[|c.query| - 1] == '*'
      && c.query[1..|c.query| - 1] == Trim(term)
  {
    var q := TermClause(paths, term).query;
    assert q == "*" + Trim(term) + "*";
    assert q[1..|q| - 1] == Trim(term);
  }

  /** `buildTextSearchQuery`: one fuzzy text should-clause on the untrimmed query, one
      boosted wildcard must-clause per space-separated term of the trimmed query, in order,
      and the sort with `score` layered first. */
  method BuildTextSearchQuery(query: string, sort: SortSpec, paths: seq<string>) returns (r: TextSearch)
    ensures r.searchShould == [Text(paths, query, Some(TextFuzzy))]
    ensures r.searchSort == SearchSort(sort)
    ensures |r.searchMust| == |SearchTerms(query)| >= 1
    ensures forall i :: 0 <= i < |r.searchMust| ==> r.searchMust[i] == TermClause(paths, SearchTerms(query)[i])
  {
    var searchShould: seq<Clause> := [];
    var searchSort := SearchSort(sort);
    searchShould := searchShould + [Text(paths, query, Some(TextFuzzy))];
    var terms := SearchTerms(query);
    var searchMust: seq<Clause> := [];
    if |terms| > 0 {
      var i := 0;
      while i < |terms|
        invariant 0 <= i <= |terms|
        invariant |searchMust| == i
        invariant forall j :: 0 <= j < i ==> searchMust[j] == TermClause(paths, terms[j])
      {
        var word := "*" + Trim(terms[i]) + "*";
        searchMust := searchMust + [Wildcard(paths, word, true, Some(TermBoost))];
        i := i + 1;
      }
    }
    r := TextSearch(searchShould, searchSort, searchMust);
  }

  /** The phrase "foo bar" gives the terms "foo" and "bar", hence the wildcard queries
      "*foo*" and "*bar*". */
  lemma TwoWordQuery(paths: seq<string>)
    ensures SearchTerms("foo bar") == ["foo", "bar"]
    ensures TermClause(paths, "foo").query == "*foo*" && TermClause(paths, "bar").query == "*bar*"
  {
    TwoWordTerms();
    FooClause(paths);
    BarClause(paths);
  }

  /** The clause of the term "foo". */
  lemma FooClause(paths: seq<string>)
    ensures TermClause(paths, "foo").query == "*foo*"
  {
    WordClause(paths, "foo");
  }

  /** The clause of the term "bar". */
  lemma BarClause(paths: seq<string>)
    ensures TermClause(paths, "bar").query == "*bar*"
  {
    WordClause(paths, "bar");
  }

  /** A term without surrounding white space is wrapped as it is. */
  lemma WordClause(paths: seq<string>, word: string)
    requires word != [] && !IsWhiteSpace(word[0]) && !IsWhiteSpace(word[|word| - 1])
    ensures TermClause(paths, word).query == "*" + word + "*"
  {
    TrimKeepsTrimmed(word);
  }

  /** "foo bar" splits into its two words. */
  lemma TwoWordTerms()
    ensures SearchTerms("foo bar") == ["foo", "bar"]
  {
    TrimKeepsTrimmed("foo bar");
    SplitJoin(["foo", "bar"], ' ');
    assert Join(["foo", "bar"], ' ') == "foo" + " " + "bar" == "foo bar";
  }

  /** A string that neither starts nor ends with white space is its own trim. */
  lemma TrimKeepsTrimmed(s: string)
    requires s != [] && !IsWhiteSpace(s[0]) && !IsWhiteSpace(s[|s| - 1])
    ensures Trim(s) == s
  {
    assert TrimStart(s) == s;
    assert TrimEnd(s) == s;
  }

  /** A blank query still gives exactly one term, the empty one, hence one "**" clause. */
  lemma {:induction false} BlankQuery(query: string, paths: seq<string>)
    requires forall c <- query :: IsWhiteSpace(c)
    ensures SearchTerms(query) == [""]
    ensures TermClause(paths, "").query == "**"
  {
    TrimStartDropsWhiteSpace(query);
    assert TrimStart(query) == [];
  }

  // ---------------------------------------------------------------- the pipeline

  /** The operator of the `$search` stage: the compound clause set, or the match-all
      wildcard that replaces it when no clause was supplied. Being a sum type, exactly one
      of the two is present. */
  datatype SearchOperator =
    | Compound(must: seq<Clause>, mustNot: seq<Clause>, should: seq<Clause>, filter: seq<Clause>,
               minimumShouldMatch: Option<int>)
    | MatchAll(query: string, pathWildcard: string, allowAnalyzedField: bool)

  /** The body of the `$search` stage. */
  datatype SearchSpec = SearchSpec(index: string, operator: SearchOperator, countType: string, returnStoredSource: bool)

  /** A step of one `$facet` branch. */
  datatype FacetStep = Skip(n: int) | Limit(n: int) | ReplaceWith(expression: string)

  /** An aggregation stage. */
  datatype Stage =
    | SearchStage(search: SearchSpec)
    | SortStage(sort: SortSpec)
    | ProjectStage(excluded: seq<string>, scoreField: string, scoreMeta: string)
    | FacetStage(docs: seq<FacetStep>, meta: seq<FacetStep>)

  /** The match-all wildcard: query `*` on every path, analysed fields allowed. */
  const MatchEverything := MatchAll("*", "*", true)

  /** True when all four clause arrays are empty. */
  predicate NoClauses(o: ClauseSet) {
    o.must == [] && o.mustNot == [] && o.should == [] && o.filter == []
  }

  /** The minimumShouldMatch rule: absent without should-clauses, 0 when every should-clause
      is a text clause, 1 as soon as one is not (mixed or all non-text). */
  function MinimumShouldMatch(should: seq<Clause>): (m: Option<int>)
    ensures m.None? <==> should == []
    ensures m == Some(0) <==> should != [] && forall c <- should :: c.Text?
    ensures m == Some(1) <==> exists c <- should :: !c.Text?
  {
    if should == [] then None
    else if forall c <- should :: c.Text? then Some(0)
    else Some(1)
  }

  /** The operator the `$search` stage ends up with. */
  function SearchOperatorFor(o: ClauseSet): (op: SearchOperator)
    ensures op.MatchAll? <==> NoClauses(o)
    ensures op.MatchAll? ==> op == MatchEverything
    ensures op.Compound? ==> op.must == o.must && op.mustNot == o.mustNot && op.should == o.should
                             && op.filter == o.filter
                             && op.minimumShouldMatch == MinimumShouldMatch(o.should)
  {
    if NoClauses(o) then MatchEverything
    else Compound(o.must, o.mustNot, o.should, o.filter, MinimumShouldMatch(o.should))
  }

  /** The branch of `$facet` that pages the documents. */
  function DocsBranch(p: Pagination): (steps: seq<FacetStep>)
    ensures |steps| == 2 && steps[0].Skip? && steps[1].Limit?
    ensures steps[0].n == p.pageNum * p.pageSize && steps[1].n == p.pageSize
  {
    [Skip(p.pageNum * p.pageSize), Limit(p.pageSize)]
  }

  /** The branch of `$facet` that reports the search metadata. */
  const MetaBranch := [ReplaceWith("$$SEARCH_META"), Limit(1)]

  /** The pipeline `buildSearchPipeline` stores: `$search`, `$sort`, `$project`, `$facet`. */
  function SearchPipeline(collectionName: string, p: Pagination, o: ClauseSet): (stages: seq<Stage>)
    ensures |stages| == 4
    ensures stages[0].SearchStage? && stages[0].search.index == collectionName
    ensures stages[0].search.operator == SearchOperatorFor(o)
    ensures stages[0].search.countType == "total"
    ensures stages[0].search.returnStoredSource == p.includeSource
    ensures stages[1] == SortStage(o.sort)
    ensures stages[2] == ProjectStage(["_id", "_source"], ScoreField, "searchScore")
    ensures stages[3] == FacetStage(DocsBranch(p), MetaBranch)
  {
    [ SearchStage(SearchSpec(collectionName, SearchOperatorFor(o), "total", p.includeSource)),
      SortStage(o.sort),
      ProjectStage(["_id", "_source"], ScoreField, "searchScore"),
      FacetStage(DocsBranch(p), MetaBranch) ]
  }

  /** The `forEach` over the should-clauses that sets the two flags. */
  method ClassifyShould(should: seq<Clause>) returns (hasTextSearch: bool, hasOtherShouldFilter: bool)
    ensures hasTextSearch <==> exists c <- should :: c.Text?
    ensures hasOtherShouldFilter <==> exists c <- should :: !c.Text?
  {
    hasTextSearch, hasOtherShouldFilter := false, false;
    var i := 0;
    while i < |should|
      invariant 0 <= i <= |should|
      invariant hasTextSearch <==> exists j :: 0 <= j < i && should[j].Text?
      invariant hasOtherShouldFilter <==> exists j :: 0 <= j < i && !should[j].Text?
    {
      if should[i].Text? {
        hasTextSearch := true;
      } else {
        hasOtherShouldFilter := true;
      }
      i := i + 1;
    }
  }

  // ---------------------------------------------------------------- paging

  /** What `$skip` and `$limit` do to the documents reaching them (`$skip` takes a
      non-negative count, `$limit` a positive one). */
  function RunSteps(steps: seq<FacetStep>, docs: seq<Document>): seq<Document>
  {
    if steps == [] then docs
    else
      var next := match steps[0]
        case Skip(n) => if n <= 0 then docs else if n >= |docs| then [] else docs[n..]
        case Limit(n) => if n >= |docs| then docs else if n <= 0 then [] else docs[..n]
        case ReplaceWith(_) => docs;
      RunSteps(steps[1..], next)
  }

  /** Page `pageNum` of the sorted matches: the `pageSize` documents from position
      `pageNum * pageSize` on, fewer at the end. */
  function PageOf(all: seq<Document>, pageNum: nat, pageSize: nat): seq<Document>
  {
    var start := if pageNum * pageSize <= |all| then pageNum * pageSize else |all|;
    var end := if start + pageSize <= |all| then start + pageSize else |all|;
    all[start..end]
  }

  /** The docs branch of the `$facet` stage yields exactly the requested page. */
  lemma DocsBranchIsPage(p: Pagination, all: seq<Document>)
    requires p.pageNum >= 0 && p.pageSize > 0
    ensures RunSteps(DocsBranch(p), all) == PageOf(all, p.pageNum, p.pageSize)
    ensures |RunSteps(DocsBranch(p), all)| <= p.pageSize
  {
    var steps := DocsBranch(p);
    var n := p.pageNum * p.pageSize;
    assert n >= 0 by { NonNegativeProduct(p.pageNum, p.pageSize); }
    var skipped := if n <= 0 then all else if n >= |all| then [] else all[n..];
    assert steps[1..] == [Limit(p.pageSize)];
    assert steps[1..][1..] == [];
    assert RunSteps(steps, all) == RunSteps([Limit(p.pageSize)], skipped);
    var limited := if p.pageSize >= |skipped| then skipped else skipped[..p.pageSize];
    assert RunSteps([Limit(p.pageSize)], skipped) == RunSteps([], limited);
  }

  lemma NonNegativeProduct(a: int, b: int)
    requires a >= 0 && b >= 0
    ensures a * b >= 0
  {
  }

  /** Pages 0 to k - 1, one after the other, are the first k * pageSize matches: the
      pages neither overlap nor leave gaps. */
  lemma {:induction false} PagesCover(all: seq<Document>, k: nat, pageSize: nat)
    requires pageSize > 0
    ensures Pages(all, k, pageSize) == all[..if k * pageSize <= |all| then k * pageSize else |all|]
  {
    if k > 0 {
      PagesCover(all, k - 1, pageSize);
      assert (k - 1) * pageSize + pageSize == k * pageSize;
      var a := if (k - 1) * pageSize <= |all| then (k - 1) * pageSize else |all|;
      var b := if k * pageSize <= |all| then k * pageSize else |all|;
      assert PageOf(all, k - 1, pageSize) == all[a..b];
      assert all[..a] + all[a..b] == all[..b];
    }
  }

  /** Pages 0 to k - 1 concatenated. */
  function Pages(all: seq<Document>, k: nat, pageSize: nat): seq<Document>
  {
    if k == 0 then [] else Pages(all, k - 1, pageSize) + PageOf(all, k - 1, pageSize)
  }

  // ---------------------------------------------------------------- results

  /** `count` inside a meta record; `total` may be missing. */
  datatype CountInfo = CountInfo(total: Option<int>)

  /** One record of the meta branch; `count` may be missing. */
  datatype MetaEntry = MetaEntry(count: Option<CountInfo>)

  /** One top-level record of the aggregation result. */
  datatype SearchResult = SearchResult(docs: seq<Document>, meta: seq<MetaEntry>)

  /** The `meta` part of the page envelope. */
  datatype PageMeta = PageMeta(count: int, page: int, pageSize: int, verbose: bool, total: int)

  /** The page envelope `run` returns. */
  datatype Page = Page(meta: PageMeta, items: seq<Document>)

  /** A thrown query error: a code and a message. */
  datatype QueryError = QueryError(code: int, message: string)

  /** The error `formatResults` throws when the result does not hold exactly one record. */
  const ShapeError := QueryError(500, "Unexpected Atlas Search return format")

  /** The server-reported total: `meta[0].count.total` when present and non-zero, else 0. */
  function ReportedTotal(r: SearchResult): (total: int)
    ensures total != 0 ==> |r.meta| > 0 && r.meta[0].count.Some? && r.meta[0].count.value.total == Some(total)
    ensures |r.meta| > 0 && r.meta[0].count.Some? && r.meta[0].count.value.total.Some?
            ==> total == r.meta[0].count.value.total.value
  {
    if |r.meta| > 0 && r.meta[0].count.Some? && r.meta[0].count.value.total.Some?
       && r.meta[0].count.value.total.value != 0
    then r.meta[0].count.value.total.value
    else 0
  }

  /** `formatResults`: the one-record check, then the envelope around the formatted docs. */
  function FormatResults(results: seq<SearchResult>, p: Pagination, formatDocuments: seq<Document> -> seq<Document>)
    : (r: Result<Page, QueryError>)
    ensures r.Failure? <==> |results| != 1
    ensures r.Failure? ==> r.error == ShapeError
    ensures r.Success? ==>
      && r.value.items == formatDocuments(results[0].docs)
      && r.value.meta.count == |r.value.items|
      && r.value.meta.page == p.pageNum
      && r.value.meta.pageSize == p.pageSize
      && (r.value.meta.verbose <==> p.verbose == Some(true))
      && r.value.meta.total == ReportedTotal(results[0])
  {
    if |results| != 1 then Failure(ShapeError)
    else
      var result := results[0];
      var total := ReportedTotal(result);
      var items := formatDocuments(result.docs);
      Success(Page(PageMeta(|items|, p.pageNum, p.pageSize, p.verbose.Some? && p.verbose.value, total), items))
  }

  /** An empty meta branch reports a total of 0. */
  lemma EmptyMetaTotalIsZero(results: seq<SearchResult>, p: Pagination, formatDocuments: seq<Document> -> seq<Document>)
    requires |results| == 1 && results[0].meta == []
    ensures FormatResults(results, p, formatDocuments).Success?
    ensures FormatResults(results, p, formatDocuments).value.meta.total == 0
  {
  }

  // ---------------------------------------------------------------- run

  /** The prefix of every error `run` throws. */
  const QueryErrorPrefix := "Mongodb Query Error: "

  /** What reached the `catch` of `run`: an error of the driver, described by its
      `toLocaleString()`, or the plain object `formatResults` throws. */
  datatype Caught = DriverError(text: string) | PlainObject(error: QueryError)

  /** `err.toLocaleString()`; on a plain object it is "[object Object]". */
  function LocaleString(e: Caught): string
  {
    match e
    case DriverError(text) => text
    case PlainObject(_) => "[object Object]"
  }

  /** The try block of `run` as written: a failed aggregation or a shape error becomes a
      code 500 whose message is the prefix and the caught value's `toLocaleString()`. */
  function RunOutcomeAsWritten(aggregated: Result<seq<SearchResult>, string>, p: Pagination,
                               formatDocuments: seq<Document> -> seq<Document>): (r: Result<Page, QueryError>)
    ensures aggregated.Failure? ==> r == Failure(QueryError(500, QueryErrorPrefix + aggregated.error))
    ensures aggregated.Success? && |aggregated.value| != 1 ==>
              r == Failure(QueryError(500, QueryErrorPrefix + "[object Object]"))
    ensures aggregated.Success? && |aggregated.value| == 1 ==>
              r.Success? && r == FormatResults(aggregated.value, p, formatDocuments)
  {
    match aggregated
    case Failure(text) => Failure(QueryError(500, QueryErrorPrefix + LocaleString(DriverError(text))))
    case Success(results) =>
      match FormatResults(results, p, formatDocuments)
      case Success(page) => Success(page)
      case Failure(e) => Failure(QueryError(500, QueryErrorPrefix + LocaleString(PlainObject(e))))
  }

  /** As written, the shape error's own message is lost: two result records give the
      message "Mongodb Query Error: [object Object]". */
  lemma ShapeErrorMessageLost(r1: SearchResult, r2: SearchResult, p: Pagination,
                              formatDocuments: seq<Document> -> seq<Document>)
    ensures RunOutcomeAsWritten(Success([r1, r2]), p, formatDocuments)
            == Failure(QueryError(500, "Mongodb Query Error: " + "[object Object]"))
  {
    assert FormatResults([r1, r2], p, formatDocuments) == Failure(ShapeError);
  }

  /** With the cause kept, the same two records give the shape error's message. */
  lemma ShapeErrorMessageKept(r1: SearchResult, r2: SearchResult, p: Pagination,
                              formatDocuments: seq<Document> -> seq<Document>)
    ensures RunOutcome(Success([r1, r2]), p, formatDocuments)
            == Failure(QueryError(500, "Mongodb Query Error: " + "Unexpected Atlas Search return format"))
  {
    assert FormatResults([r1, r2], p, formatDocuments) == Failure(ShapeError);
  }

  /** The try block of `run` as evidently intended, with the cause kept: every failure is a code 500 whose message
      is the prefix followed by the cause, the driver's text or the shape error's message;
      otherwise the formatted page. */
  function RunOutcome(aggregated: Result<seq<SearchResult>, string>, p: Pagination,
                      formatDocuments: seq<Document> -> seq<Document>): (r: Result<Page, QueryError>)
    ensures aggregated.Failure? ==> r == Failure(QueryError(500, QueryErrorPrefix + aggregated.error))
    ensures aggregated.Success? && |aggregated.value| != 1 ==>
              r == Failure(QueryError(500, QueryErrorPrefix + ShapeError.message))
    ensures aggregated.Success? && |aggregated.value| == 1 ==>
              r.Success? && r == FormatResults(aggregated.value, p, formatDocuments)
  {
    match aggregated
    case Failure(text) => Failure(QueryError(500, QueryErrorPrefix + text))
    case Success(results) =>
      match FormatResults(results, p, formatDocuments)
      case Success(page) => Success(page)
      case Failure(e) => Failure(QueryError(500, QueryErrorPrefix + e.message))
  }

  // ---------------------------------------------------------------- the query object

  /** The state of a `BaseQuery` that its methods use: the collection (also the search
      index name), the pagination request and the pipeline once built. */
  class BaseQuery {
    const collectionName: string
    const pagination: Pagination
    var pipeline: Option<seq<Stage>>

    constructor (collectionName: string, pagination: Pagination)
      ensures this.collectionName == collectionName && this.pagination == pagination
      ensures pipeline == None
    {
      this.collectionName := collectionName;
      this.pagination := pagination;
      pipeline := None;
    }

    /** `buildSearchPipeline`, given what `buildSearchOptions` returned. */
    method BuildSearchPipeline(options: ClauseSet)
      modifies this
      ensures pipeline == Some(SearchPipeline(collectionName, pagination, options))
    {
      var search := SearchSpec(
        collectionName,
        Compound(options.must, options.mustNot, options.should, options.filter, None),
        "total",
        pagination.includeSource);
      var stages := [
        SearchStage(search),
        SortStage(options.sort),
        ProjectStage(["_id", "_source"], ScoreField, "searchScore"),
        FacetStage([Skip(pagination.pageNum * pagination.pageSize), Limit(pagination.pageSize)],
                   [ReplaceWith("$$SEARCH_META"), Limit(1)])];
      var compound := search.operator;
      if |compound.should| > 0 {
        compound := compound.(minimumShouldMatch := Some(1));
        var hasTextSearch, hasOtherShouldFilter := ClassifyShould(compound.should);
        assert compound.should[0] in compound.should;
        if hasOtherShouldFilter && !hasTextSearch {
          compound := compound.(minimumShouldMatch := Some(1));
        }
        if !hasOtherShouldFilter && hasTextSearch {
          compound := compound.(minimumShouldMatch := Some(0));
        }
      }
      search := search.(operator := compound);
      if |compound.must| == 0 && |compound.mustNot| == 0 && |compound.should| == 0 && |compound.filter| == 0 {
        search := search.(operator := MatchEverything);
      }
      stages := stages[0 := SearchStage(search)];
      assert compound.Compound? ==> compound.minimumShouldMatch == MinimumShouldMatch(options.should);
      assert search.operator == SearchOperatorFor(options);
      assert stages == SearchPipeline(collectionName, pagination, options);
      pipeline := Some(stages);
    }

    /** `run`: build the pipeline, hand it to the store (the `aggregate` parameter), and
      format the result; a failure of either becomes a code 500 query error whose message
      is the prefix and the caught value's `toLocaleString()`, as the source writes it. */
    method Run(options: ClauseSet, aggregate: seq<Stage> -> Result<seq<SearchResult>, string>,
               formatDocuments: seq<Document> -> seq<Document>) returns (r: Result<Page, QueryError>)
      modifies this
      ensures pipeline == Some(SearchPipeline(collectionName, pagination, options))
      ensures r == RunOutcomeAsWritten(aggregate(pipeline.value), pagination, formatDocuments)
    {
      BuildSearchPipeline(options);
      var aggregated := aggregate(pipeline.value);
      match aggregated {
        case Failure(text) =>
          r := Failure(QueryError(500, QueryErrorPrefix + LocaleString(DriverError(text))));
        case Success(results) =>
          var formatted := FormatResults(results, pagination, formatDocuments);
          match formatted {
            case Success(page) => r := Success(page);
            case Failure(e) => r := Failure(QueryError(500, QueryErrorPrefix + LocaleString(PlainObject(e))));
          }
      }
    }
  }
}
