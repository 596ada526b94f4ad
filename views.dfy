/** The two API views with logic in them (backend/app/views.py): the product list's query
    filters and the get-or-create of the site configuration. */
module Views {
  import opened Wrappers
  import opened Sequences
  import opened Models

  // ---------------------------------------------------------------------------------------
  // ProductViewSet.get_queryset
  // ---------------------------------------------------------------------------------------

  /** Lower-casing of one character, for the ASCII letters. */
  function LowerChar(c: char): char {
    if 'A' <= c <= 'Z' then (c as int - 'A' as int + 'a' as int) as char else c
  }

  /** `str.lower()`, restricted to ASCII letters: every other character is kept. */
  function Lower(s: string): (r: string)
    ensures |r| == |s|
    ensures forall i :: 0 <= i < |s| ==> r[i] == LowerChar(s[i])
  {
    seq(|s|, i requires 0 <= i < |s| => LowerChar(s[i]))
  }

  /** Whether a `featured` parameter value turns the featured filter on:
      `is_featured.lower() in ['true', '1']`. */
  predicate FeaturedFlagSet(v: string)
    ensures FeaturedFlagSet(v) ==> |v| == 4 || |v| == 1
  {
    Lower(v) == "true" || Lower(v) == "1"
  }

  /** The accepted spellings are exactly "1" and "true" in any mix of letter cases. */
  lemma FeaturedFlagSpellings(v: string)
    ensures FeaturedFlagSet(v) <==>
      v == "1" ||
      (|v| == 4 && v[0] in "tT" && v[1] in "rR" && v[2] in "uU" && v[3] in "eE")
  {
    if FeaturedFlagSet(v) {
      if Lower(v) == "1" {
        assert LowerChar(v[0]) == '1';
      } else {
        assert LowerChar(v[0]) == 't' && LowerChar(v[1]) == 'r';
        assert LowerChar(v[2]) == 'u' && LowerChar(v[3]) == 'e';
      }
    }
    if |v| == 4 && v[0] in "tT" && v[1] in "rR" && v[2] in "uU" && v[3] in "eE" {
      assert Lower(v) == "true";
    }
  }

  /** Some values the featured parameter takes in practice. */
  lemma FeaturedFlagExamples()
    ensures FeaturedFlagSet("true") && FeaturedFlagSet("TRUE") && FeaturedFlagSet("True")
    ensures FeaturedFlagSet("1")
    ensures !FeaturedFlagSet("false") && !FeaturedFlagSet("yes") && !FeaturedFlagSet("0")
    ensures !FeaturedFlagSet("") && !FeaturedFlagSet(" true")
  {
    FeaturedFlagSpellings("true");
    FeaturedFlagSpellings("TRUE");
    FeaturedFlagSpellings("True");
    FeaturedFlagSpellings("1");
    FeaturedFlagSpellings("false");
    FeaturedFlagSpellings("yes");
    FeaturedFlagSpellings("0");
    FeaturedFlagSpellings("");
    FeaturedFlagSpellings(" true");
  }

  /** The request asks for featured products only: the parameter is present (`is not
      None`) and reads as true. Query parameters are a map from each name to the value
      `query_params.get` returns for it, which for a repeated name is its last value. */
  predicate FeaturedRequested(params: map<string, string>)
    ensures FeaturedRequested(params) ==> "featured" in params
  {
    "featured" in params && FeaturedFlagSet(params["featured"])
  }

  /** Reference definition of the filters: a product is listed when it is in the requested
      category (if one is given, even the empty one) and is featured (if that is requested). */
  predicate Matches(params: map<string, string>, p: Product) {
    InRequestedCategory(params, p) && FeaturedIfRequested(params, p)
  }

  /** The category test of `get_queryset`: applied whenever the parameter is present. */
  predicate InRequestedCategory(params: map<string, string>, p: Product)
    ensures "category" !in params ==> InRequestedCategory(params, p)
    ensures "category" in params ==> (InRequestedCategory(params, p) <==> p.categorySlug == params["category"])
  {
    "category" in params ==> p.categorySlug == params["category"]
  }

  /** The featured test of `get_queryset`. */
  predicate FeaturedIfRequested(params: map<string, string>, p: Product) {
    FeaturedRequested(params) ==> p.isFeatured
  }

  /** `ProductViewSet.get_queryset`: all products in default order, narrowed by the
      `category` parameter when present and by `featured` when it reads as true. */
  function GetQueryset(table: seq<Product>, params: map<string, string>): (r: seq<Product>)
    ensures forall p :: p in r ==> p in table && Matches(params, p)
  {
    var all := OrderedByNewest(table);
    assert forall p :: p in all ==> p in multiset(table);
    ByFeatured(params, ByCategory(params, all))
  }

  /** `queryset.filter(category__slug=category_slug)` when the parameter is not `None`. */
  function ByCategory(params: map<string, string>, qs: seq<Product>): (r: seq<Product>)
    ensures forall p :: p in r ==> p in qs && InRequestedCategory(params, p)
  {
    if "category" in params then
      var slug := params["category"];
      Filter((p: Product) => p.categorySlug == slug, qs)
    else qs
  }

  /** `queryset.filter(is_featured=True)` when the parameter reads as true. */
  function ByFeatured(params: map<string, string>, qs: seq<Product>): (r: seq<Product>)
    ensures forall p :: p in r ==> p in qs && FeaturedIfRequested(params, p)
  {
    if FeaturedRequested(params) then Filter((p: Product) => p.isFeatured, qs) else qs
  }

  /** Filtering a newest-first sequence leaves it newest first. */
  lemma {:induction false} FilterKeepsNewestFirst(f: Product -> bool, s: seq<Product>)
    requires NewestFirst(s)
    ensures NewestFirst(Filter(f, s))
  {
    if s != [] {
      FilterKeepsNewestFirst(f, s[1..]);
      if f(s[0]) {
        var rest := Filter(f, s[1..]);
        forall j | 0 <= j < |rest| ensures s[0].createdAt >= rest[j].createdAt {
          assert rest[j] in s[1..];
          var k :| 0 <= k < |s[1..]| && s[1..][k] == rest[j];
          assert s[k + 1] == rest[j];
        }
        assert Filter(f, s) == [s[0]] + rest;
      }
    }
  }

  lemma ByCategoryIsFilter(params: map<string, string>, qs: seq<Product>)
    ensures ByCategory(params, qs) == Filter(p => InRequestedCategory(params, p), qs)
  {
    if "category" in params {
      var slug := params["category"];
      FilterAgree((p: Product) => p.categorySlug == slug, p => InRequestedCategory(params, p), qs);
    } else {
      FilterKeepsAll(p => InRequestedCategory(params, p), qs);
    }
  }

  lemma ByFeaturedIsFilter(params: map<string, string>, qs: seq<Product>)
    ensures ByFeatured(params, qs) == Filter(p => FeaturedIfRequested(params, p), qs)
  {
    if FeaturedRequested(params) {
      FilterAgree((p: Product) => p.isFeatured, p => FeaturedIfRequested(params, p), qs);
    } else {
      FilterKeepsAll(p => FeaturedIfRequested(params, p), qs);
    }
  }

  /** The two filters combine as one filter by `Matches` over the ordered table. */
  lemma GetQuerysetIsFilter(table: seq<Product>, params: map<string, string>)
    ensures GetQueryset(table, params) == Filter(p => Matches(params, p), OrderedByNewest(table))
  {
    var all := OrderedByNewest(table);
    var inCategory: Product -> bool := p => InRequestedCategory(params, p);
    var featured: Product -> bool := p => FeaturedIfRequested(params, p);
    var matches: Product -> bool := p => Matches(params, p);
    ByCategoryIsFilter(params, all);
    assert ByCategory(params, all) == Filter(inCategory, all);
    ByFeaturedIsFilter(params, Filter(inCategory, all));
    assert GetQueryset(table, params) == Filter(featured, Filter(inCategory, all));
    FilterFilter(featured, inCategory, matches, all);
  }

  /** What the product list returns: exactly the matching products, each as often as in the
      table, as an order-preserving subsequence of the ordered table, newest first. */
  lemma GetQuerysetSpec(table: seq<Product>, params: map<string, string>)
    ensures IsSubsequence(GetQueryset(table, params), OrderedByNewest(table))
    ensures NewestFirst(GetQueryset(table, params))
    ensures forall p ::
      (multiset(GetQueryset(table, params))[p] == if Matches(params, p) then multiset(table)[p] else 0)
  {
    GetQuerysetIsFilter(table, params);
    FilterIsSubsequence(p => Matches(params, p), OrderedByNewest(table));
    FilterKeepsNewestFirst(p => Matches(params, p), OrderedByNewest(table));
    FilterMultiset(p => Matches(params, p), OrderedByNewest(table));
  }

  /** Without `category` and without a true `featured`, every product is listed. */
  lemma NoFiltersListsAll(table: seq<Product>, params: map<string, string>)
    requires "category" !in params && !FeaturedRequested(params)
    ensures GetQueryset(table, params) == OrderedByNewest(table)
  {
  }

  /** A present `category` parameter filters, even when it is empty. */
  lemma CategoryFilters(table: seq<Product>, params: map<string, string>, p: Product)
    requires "category" in params
    ensures p in GetQueryset(table, params) <==>
      p in table && p.categorySlug == params["category"] && (FeaturedRequested(params) ==> p.isFeatured)
  {
    GetQuerysetSpec(table, params);
    assert p in GetQueryset(table, params) <==> p in multiset(GetQueryset(table, params));
  }

  /** A `featured` value that does not read as true leaves the featured flag unchecked. */
  lemma FeaturedIgnoredUnlessTrue(table: seq<Product>, params: map<string, string>)
    requires "featured" in params && !FeaturedFlagSet(params["featured"])
    ensures GetQueryset(table, params) == GetQueryset(table, params - {"featured"})
  {
  }

  // ---------------------------------------------------------------------------------------
  // SiteConfigurationViewSet.list
  // ---------------------------------------------------------------------------------------

  /** The configuration `list` answers with and the table afterwards: the first row when
      there is one, otherwise a freshly created default row with primary key `nextId`. */
  function ListOutcome(rows: seq<SiteConfiguration>, nextId: nat): (r: (SiteConfiguration, seq<SiteConfiguration>))
    ensures |r.1| > 0 && r.0 == r.1[0]
    ensures rows != [] ==> r.1 == rows
    ensures rows == [] ==> r.1 == [r.0] && r.0.siteName == DefaultSiteName && r.0.id == nextId
  {
    if rows != [] then (rows[0], rows)
    else
      var created := DefaultConfiguration(nextId);
      (created, [created])
  }

  /** A second `list` returns the same configuration and creates nothing. */
  lemma ListIsStable(rows: seq<SiteConfiguration>, nextId: nat, laterId: nat)
    ensures ListOutcome(ListOutcome(rows, nextId).1, laterId) == ListOutcome(rows, nextId)
  {
  }

  /** Primary keys in a table: strictly increasing in row order, and all below the key the
      next insert gets, so that a new row never reuses a key and stays last. */
  predicate KeysInOrder(rows: seq<SiteConfiguration>, nextId: nat) {
    (forall i, j :: 0 <= i < j < |rows| ==> rows[i].id < rows[j].id) &&
    (forall i :: 0 <= i < |rows| ==> rows[i].id < nextId)
  }

  /** The `SiteConfiguration` table, in primary-key order, with the key the next insert gets. */
  class ConfigurationStore {
    var rows: seq<SiteConfiguration>
    var nextId: nat

    predicate Valid()
      reads this
    {
      KeysInOrder(rows, nextId)
    }

    constructor (rows: seq<SiteConfiguration>, nextId: nat)
      requires KeysInOrder(rows, nextId)
      ensures this.rows == rows && this.nextId == nextId && Valid()
    {
      this.rows := rows;
      this.nextId := nextId;
    }

    /** `objects.first()`: the row with the lowest primary key, if any. */
    function First(): (r: Option<SiteConfiguration>)
      reads this
      requires Valid()
      ensures r == None <==> rows == []
      ensures r.Some? ==> r.value in rows && forall i :: 0 <= i < |rows| ==> r.value.id <= rows[i].id
    {
      if rows == [] then None else Some(rows[0])
    }

    /** `objects.create()`: inserts a row with every field at its default and a fresh key. */
    method Create() returns (c: SiteConfiguration)
      requires Valid()
      modifies this
      ensures Valid()
      ensures c == DefaultConfiguration(old(nextId))
      ensures forall i :: 0 <= i < |old(rows)| ==> old(rows)[i].id != c.id
      ensures rows == old(rows) + [c] && nextId == old(nextId) + 1
    {
      c := DefaultConfiguration(nextId);
      rows := rows + [c];
      nextId := nextId + 1;
    }

    /** `SiteConfigurationViewSet.list`: the first configuration, created if missing. */
    method List() returns (config: SiteConfiguration)
      requires Valid()
      modifies this
      ensures Valid()
      ensures (config, rows) == ListOutcome(old(rows), old(nextId))
      ensures nextId == if old(rows) == [] then old(nextId) + 1 else old(nextId)
    {
      var first := First();
      if first.None? {
        config := Create();
        assert rows == [config];
      } else {
        config := first.value;
        assert config == rows[0];
      }
    }
  }

  /** Two requests in a row answer with the same configuration; the second creates nothing. */
  method ListTwice(store: ConfigurationStore) returns (first: SiteConfiguration, second: SiteConfiguration)
    requires store.Valid()
    modifies store
    ensures store.Valid()
    ensures first == second && |store.rows| > 0 && store.rows[0] == first
    ensures old(store.rows) != [] ==> store.rows == old(store.rows)
    ensures old(store.rows) == [] ==> store.rows == [first]
  {
    first := store.List();
    ghost var afterFirst := store.rows;
    second := store.List();
    assert store.rows == afterFirst;
  }
}
