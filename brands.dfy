/** app/trusted-technology-brands/page.tsx: the brand showcase. On mount one product
    query per configured brand is run in turn; each result is stored under the brand's
    id, a failing query is skipped, and the page state is assigned once at the end. */
module TrustedBrands {
  import opened Common

  /** A configured brand: its key in the results and the name products list it by. */
  datatype Brand = Brand(id: string, name: string)

  const BrandsConfig: seq<Brand> := [Brand("zumtobel", "ZUMTOBEL"), Brand("lit", "LIT")]

  /** The most products fetched per brand. */
  const QueryLimit: nat := 10

  /** `query(collection(db, c), where("brands", "array-contains", brandName), limit(n))`. */
  datatype BrandQuery = BrandQuery(collection: string, brandName: string, limit: nat)

  /** What getDocs answers: the matching products, or a thrown error. */
  datatype QueryReply = Docs(products: seq<Product>) | QueryFailed

  function QueryFor(b: Brand): (q: BrandQuery)
    ensures q.collection == "products" && q.brandName == b.name && q.limit == QueryLimit
  {
    BrandQuery("products", b.name, QueryLimit)
  }

  predicate DistinctBrandIds(config: seq<Brand>) {
    forall i, j :: 0 <= i < j < |config| ==> config[i].id != config[j].id
  }

  /** The configured ids are distinct, so no brand's entry is overwritten. */
  lemma ConfigIdsDistinct()
    ensures DistinctBrandIds(BrandsConfig)
  {
  }

  /** The results after the brands of `config` were processed in order, `replies[i]`
      answering the query of `config[i]`. */
  function Collected(config: seq<Brand>, replies: seq<QueryReply>): (r: map<string, seq<Product>>)
    requires |replies| == |config|
    ensures forall id :: id in r ==> exists i :: 0 <= i < |config| && config[i].id == id && replies[i].Docs?
  {
    if config == [] then map[]
    else
      var n := |config| - 1;
      var m := Collected(config[..n], replies[..n]);
      if replies[n].Docs? then m[config[n].id := replies[n].products] else m
  }

  /** With distinct ids the results are keyed by brand: a brand has an entry exactly when
      its query answered, holding that answer, whatever the other brands' queries did. */
  lemma {:induction false} CollectedByBrand(config: seq<Brand>, replies: seq<QueryReply>)
    requires |replies| == |config| && DistinctBrandIds(config)
    ensures var r := Collected(config, replies);
            forall i :: 0 <= i < |config| ==>
              && (config[i].id in r <==> replies[i].Docs?)
              && (replies[i].Docs? ==> r[config[i].id] == replies[i].products)
  {
    if config != [] {
      var n := |config| - 1;
      CollectedByBrand(config[..n], replies[..n]);
      var m := Collected(config[..n], replies[..n]);
      assert forall i :: 0 <= i < n ==> config[..n][i] == config[i] && replies[..n][i] == replies[i];
      assert config[n].id !in m;
    }
  }

  /** When every answer respects its query's limit, no brand shows more than ten
      products. */
  lemma {:induction false} CollectedWithinLimit(config: seq<Brand>, replies: seq<QueryReply>)
    requires |replies| == |config|
    requires forall i :: 0 <= i < |replies| && replies[i].Docs? ==> |replies[i].products| <= QueryFor(config[i]).limit
    ensures forall id :: id in Collected(config, replies) ==> |Collected(config, replies)[id]| <= QueryLimit
  {
    if config != [] {
      var n := |config| - 1;
      CollectedWithinLimit(config[..n], replies[..n]);
    }
  }

  /** fetchBrandProducts' loop: one query per brand, in config order, each failure
      caught so that the later brands are still queried. */
  method FetchBrandProducts(config: seq<Brand>, replies: seq<QueryReply>)
      returns (results: map<string, seq<Product>>, queries: seq<BrandQuery>)
    requires |replies| == |config|
    ensures |queries| == |config|
    ensures forall i :: 0 <= i < |config| ==> queries[i] == QueryFor(config[i])
    ensures results == Collected(config, replies)
  {
    results := map[];
    queries := [];
    for i := 0 to |config|
      invariant |queries| == i
      invariant forall k :: 0 <= k < i ==> queries[k] == QueryFor(config[k])
      invariant results == Collected(config[..i], replies[..i])
    {
      var brand := config[i];
      queries := queries + [QueryFor(brand)];
      assert config[..i + 1][..i] == config[..i];
      assert replies[..i + 1][..i] == replies[..i];
      match replies[i]
      case Docs(products) =>
        results := results[brand.id := products];
      case QueryFailed =>
    }
    assert config[..|config|] == config;
    assert replies[..|replies|] == replies;
  }

  /** The page's state and its log of queries. */
  class BrandsShowcase {
    var brandProducts: map<string, seq<Product>>
    ghost var queries: seq<BrandQuery>

    constructor()
      ensures brandProducts == map[] && queries == []
    {
      brandProducts := map[];
      queries := [];
    }

    /** The mount effect: the loop runs on a local map, which becomes the page state in
        a single assignment after the last brand. */
    method LoadBrands(replies: seq<QueryReply>)
      requires |replies| == |BrandsConfig|
      modifies this
      ensures brandProducts == Collected(BrandsConfig, replies)
      ensures queries == old(queries) + [QueryFor(BrandsConfig[0]), QueryFor(BrandsConfig[1])]
    {
      var results, issued := FetchBrandProducts(BrandsConfig, replies);
      queries := queries + issued;
      brandProducts := results;
    }
  }
}
