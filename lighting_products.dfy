/** app/lighting-products-smart-solutions/page.tsx: the product catalogue with its
    search box and brand tabs, and the quote cart kept in browser-local storage. */
module LightingProducts {
  import opened Common

  /** The localStorage key holding the serialized cart. */
  const CartKey := "disruptive_quote_cart"
  /** The same-tab signal dispatched after every cart write. */
  const CartUpdated := "cartUpdated"

  /** A value stored under a localStorage key, as JSON.parse sees it. */
  datatype Stored =
    | Blank                        // the empty string: falsy, read as "no cart"
    | Json(items: seq<Product>)    // a serialized list (JSON round-trips)
    | Unparsable                   // JSON.parse throws

  /** The cart as `JSON.parse(localStorage.getItem(CartKey) || "[]")` yields it, or None
      where that expression throws. */
  function ReadCart(storage: map<string, Stored>): (r: Option<seq<Product>>)
    ensures r.None? <==> (CartKey in storage && storage[CartKey] == Unparsable)
    ensures CartKey !in storage ==> r == Some([])
    ensures CartKey in storage && storage[CartKey] == Blank ==> r == Some([])
    ensures CartKey in storage && storage[CartKey].Json? ==> r == Some(storage[CartKey].items)
  {
    if CartKey !in storage then Some([])
    else match storage[CartKey]
      case Blank => Some([])
      case Json(items) => Some(items)
      case Unparsable => None
  }

  /** `cart.find(item => item.id === id)` finds something. */
  predicate HasId(cart: seq<Product>, id: string) {
    exists i :: 0 <= i < |cart| && cart[i].id == id
  }

  predicate DistinctIds(cart: seq<Product>) {
    forall i, j :: 0 <= i < j < |cart| ==> cart[i].id != cart[j].id
  }

  /** The list addToQuote stores: the product appended unless its id is present. */
  function WithProduct(cart: seq<Product>, p: Product): (r: seq<Product>)
    ensures HasId(r, p.id)
    ensures HasId(cart, p.id) ==> r == cart
    ensures !HasId(cart, p.id) ==> r == cart + [p]
  {
    if HasId(cart, p.id) then cart
    else
      var r := cart + [p];
      assert r[|cart|].id == p.id;
      r
  }

  /** The list removeFromQuote stores: every item with that id dropped. */
  function WithoutId(cart: seq<Product>, id: string): (r: seq<Product>)
    ensures !HasId(r, id)
    ensures IsSubseq(r, cart)
    ensures forall x :: x in r <==> x in cart && x.id != id
    ensures forall x :: multiset(r)[x] == if x.id != id then multiset(cart)[x] else 0
  {
    var keep := (x: Product) => x.id != id;
    FilterCount(cart, keep);
    var r := Filter(cart, keep);
    assert forall i :: 0 <= i < |r| ==> r[i] in r;
    r
  }

  /** Adding the same product twice stores the same list as adding it once. */
  lemma AddIdempotent(cart: seq<Product>, p: Product)
    ensures WithProduct(WithProduct(cart, p), p) == WithProduct(cart, p)
  {
  }

  /** Adding never introduces a duplicate id. */
  lemma AddKeepsIdsDistinct(cart: seq<Product>, p: Product)
    requires DistinctIds(cart)
    ensures DistinctIds(WithProduct(cart, p))
  {
    if !HasId(cart, p.id) {
      var r := cart + [p];
      forall i, j | 0 <= i < j < |r| ensures r[i].id != r[j].id {
        if j == |cart| {
          assert r[i] == cart[i];
        }
      }
    }
  }

  /** Removing an id that is absent stores the list unchanged. */
  lemma RemoveAbsent(cart: seq<Product>, id: string)
    requires !HasId(cart, id)
    ensures WithoutId(cart, id) == cart
  {
    forall x | x in cart ensures x.id != id {
      var i :| 0 <= i < |cart| && cart[i] == x;
    }
    FilterAll(cart, (x: Product) => x.id != id);
  }

  /** Starting from a cart without p.id, add then remove restores the previous list. */
  lemma RemoveAfterAdd(cart: seq<Product>, p: Product)
    requires !HasId(cart, p.id)
    ensures WithoutId(WithProduct(cart, p), p.id) == cart
  {
    var r := cart + [p];
    assert r[..|r| - 1] == cart;
    RemoveAbsent(cart, p.id);
  }

  /** The brand tabs of the catalogue. */
  datatype BrandTab = AllBrands | Lit | Zumtobel

  function TabLabel(tab: BrandTab): string {
    match tab
    case AllBrands => "All"
    case Lit => "LIT"
    case Zumtobel => "ZUMTOBEL"
  }

  /** `p.name?.toLowerCase().includes(searchQuery.toLowerCase())`: a product without a
      name never matches. */
  predicate MatchesSearch(p: Product, searchQuery: string) {
    ContainsIgnoringCase(p.name, searchQuery)
  }

  /** "All" matches everything; another tab matches products whose brands list it. */
  predicate MatchesBrand(p: Product, tab: BrandTab) {
    tab == AllBrands || (p.brands.Some? && TabLabel(tab) in p.brands.value)
  }

  /** The products shown: an order-preserving sub-list of the snapshot holding exactly
      the products that match both the search and the tab. */
  function FilteredProducts(products: seq<Product>, searchQuery: string, tab: BrandTab): (r: seq<Product>)
    ensures IsSubseq(r, products)
    ensures forall p :: p in r <==> p in products && MatchesSearch(p, searchQuery) && MatchesBrand(p, tab)
    ensures forall p :: multiset(r)[p] == (if MatchesSearch(p, searchQuery) && MatchesBrand(p, tab) then multiset(products)[p] else 0)
    ensures forall p :: p in r ==> p.name.Some?
    ensures tab != AllBrands ==> forall p :: p in r ==> p.brands.Some?
  {
    var keep := (p: Product) => MatchesSearch(p, searchQuery) && MatchesBrand(p, tab);
    FilterCount(products, keep);
    Filter(products, keep)
  }

  /** With an empty search and the "All" tab every named product is shown. */
  lemma EmptySearchShowsNamedProducts(products: seq<Product>)
    requires forall p :: p in products ==> p.name.Some?
    ensures FilteredProducts(products, "", AllBrands) == products
  {
    forall p | p in products ensures MatchesSearch(p, "") {
      ContainsEmptyIffPresent(p.name);
    }
    FilterAll(products, (p: Product) => MatchesSearch(p, "") && MatchesBrand(p, AllBrands));
  }

  /** The page's state. */
  class CataloguePage {
    var storage: map<string, Stored>   // window.localStorage
    var quoteCart: seq<Product>
    var events: seq<string>            // events dispatched on window
    var products: seq<Product>
    var loading: bool
    var searchQuery: string
    var activeFilter: BrandTab

    /** Mounting: initial state, then the first syncCart. */
    constructor(storage0: map<string, Stored>)
      ensures storage == storage0 && events == []
      ensures quoteCart == (if ReadCart(storage0).Some? then ReadCart(storage0).value else [])
      ensures products == [] && loading && searchQuery == "" && activeFilter == AllBrands
    {
      storage := storage0;
      quoteCart := [];
      events := [];
      products := [];
      loading := true;
      searchQuery := "";
      activeFilter := AllBrands;
      new;
      SyncCart();
    }

    /** syncCart, run on mount, on "storage" and on "cartUpdated": a missing or empty
        value reads as the empty cart; an unparsable one leaves the cart as it was. */
    method SyncCart()
      modifies this`quoteCart
      ensures ReadCart(storage).Some? ==> quoteCart == ReadCart(storage).value
      ensures ReadCart(storage).None? ==> quoteCart == old(quoteCart)
    {
      if CartKey in storage && storage[CartKey] != Blank {
        match storage[CartKey]
        case Json(items) => quoteCart := items;
        case Unparsable =>
      } else {
        quoteCart := [];
      }
    }

    /** window.dispatchEvent(new Event("cartUpdated")): the listener this page
        registered runs synchronously. */
    method DispatchCartUpdated()
      modifies this`events, this`quoteCart
      ensures events == old(events) + [CartUpdated]
      ensures ReadCart(storage).Some? ==> quoteCart == ReadCart(storage).value
      ensures ReadCart(storage).None? ==> quoteCart == old(quoteCart)
    {
      events := events + [CartUpdated];
      SyncCart();
    }

    /** addToQuote. `threw` is the uncaught JSON.parse exception on a corrupt value. */
    method AddToQuote(p: Product) returns (threw: bool)
      modifies this`storage, this`events, this`quoteCart
      ensures threw <==> ReadCart(old(storage)).None?
      ensures threw ==> storage == old(storage) && events == old(events) && quoteCart == old(quoteCart)
      ensures !threw && HasId(ReadCart(old(storage)).value, p.id) ==>
                storage == old(storage) && events == old(events) && quoteCart == old(quoteCart)
      ensures !threw && !HasId(ReadCart(old(storage)).value, p.id) ==>
                var updated := WithProduct(ReadCart(old(storage)).value, p);
                && updated == ReadCart(old(storage)).value + [p]
                && storage == old(storage)[CartKey := Json(updated)]
                && events == old(events) + [CartUpdated]
                && quoteCart == updated
    {
      var current := ReadCart(storage);
      if current.None? {
        return true;
      }
      threw := false;
      if !HasId(current.value, p.id) {
        var updated := current.value + [p];
        storage := storage[CartKey := Json(updated)];
        DispatchCartUpdated();
      }
    }

    /** removeFromQuote: always rewrites storage and signals, even for an absent id. */
    method RemoveFromQuote(id: string) returns (threw: bool)
      modifies this`storage, this`events, this`quoteCart
      ensures threw <==> ReadCart(old(storage)).None?
      ensures threw ==> storage == old(storage) && events == old(events) && quoteCart == old(quoteCart)
      ensures !threw ==>
                var updated := WithoutId(ReadCart(old(storage)).value, id);
                && storage == old(storage)[CartKey := Json(updated)]
                && events == old(events) + [CartUpdated]
                && quoteCart == updated
    {
      var current := ReadCart(storage);
      if current.None? {
        return true;
      }
      threw := false;
      var updated := WithoutId(current.value, id);
      storage := storage[CartKey := Json(updated)];
      DispatchCartUpdated();
    }

    /** A pushed snapshot of the "products" query replaces the list wholesale. */
    method OnProductsSnapshot(docs: seq<Product>)
      modifies this`products, this`loading
      ensures products == docs && !loading
    {
      products := docs;
      loading := false;
    }

    /** The search box: the query becomes the typed text. */
    method SetSearchQuery(q: string)
      modifies this`searchQuery
      ensures searchQuery == q
      ensures Shown() == FilteredProducts(products, q, activeFilter)
    {
      searchQuery := q;
    }

    /** A brand tab button: the tab becomes the active filter. */
    method SelectTab(tab: BrandTab)
      modifies this`activeFilter
      ensures activeFilter == tab
      ensures Shown() == FilteredProducts(products, searchQuery, tab)
    {
      activeFilter := tab;
    }

    /** What the grid renders. */
    function Shown(): (r: seq<Product>)
      reads this
      ensures IsSubseq(r, products)
      ensures forall p :: p in r <==> p in products && MatchesSearch(p, searchQuery) && MatchesBrand(p, activeFilter)
      ensures forall p :: multiset(r)[p] == (if MatchesSearch(p, searchQuery) && MatchesBrand(p, activeFilter) then multiset(products)[p] else 0)
    {
      FilteredProducts(products, searchQuery, activeFilter)
    }
  }
}
