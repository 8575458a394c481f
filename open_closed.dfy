/** Filtering products by colour and size: the hard-wired `ProductFilter`
    and the pluggable `Filter` / `Criteria` pair of the open-closed example. */
module OpenClosed {

  datatype Color = Red | Green | Blue
  datatype Size = Small | Medium | Large

  /** A product. The filters pass products around by pointer and never
      write through them, so a product is an object whose fields cannot
      change, and a `seq<Product>` is a vector of pointers: two entries are
      equal exactly when they point at the same product. */
  class Product {
    const name: string
    const color: Color
    const size: Size

    constructor (name: string, color: Color, size: Size)
      ensures this.name == name && this.color == color && this.size == size
    {
      this.name := name;
      this.color := color;
      this.size := size;
    }
  }

  /** The two concrete criteria; each carries the value it was built with. */
  datatype Criteria = ColorIs(color: Color) | SizeIs(size: Size)

  /** `is_satisfied` of `ProductColorCriteria` and `ProductSizeCriteria`:
      each compares one field of the product with its own value and looks
      at nothing else. */
  function IsSatisfied(criteria: Criteria, p: Product): (b: bool)
    ensures criteria.ColorIs? ==> (b <==> p.color == criteria.color)
    ensures criteria.SizeIs? ==> (b <==> p.size == criteria.size)
  {
    match criteria
    case ColorIs(c) => p.color == c
    case SizeIs(s) => p.size == s
  }

  /** The products of `items` that satisfy `criteria`, in their order. */
  function Selected(items: seq<Product>, criteria: Criteria): (r: seq<Product>)
    ensures |r| <= |items|
    ensures forall i :: 0 <= i < |r| ==> r[i] in items && IsSatisfied(criteria, r[i])
    ensures forall i :: 0 <= i < |items| && IsSatisfied(criteria, items[i]) ==> items[i] in r
  {
    if items == [] then []
    else if IsSatisfied(criteria, items[0]) then [items[0]] + Selected(items[1..], criteria)
    else Selected(items[1..], criteria)
  }

  /** `r` can be obtained from `s` by deleting elements: same order, no
      element added or repeated. */
  predicate SubsequenceOf(r: seq<Product>, s: seq<Product>) {
    if r == [] then true
    else if s == [] then false
    else (r[0] == s[0] && SubsequenceOf(r[1..], s[1..])) || SubsequenceOf(r, s[1..])
  }

  // ---------------------------------------------------------------------
  // Properties of the selection

  lemma {:induction false} SelectedAppend(items: seq<Product>, p: Product, criteria: Criteria)
    ensures Selected(items + [p], criteria)
         == Selected(items, criteria) + (if IsSatisfied(criteria, p) then [p] else [])
  {
    if items != [] {
      assert (items + [p])[1..] == items[1..] + [p];
      SelectedAppend(items[1..], p, criteria);
    }
  }

  /** The result keeps the input's order: it is a subsequence of it. */
  lemma {:induction false} SelectedIsSubsequence(items: seq<Product>, criteria: Criteria)
    ensures SubsequenceOf(Selected(items, criteria), items)
  {
    if items != [] {
      SelectedIsSubsequence(items[1..], criteria);
      var rest := Selected(items[1..], criteria);
      if IsSatisfied(criteria, items[0]) {
        assert ([items[0]] + rest)[1..] == rest;
      }
    }
  }

  /** Each product occurs in the result as often as it occurs in the input
      if it satisfies the criteria, and not at all otherwise: nothing is
      duplicated and nothing matching is dropped. */
  lemma {:induction false} SelectedCounts(items: seq<Product>, criteria: Criteria, p: Product)
    ensures multiset(Selected(items, criteria))[p]
         == if IsSatisfied(criteria, p) then multiset(items)[p] else 0
  {
    if items != [] {
      SelectedCounts(items[1..], criteria, p);
      assert items == [items[0]] + items[1..];
    }
  }

  /** Every subsequence of `items` made of matching products is no longer
      than the selection. */
  lemma {:induction false} MatchingSubsequenceBound(r: seq<Product>, items: seq<Product>, criteria: Criteria)
    requires SubsequenceOf(r, items)
    requires forall p :: p in r ==> IsSatisfied(criteria, p)
    ensures |r| <= |Selected(items, criteria)|
  {
    if r != [] {
      if r[0] == items[0] && SubsequenceOf(r[1..], items[1..]) {
        MatchingSubsequenceBound(r[1..], items[1..], criteria);
      } else {
        MatchingSubsequenceBound(r, items[1..], criteria);
      }
    }
  }

  /** The selection is the one longest subsequence of the input made only of
      matching products: an independent description of the same result. */
  lemma {:induction false} SelectedIsUnique(r: seq<Product>, items: seq<Product>, criteria: Criteria)
    requires SubsequenceOf(r, items)
    requires forall p :: p in r ==> IsSatisfied(criteria, p)
    requires |r| == |Selected(items, criteria)|
    ensures r == Selected(items, criteria)
  {
    if r != [] {
      var rest := Selected(items[1..], criteria);
      if r[0] == items[0] && SubsequenceOf(r[1..], items[1..]) {
        SelectedIsUnique(r[1..], items[1..], criteria);
      } else {
        MatchingSubsequenceBound(r, items[1..], criteria);
        if IsSatisfied(criteria, items[0]) {
          assert false;
        } else {
          SelectedIsUnique(r, items[1..], criteria);
        }
      }
    }
  }

  /** Filtering a filtered list again with the same criteria changes nothing. */
  lemma {:induction false} SelectedIdempotent(items: seq<Product>, criteria: Criteria)
    ensures Selected(Selected(items, criteria), criteria) == Selected(items, criteria)
  {
    if items != [] {
      SelectedIdempotent(items[1..], criteria);
    }
  }

  /** Two filters can be applied in either order. */
  lemma {:induction false} SelectedCommute(items: seq<Product>, a: Criteria, b: Criteria)
    ensures Selected(Selected(items, a), b) == Selected(Selected(items, b), a)
  {
    if items != [] {
      SelectedCommute(items[1..], a, b);
    }
  }

  // ---------------------------------------------------------------------
  // Filter<T>::by_criteria

  /** Walks the items once and keeps, in order, those the criteria accept. */
  method ByCriteria(items: seq<Product>, criteria: Criteria) returns (result: seq<Product>)
    ensures result == Selected(items, criteria)
  {
    result := [];
    for i := 0 to |items|
      invariant result == Selected(items[..i], criteria)
    {
      SelectedAppend(items[..i], items[i], criteria);
      assert items[..i + 1] == items[..i] + [items[i]];
      if IsSatisfied(criteria, items[i]) {
        result := result + [items[i]];
      }
    }
    assert items[..|items|] == items;
  }

  // ---------------------------------------------------------------------
  // ProductFilter: one hand-written loop per query

  method ByColor(products: seq<Product>, color: Color) returns (result: seq<Product>)
    ensures result == Selected(products, ColorIs(color))
  {
    result := [];
    for i := 0 to |products|
      invariant result == Selected(products[..i], ColorIs(color))
    {
      SelectedAppend(products[..i], products[i], ColorIs(color));
      assert products[..i + 1] == products[..i] + [products[i]];
      if products[i].color == color {
        result := result + [products[i]];
      }
    }
    assert products[..|products|] == products;
  }

  method BySize(products: seq<Product>, size: Size) returns (result: seq<Product>)
    ensures result == Selected(products, SizeIs(size))
  {
    result := [];
    for i := 0 to |products|
      invariant result == Selected(products[..i], SizeIs(size))
    {
      SelectedAppend(products[..i], products[i], SizeIs(size));
      assert products[..i + 1] == products[..i] + [products[i]];
      if products[i].size == size {
        result := result + [products[i]];
      }
    }
    assert products[..|products|] == products;
  }

  /** Keeps a product when both its size and its colour match: the same as
      filtering by size and then by colour. */
  method BySizeAndColor(products: seq<Product>, size: Size, color: Color) returns (result: seq<Product>)
    ensures result == Selected(Selected(products, SizeIs(size)), ColorIs(color))
    ensures forall p :: p in result <==> p in products && p.size == size && p.color == color
  {
    result := [];
    for i := 0 to |products|
      invariant result == Selected(Selected(products[..i], SizeIs(size)), ColorIs(color))
    {
      var p := products[i];
      assert products[..i + 1] == products[..i] + [p];
      SelectedAppend(products[..i], p, SizeIs(size));
      var sized := Selected(products[..i], SizeIs(size));
      SelectedAppend(sized, p, ColorIs(color));
      if p.size == size {
        assert Selected(products[..i + 1], SizeIs(size)) == sized + [p];
      } else {
        assert Selected(products[..i + 1], SizeIs(size)) == sized;
      }
      if p.size == size && p.color == color {
        result := result + [p];
      }
    }
    assert products[..|products|] == products;
  }

  // ---------------------------------------------------------------------
  // The two designs agree

  /** Filtering with a `ProductColorCriteria` gives what `by_color` gives. */
  method SameAsByColor(products: seq<Product>, color: Color)
    returns (viaCriteria: seq<Product>, viaFilter: seq<Product>)
    ensures viaCriteria == viaFilter
  {
    viaCriteria := ByCriteria(products, ColorIs(color));
    viaFilter := ByColor(products, color);
  }

  /** Filtering with a `ProductSizeCriteria` gives what `by_size` gives. */
  method SameAsBySize(products: seq<Product>, size: Size)
    returns (viaCriteria: seq<Product>, viaFilter: seq<Product>)
    ensures viaCriteria == viaFilter
  {
    viaCriteria := ByCriteria(products, SizeIs(size));
    viaFilter := BySize(products, size);
  }

  // ---------------------------------------------------------------------
  // The demonstration's catalogue

  lemma {:induction false} GreenOfCatalogue(bread: Product, milk: Product, water: Product, coffee: Product,
                         tea: Product, juice: Product, cherry: Product)
    requires bread.color == Red && milk.color == Green && water.color == Blue
    requires coffee.color == Green && tea.color == Green && juice.color == Blue
    requires cherry.color == Red
    ensures Selected([bread, milk, water, coffee, tea, juice, cherry], ColorIs(Green))
         == [milk, coffee, tea]
  {
    var g := ColorIs(Green);
    assert Selected([cherry], g) == [];
    assert Selected([juice, cherry], g) == [];
    assert Selected([tea, juice, cherry], g) == [tea];
    assert Selected([coffee, tea, juice, cherry], g) == [coffee, tea];
    assert Selected([water, coffee, tea, juice, cherry], g) == [coffee, tea];
    assert Selected([milk, water, coffee, tea, juice, cherry], g) == [milk, coffee, tea];
  }

  /** The seven products of the demonstration, filtered by the criteria
      "colour is green", give Milk, Coffee and Tea in that order. */
  method GreenProducts() returns (names: seq<string>)
    ensures names == ["Milk", "Coffee", "Tea"]
  {
    var bread := new Product("Bread", Red, Small);
    var milk := new Product("Milk", Green, Small);
    var water := new Product("Water", Blue, Large);
    var coffee := new Product("Coffee", Green, Medium);
    var tea := new Product("Tea", Green, Small);
    var juice := new Product("Juice", Blue, Medium);
    var cherry := new Product("Cherries", Red, Large);
    var products := [bread, milk, water, coffee, tea, juice, cherry];

    var green := ByCriteria(products, ColorIs(Green));
    GreenOfCatalogue(bread, milk, water, coffee, tea, juice, cherry);
    names := [green[0].name, green[1].name, green[2].name];
  }
}
