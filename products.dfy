/** Product filtering, first by hand-written filters on a `ProductFilter`,
    then with the Specification pattern: single-attribute specifications,
    an AND combinator over any number of them, and one filter that takes a
    specification (open-closed_principle/01_example.js). */
module Products {
  import opened Seqs

  /** The frozen `Color` and `Size` enumerations; each string value is one constructor. */
  datatype Color = Red | Green | Blue
  datatype Size = Small | Medium | Large

  datatype Product = Product(name: string, color: Color, size: Size)

  // ---------------------------------------------------------------------
  // ProductFilter: one method per combination of attributes

  function ColorIs(color: Color): Product -> bool {
    (p: Product) => p.color == color
  }

  function SizeIs(size: Size): Product -> bool {
    (p: Product) => p.size == size
  }

  function SizeAndColorAre(size: Size, color: Color): Product -> bool {
    (p: Product) => p.size == size && p.color == color
  }

  /** `ProductFilter.filterByColor`. */
  function FilterByColor(products: seq<Product>, color: Color): (r: seq<Product>)
    ensures forall p :: p in r ==> p in products && p.color == color
  {
    Filter(products, ColorIs(color))
  }

  /** `ProductFilter.prototype.filterBySize`, added after the fact. */
  function FilterBySize(products: seq<Product>, size: Size): (r: seq<Product>)
    ensures forall p :: p in r ==> p in products && p.size == size
  {
    Filter(products, SizeIs(size))
  }

  /** `ProductFilter.prototype.filterBySizeAndColor`, added after the fact. */
  function FilterBySizeAndColor(products: seq<Product>, size: Size, color: Color): (r: seq<Product>)
    ensures forall p :: p in r ==> p in products && p.size == size && p.color == color
  {
    Filter(products, SizeAndColorAre(size, color))
  }

  // ---------------------------------------------------------------------
  // Specification pattern

  /** `ColorSpesification(color)`, `SizeSpesification(size)` and
      `AndSpecifiation(...specs)`; the children of an `And` are fixed when it is built. */
  datatype Spec = ColorSpec(color: Color) | SizeSpec(size: Size) | And(specs: seq<Spec>)

  /** `spec.isSatisfied(item)`: a colour or size specification compares that
      one attribute; a combinator holds exactly when every child does. */
  predicate IsSatisfied(spec: Spec, item: Product)
    ensures spec.ColorSpec? ==> (IsSatisfied(spec, item) <==> item.color == spec.color)
    ensures spec.SizeSpec? ==> (IsSatisfied(spec, item) <==> item.size == spec.size)
    ensures spec.And? ==> (IsSatisfied(spec, item) <==> forall s :: s in spec.specs ==> IsSatisfied(s, item))
  {
    match spec
    case ColorSpec(color) => item.color == color
    case SizeSpec(size) => item.size == size
    case And(specs) => Every(specs, item)
  }

  /** `specs.every(x => x.isSatisfied(item))`: left to right, stopping at the
      first child that is not satisfied; true when there are no children. */
  predicate Every(specs: seq<Spec>, item: Product)
    ensures Every(specs, item) <==> forall s :: s in specs ==> IsSatisfied(s, item)
  {
    if specs == [] then true
    else
      assert Every(specs[1..], item) <==> forall s :: s in specs[1..] ==> IsSatisfied(s, item);
      assert forall s :: s in specs <==> s == specs[0] || s in specs[1..];
      IsSatisfied(specs[0], item) && Every(specs[1..], item)
  }

  function Satisfies(spec: Spec): Product -> bool {
    item => IsSatisfied(spec, item)
  }

  /** `BetterFilter.filter(items, spec)`. */
  function BetterFilter(items: seq<Product>, spec: Spec): (r: seq<Product>)
    ensures forall x :: x in r ==> x in items && IsSatisfied(spec, x)
  {
    Filter(items, Satisfies(spec))
  }

  // ---------------------------------------------------------------------
  // What the combinator and the filter guarantee

  /** The two-child combinator the script builds is the conjunction of its children. */
  lemma AndOfTwo(first: Spec, second: Spec, item: Product)
    ensures IsSatisfied(And([first, second]), item) <==> IsSatisfied(first, item) && IsSatisfied(second, item)
  {
    assert forall s :: s in [first, second] <==> s == first || s == second;
  }

  /** `BetterFilter` keeps exactly the items satisfying the specification, as a
      subsequence of the input in its original order. */
  lemma BetterFilterSelectsSatisfying(items: seq<Product>, spec: Spec)
    ensures |BetterFilter(items, spec)| <= |items|
    ensures exists idx :: Selects(idx, items, BetterFilter(items, spec))
                          && forall j :: 0 <= j < |items| ==> (j in idx <==> IsSatisfied(spec, items[j]))
  {
    FilterSelectsSatisfying(items, Satisfies(spec));
  }

  /** Filtering by `And(first, second)` is filtering by `first` and then by `second`. */
  lemma AndFilterIsSuccessiveFilters(items: seq<Product>, first: Spec, second: Spec)
    ensures BetterFilter(items, And([first, second])) == BetterFilter(BetterFilter(items, first), second)
  {
    forall x | x in items
      ensures Satisfies(And([first, second]))(x) == (Satisfies(first)(x) && Satisfies(second)(x))
    {
      AndOfTwo(first, second, x);
    }
    FilterConjunction(items, Satisfies(first), Satisfies(second), Satisfies(And([first, second])));
  }

  /** Filtering by the specifications one after the other, in order. */
  function FilterEach(items: seq<Product>, specs: seq<Spec>): seq<Product>
    decreases specs
  {
    if specs == [] then items else FilterEach(BetterFilter(items, specs[0]), specs[1..])
  }

  /** Filtering by an `And` of any number of children is filtering by each child in turn. */
  lemma {:induction false} AndFilterIsFilterEach(items: seq<Product>, specs: seq<Spec>)
    ensures BetterFilter(items, And(specs)) == FilterEach(items, specs)
    decreases specs
  {
    if specs == [] {
      assert forall x :: x in items ==> Satisfies(And(specs))(x);
      FilterAll(items, Satisfies(And(specs)));
    } else {
      var rest := And(specs[1..]);
      forall x | x in items
        ensures Satisfies(And(specs))(x) == (Satisfies(specs[0])(x) && Satisfies(rest)(x))
      {
        assert IsSatisfied(And(specs), x) == (IsSatisfied(specs[0], x) && IsSatisfied(rest, x));
      }
      FilterConjunction(items, Satisfies(specs[0]), Satisfies(rest), Satisfies(And(specs)));
      AndFilterIsFilterEach(BetterFilter(items, specs[0]), specs[1..]);
    }
  }

  /** A colour specification filters as `filterByColor` does. */
  lemma ColorSpecAgreesWithFilterByColor(products: seq<Product>, color: Color)
    ensures BetterFilter(products, ColorSpec(color)) == FilterByColor(products, color)
  {
    FilterAgrees(products, Satisfies(ColorSpec(color)), ColorIs(color));
  }

  /** A size specification filters as `filterBySize` does. */
  lemma SizeSpecAgreesWithFilterBySize(products: seq<Product>, size: Size)
    ensures BetterFilter(products, SizeSpec(size)) == FilterBySize(products, size)
  {
    FilterAgrees(products, Satisfies(SizeSpec(size)), SizeIs(size));
  }

  /** The combinator of a colour and a size specification filters as
      `filterBySizeAndColor` does. */
  lemma AndSpecAgreesWithFilterBySizeAndColor(products: seq<Product>, size: Size, color: Color)
    ensures BetterFilter(products, And([ColorSpec(color), SizeSpec(size)])) == FilterBySizeAndColor(products, size, color)
  {
    forall x | x in products
      ensures Satisfies(And([ColorSpec(color), SizeSpec(size)]))(x) == SizeAndColorAre(size, color)(x)
    {
      AndOfTwo(ColorSpec(color), SizeSpec(size), x);
    }
    FilterAgrees(products, Satisfies(And([ColorSpec(color), SizeSpec(size)])), SizeAndColorAre(size, color));
  }

  // ---------------------------------------------------------------------
  // The script's own products and queries

  function Catalogue(): seq<Product> {
    [Product("Apple", Green, Small), Product("Tree", Green, Large), Product("House", Blue, Large)]
  }

  /** Green products, both ways: Apple and Tree. */
  lemma GreenProducts()
    ensures FilterByColor(Catalogue(), Green) == [Catalogue()[0], Catalogue()[1]]
    ensures BetterFilter(Catalogue(), ColorSpec(Green)) == [Catalogue()[0], Catalogue()[1]]
  {
    var c := Catalogue();
    assert c[1..][1..][1..] == [];
    ColorSpecAgreesWithFilterByColor(c, Green);
  }

  /** Large products: Tree and House. */
  lemma LargeProducts()
    ensures FilterBySize(Catalogue(), Large) == [Catalogue()[1], Catalogue()[2]]
  {
    var c := Catalogue();
    assert c[1..][1..][1..] == [];
  }

  /** Large and green products: only Tree. */
  lemma LargeAndGreenProducts()
    ensures BetterFilter(Catalogue(), And([ColorSpec(Green), SizeSpec(Large)])) == [Catalogue()[1]]
  {
    var c := Catalogue();
    assert c[1..][1..][1..] == [];
    AndSpecAgreesWithFilterBySizeAndColor(c, Large, Green);
  }
}
