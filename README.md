# SOLID teaching scripts, modelled in Dafny

The repository holds four independent JavaScript scripts. Each one shows a
SOLID design principle on a toy domain. This project models the logic of each
script once its console output is stripped away, and proves what the code and
its worked examples promise.

- `products.dfy` (module `Products`) covers the Open-Closed example. Products
  have a name, a colour and a size. `ProductFilter` has one hand-written filter
  per combination of attributes. The Specification pattern replaces them:
  colour and size specifications, an AND combinator over any number of
  children (vacuously true with none), and one `BetterFilter.filter` that takes
  a specification. The lemmas show that the filter keeps exactly the satisfying
  items in their original order. They show that AND filtering is successive
  filtering, that each specification filters like the hand-written filter it
  replaces, and they check the script's own queries.
- `genealogy.dfy` (module `Genealogy`) covers the Dependency-Inversion
  example. `Relationships` and `RelationshipsTwo` are classes with an
  append-only `seq` of `{from, to, type}` records. `findAllChildrenOf` is a
  filter followed by a map. The `Research` step filters the store's array
  directly; a lemma shows it selects the same people, in the same order, as the
  browser does.
- `shapes.dfy` (module `Shapes`) covers the Liskov-Substitution example. It has
  mutable rectangles and squares with `area` and `toString`. `SquareTwo`
  overrides both setters of `RectangleTwo`. The model keeps one class and a
  constant `isSquare` that records which class an object was built as, so the
  setters dispatch as JavaScript does. `UseIt` accepts any `RectangleTwo`, and
  its contract says exactly when its caller's expectation fails: only for a
  square whose side was not already 10.
- `journals.dfy` (module `Journals`) covers the Single-Responsibility example.
  A `Journal` stores numbered entries in a map. The numbers come from
  `Journal.count`, a static counter shared by every journal, modelled as a
  `Counter` object that each journal refers to. `toString` joins the values in
  ascending key order, the order in which JavaScript lists integer-like keys.
  Keys are also handed out in increasing order, so both orders agree.
- `seqs.dfy` (module `Seqs`) holds `Array.prototype.filter`, `map` and `join`,
  with their properties. `decimal.dfy` (module `Decimal`) holds how a template
  literal writes an integer, with a parser that reads the text back.

Filtering and the browser query are functions over values, so they cannot
change their input list or the records in it.

Products and records are typed datatypes whose fields always exist, so no
attribute can be missing.

## Model

| member | source | states |
|---|---|---|
| Seqs.Filter | open-closed_principle/01_example.js:100 | `Array.prototype.filter`: the result is no longer than the input, and each kept element comes from the input and passes the test |
| Seqs.MapSeq | dependency-inversion-principle/01_example.js:100 | `Array.prototype.map`: same length as the input, and element `i` is `f` of input element `i` |
| Seqs.FilterSelectsSatisfying | open-closed_principle/01_example.js:98-102 | filtering picks out a subsequence at strictly increasing positions, and a position is picked exactly when its element passes the test |
| Seqs.FilterConjunction | open-closed_principle/01_example.js:117-119 | filtering by `p && q` equals filtering by `p`, then filtering that result by `q` |
| Seqs.FilterEmptyIff | dependency-inversion-principle/01_example.js:98-100 | a filter returns `[]` exactly when no element passes the test |
| Seqs.FilterAppend | dependency-inversion-principle/01_example.js:97-101 | filtering a concatenation filters each part and concatenates the results |
| Seqs.Join | single_responsibility/example_1.js:18 | `join`: "" for no elements; otherwise the text starts with the first element (`JoinSnoc` gives how each further element is appended) |
| Seqs.JoinSnoc | single_responsibility/example_1.js:18 | `join` of a list with one more element adds a separator and that element at the end, or gives the element alone when the list was empty |
| Decimal.NatToString | single_responsibility/example_1.js:8 | `${c}` of a natural number is a non-empty string of decimal digits with no leading zero, and exactly "0" for 0 |
| Decimal.IntToString | liskov-substitution-principle/01_example.js:13 | `${n}` of an integer is digits, with a '-' in front exactly when the integer is negative, no leading zero unless the integer is 0, and exactly "0" for 0; with `IntToStringRoundTrip` this fixes the text |
| Decimal.IntToStringRoundTrip | liskov-substitution-principle/01_example.js:13 | reading back the text written for an integer gives the integer, so different integers print differently |
| Products.FilterByColor | open-closed_principle/01_example.js:24-26 | every product returned is from the input and has the requested colour |
| Products.FilterBySize | open-closed_principle/01_example.js:44-46 | every product returned is from the input and has the requested size |
| Products.FilterBySizeAndColor | open-closed_principle/01_example.js:60-62 | every product returned is from the input and has both the requested size and colour |
| Products.IsSatisfied | open-closed_principle/01_example.js:76-120 | `isSatisfied` of the three specification classes (lines 80-82, 88-90, 117-119): a colour specification holds exactly when the item has that colour, a size specification exactly when it has that size, an AND exactly when every child holds, so an AND with no children holds for every item |
| Products.Every | open-closed_principle/01_example.js:118 | `specs.every(...)` is true exactly when every specification in the list is satisfied by the item, and true for the empty list |
| Products.BetterFilter | open-closed_principle/01_example.js:98-102 | every item returned is from the input and satisfies the specification |
| Products.AndOfTwo | open-closed_principle/01_example.js:123-126 | the two-child AND that the script builds is the conjunction of its two children |
| Products.BetterFilterSelectsSatisfying | open-closed_principle/01_example.js:98-102 | `BetterFilter` returns no more items than it gets: exactly the satisfying ones, in their original order |
| Products.AndFilterIsSuccessiveFilters | open-closed_principle/01_example.js:112-126 | filtering by AND(P1, P2) equals filtering by P1, then filtering that result by P2 |
| Products.AndFilterIsFilterEach | open-closed_principle/01_example.js:112-120 | filtering by an AND of any number of children equals filtering by each child in turn |
| Products.ColorSpecAgreesWithFilterByColor | open-closed_principle/01_example.js:76-83 | filtering with a colour specification gives the same list as `filterByColor` |
| Products.SizeSpecAgreesWithFilterBySize | open-closed_principle/01_example.js:84-91 | filtering with a size specification gives the same list as `filterBySize` |
| Products.AndSpecAgreesWithFilterBySizeAndColor | open-closed_principle/01_example.js:112-126 | filtering with AND(colour, size) gives the same list as `filterBySizeAndColor` |
| Products.GreenProducts | open-closed_principle/01_example.js:29-39 | on Apple, Tree and House, both green queries (hand-written and by specification) give [Apple, Tree] |
| Products.LargeProducts | open-closed_principle/01_example.js:47-50 | on the same products, the large query gives [Tree, House] |
| Products.LargeAndGreenProducts | open-closed_principle/01_example.js:122-129 | on the same products, green-and-large gives only Tree |
| Genealogy.ChildrenOf | dependency-inversion-principle/01_example.js:97-101 | no longer than the store; a person is returned exactly when some parent record from that name points to them |
| Genealogy.ChildrenInInsertionOrder | dependency-inversion-principle/01_example.js:97-101 | the children are the targets of the matching records, one per record, in insertion order |
| Genealogy.NoChildrenIffNoParentRecord | dependency-inversion-principle/01_example.js:97-101 | the answer is empty exactly when the store holds no parent record from that name |
| Genealogy.ChildrenAfterAdd | dependency-inversion-principle/01_example.js:89-101 | after adding (parent, child), the parent's name gains that child at the end, and every other name's answer stays the same |
| Genealogy.Relationships.constructor | dependency-inversion-principle/01_example.js:18-20 | a new store is empty |
| Genealogy.ParentRecord | dependency-inversion-principle/01_example.js:22-26 | the pushed record `{from: parent, to: child, type: parent}`; it is a parent record of the parent's name and leads to the child (`ChildrenAfterAdd` uses this) |
| Genealogy.Relationships.AddParentAndChild | dependency-inversion-principle/01_example.js:21-27 | appends exactly one record {from: parent, to: child, type: parent}; earlier records are unchanged |
| Genealogy.ResearchSelection | dependency-inversion-principle/01_example.js:34-37 | the records `Research` filters out of the store: no more than the store holds, and a record is selected exactly when it is in the store, comes from a person named "John" and has type parent |
| Genealogy.ResearchAgreesWithBrowser | dependency-inversion-principle/01_example.js:34-37 | the records `Research` selects for "John" lead to the same people, in the same order, as `findAllChildrenOf("John")` |
| Genealogy.RelationshipsTwo.constructor | dependency-inversion-principle/01_example.js:84-87 | a new store is empty |
| Genealogy.RelationshipsTwo.AddParentAndChild | dependency-inversion-principle/01_example.js:89-95 | appends exactly one parent record; earlier records are unchanged |
| Genealogy.RelationshipsTwo.FindAllChildrenOf | dependency-inversion-principle/01_example.js:97-101 | reads the store without changing it; no longer than the store; returns exactly the targets of the name's parent records |
| Genealogy.ResearchExample | dependency-inversion-principle/01_example.js:43-51 | with John→Chris and John→Matt stored, the research names Chris, then Matt |
| Genealogy.BrowserExample | dependency-inversion-principle/01_example.js:112-116 | with the same records, `findAllChildrenOf("John")` is [Chris, Matt] |
| Shapes.Show | liskov-substitution-principle/01_example.js:13 | `${width}x${height}`: the width's text, then one 'x', then the height's text; the separator is the only 'x' in the result |
| Shapes.ShowDeterminesSides | liskov-substitution-principle/01_example.js:12-14 | two shapes whose `toString` texts are equal have the same width and the same height |
| Shapes.Rectangle.constructor | liskov-substitution-principle/01_example.js:5-8 | the new rectangle has the given width and height |
| Shapes.Rectangle.Square | liskov-substitution-principle/01_example.js:22-26 | a new `Square(size)` has width = height = size |
| Shapes.Rectangle.Area | liskov-substitution-principle/01_example.js:9-11 | the `area` getter is width × height; `SquareWidthWrite` proves what a direct width write does to a square's area |
| Shapes.Rectangle.ToString | liskov-substitution-principle/01_example.js:12-14 | `toString` is the width's decimal text, "x", then the height's; `ShowDeterminesSides` shows the text determines both sides |
| Shapes.RectangleTwo.constructor | liskov-substitution-principle/01_example.js:36-39 | a new `RectangleTwo` has the given sides and is not a square |
| Shapes.RectangleTwo.SquareTwo | liskov-substitution-principle/01_example.js:54-57 | a new `SquareTwo(size)` has width = height = size and keeps the square invariant |
| Shapes.RectangleTwo.SetWidth | liskov-substitution-principle/01_example.js:43-58 | the width becomes the value; a rectangle's height is untouched, and a square's height follows, so width = height still holds |
| Shapes.RectangleTwo.SetHeight | liskov-substitution-principle/01_example.js:44-59 | the height becomes the value; a rectangle's width is untouched, and a square's width follows, so width = height still holds |
| Shapes.RectangleTwo.Area | liskov-substitution-principle/01_example.js:46-48 | the `area` getter is `_width` × `_height`; for a square that keeps its invariant, the side squared |
| Shapes.RectangleTwo.ToString | liskov-substitution-principle/01_example.js:49-51 | `toString` is the `_width` text, "x", then the `_height` text; `ShowDeterminesSides` shows the text determines both sides |
| Shapes.UseIt | liskov-substitution-principle/01_example.js:70-76 | the expected area is 10 × the old width and the one got is the new area; they agree exactly when the object is a plain rectangle or its side was already 10 |
| Shapes.RectangleExample | liskov-substitution-principle/01_example.js:17-18 | `Rectangle(200, 300)` prints as 200x300 |
| Shapes.SquareWidthWrite | liskov-substitution-principle/01_example.js:28-32 | after `width = w` on `new Square(size)` the area is w × size, which equals w × w exactly when w is 0 or w is size: a direct write breaks the square |
| Shapes.SquareExample | liskov-substitution-principle/01_example.js:28-31 | writing the width of a 5x5 `Square` to 10 gives 10x5, which is no longer square |
| Shapes.SquareTwoExample | liskov-substitution-principle/01_example.js:63-66 | setting the width of a 5x5 `SquareTwo` to 10 gives 10x10 |
| Shapes.UseItExample | liskov-substitution-principle/01_example.js:78-79 | `useIt` expects 50 and gets 50 for `RectangleTwo(5, 10)`, but expects 50 and gets 100 for `SquareTwo(5)` |
| Journals.Counter.constructor | single_responsibility/example_1.js:22 | the shared counter starts at 0 |
| Journals.Journal.constructor | single_responsibility/example_1.js:2-4 | a new journal has no entries and refers to the given shared counter |
| Journals.Journal.AddEntry | single_responsibility/example_1.js:6-11 | increments the shared counter by one and returns its new value `c`, which is above every number already stored; stores exactly `"<c>: <text>"` under `c` and changes no other key |
| Journals.Journal.RemoveEntry | single_responsibility/example_1.js:13-15 | deletes that key and nothing else; an absent key leaves the journal unchanged; the counter is not touched, so numbers are never reused |
| Journals.Journal.ToString | single_responsibility/example_1.js:17-19 | the text is the journal's entries rendered by `Render`, whose lines `Lines`, `LinesAreTheValues`, `RenderAfterAdd` and `LinesAfterRemove` describe |
| Journals.EntryTextLayout | single_responsibility/example_1.js:8 | the entry `${c}: ${text}` is the label (the decimal number followed by ": ") followed by the text; `EntryTextDeterminesIdAndText` is its partner |
| Journals.EntryTextDeterminesIdAndText | single_responsibility/example_1.js:8 | an entry's text determines both the number and the text it was added with |
| Journals.SortedKeys | single_responsibility/example_1.js:18 | the keys listed in strictly ascending order, each key exactly once |
| Journals.AscendingListingUnique | single_responsibility/example_1.js:18 | two ascending listings of the same keys are equal, so the value order of `toString` is fully fixed |
| Journals.Lines | single_responsibility/example_1.js:18 | `Object.values(entries)`: one line per entry; line `i` is the value stored under the `i`-th smallest key |
| Journals.LinesAreTheValues | single_responsibility/example_1.js:18 | a text is a line of `toString` exactly when it is a stored value: nothing is lost or invented |
| Journals.Render | single_responsibility/example_1.js:18 | `Object.values(entries).join("\n")`: "" for no entries, otherwise a text that starts with the entry of the smallest key |
| Journals.LinesStartWithTheirNumbers | single_responsibility/example_1.js:6-18 | when every entry starts with its own "<c>: " label, as `addEntry` stores it, line `i` of `toString` starts with the label of the `i`-th smallest number |
| Journals.RenderAfterAdd | single_responsibility/example_1.js:6-19 | storing an entry under a number above every present key adds it as the last line: the rendered text gains "\n" and the entry, or is just the entry when the journal was empty |
| Journals.LinesAfterRemove | single_responsibility/example_1.js:13-19 | removing a present key deletes exactly its line and keeps the other lines in order |
| Journals.ExampleEntryTexts | single_responsibility/example_1.js:24-26 | the script's two entries are stored as "1: I cried today." and "2: I took coffee." |
| Journals.ExampleRendering | single_responsibility/example_1.js:24-30 | a journal with entries 1 and 2 renders as the two joined by "\n"; with entry 1 alone, or after entry 2 is removed, as entry 1 |
| Journals.TwoEntriesThenRemoveSecond | single_responsibility/example_1.js:24-30 | for any two texts, a fresh journal given both reads entry 1 and entry 2, as `EntryText` writes them, joined by "\n"; after entry 2 is removed it reads entry 1 alone |
| Journals.JournalExample | single_responsibility/example_1.js:24-30 | after both entries the journal reads "1: I cried today.\n2: I took coffee."; after removing entry 2 it reads "1: I cried today." |
| Journals.SharedCounterExample | single_responsibility/example_1.js:7-22 | two journals sharing the counter get numbers 1 and 2; after number 2 is removed, the next entry gets 3 |

## Left out

- Console output, and the loops that exist only to print, such as the `for … of` loops that print products, the `Research`/`ResearchTwo` printing loops and every `console.log`. The model returns the sequences that get printed.
- `PersistanceManager.saveToFile` and its empty `preprocess` stub: file output through `fs`, a library outside this model.
- The `RelationshipBrowser` guard that throws when the class is built directly. It relies on reflection over class names, and interface types are not part of this model's Dafny subset. `RelationshipsTwo` offers the browser's one query directly.
- Inheritance. `Square` adds only a constructor, so it is the named constructor `Rectangle.Square`. `SquareTwo` is `RectangleTwo` with `isSquare` set, so its setters dispatch on that tag.
- The `width`/`height` accessors. The Dafny fields `width` and `height` of `RectangleTwo` are the JavaScript fields `_width` and `_height`; the `RectangleTwo` getters just return them.
- `SquareTwo`'s `width`/`height` getters return `undefined`, because it defines only setters. The model does not represent this.
- Extending `ProductFilter.prototype` at run time. `FilterBySize` and `FilterBySizeAndColor` are ordinary functions.
- JavaScript number semantics. Sides and entry numbers are unbounded integers, not IEEE doubles. Products of huge sides, precision loss beyond 2^53 and the exponent notation that `${n}` uses from 10^21 on are not modelled.
- Object identity. Products, people and records are values, so two equal records are the same record. The scripts never compare these objects by identity.
- Journals.Journal.RemoveEntry: takes integer indices only. JavaScript would also accept a string key such as "2", which names the same entry, or other property names, which delete nothing.
- The commented-out code: the `Specification` base-class sketch and the `saveToFile` method inside `Journal`.
