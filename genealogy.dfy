/** Genealogy records: an append-only store of relations, a research step
    that reads the store directly, and the browser that answers "who are the
    children of X" in its place (dependency-inversion-principle/01_example.js). */
module Genealogy {
  import opened Seqs

  /** The frozen `Relationship` enumeration (parent 0, child 1, sibling 2). */
  datatype Relationship = Parent | Child | Sibling

  datatype Person = Person(name: string)

  /** One stored record `{from, to, type}`. */
  datatype Relation = Relation(from: Person, to: Person, kind: Relationship)

  /** The record `addParentAndChild(parent, child)` pushes. */
  function ParentRecord(parent: Person, child: Person): (r: Relation)
    ensures r.from == parent && r.to == child && r.kind == Parent
    ensures IsParentRecordOf(parent.name)(r) && Target(r) == child
  {
    Relation(parent, child, Parent)
  }

  function IsParentRecordOf(name: string): Relation -> bool {
    (r: Relation) => r.from.name == name && r.kind == Parent
  }

  function Target(r: Relation): Person {
    r.to
  }

  /** `data.filter(r => r.from.name === name && r.type === parent).map(r => r.to)`. */
  function ChildrenOf(data: seq<Relation>, name: string): (children: seq<Person>)
    ensures |children| <= |data|
    ensures forall p :: p in children <==>
              exists i :: 0 <= i < |data| && data[i] == Relation(data[i].from, p, Parent) && data[i].from.name == name
  {
    var selected := Filter(data, IsParentRecordOf(name));
    FilterSelectsSatisfying(data, IsParentRecordOf(name));
    var children := MapSeq(selected, Target);
    assert forall p :: p in children <==> exists k :: 0 <= k < |selected| && selected[k].to == p;
    children
  }

  /** The children come out in insertion order: the `k`-th child is the target
      of the `k`-th matching record, and every matching record contributes one. */
  lemma ChildrenInInsertionOrder(data: seq<Relation>, name: string)
    ensures exists idx: seq<nat> :: |idx| == |ChildrenOf(data, name)|
              && (forall k, l :: 0 <= k < l < |idx| ==> idx[k] < idx[l])
              && (forall k :: 0 <= k < |idx| ==> idx[k] < |data| && ChildrenOf(data, name)[k] == data[idx[k]].to)
              && (forall j :: 0 <= j < |data| ==> (j in idx <==> data[j].from.name == name && data[j].kind == Parent))
  {
    FilterSelectsSatisfying(data, IsParentRecordOf(name));
  }

  /** A name with no parent record of its own has no children. */
  lemma NoChildrenIffNoParentRecord(data: seq<Relation>, name: string)
    ensures ChildrenOf(data, name) == [] <==>
              forall r :: r in data ==> !(r.from.name == name && r.kind == Parent)
  {
    FilterEmptyIff(data, IsParentRecordOf(name));
  }

  /** Adding a parent record adds its child at the end of the answer for that
      parent's name, and changes no other answer. */
  lemma ChildrenAfterAdd(data: seq<Relation>, parent: Person, child: Person, name: string)
    ensures ChildrenOf(data + [ParentRecord(parent, child)], name)
            == ChildrenOf(data, name) + (if parent.name == name then [child] else [])
  {
    var p := IsParentRecordOf(name);
    FilterAppend(data, [ParentRecord(parent, child)], p);
    assert [ParentRecord(parent, child)][1..] == [];
    MapSeqAppend(Filter(data, p), Filter([ParentRecord(parent, child)], p), Target);
  }

  // ---------------------------------------------------------------------
  // First version: the research reads the store's array itself

  /** `Relationships`, the low-level store. */
  class Relationships {
    var data: seq<Relation>

    constructor()
      ensures data == []
    {
      data := [];
    }

    /** `addParentAndChild`: push one parent record; earlier records stay as they were. */
    method AddParentAndChild(parent: Person, child: Person)
      modifies this
      ensures data == old(data) + [ParentRecord(parent, child)]
    {
      data := data + [ParentRecord(parent, child)];
    }
  }

  /** The records the `Research` constructor selects from `relationships.data`
      before printing each one's `to.name`. */
  function ResearchSelection(data: seq<Relation>): (selected: seq<Relation>)
    ensures |selected| <= |data|
    ensures forall r :: r in selected <==> r in data && r.from.name == "John" && r.kind == Parent
  {
    FilterSelectsSatisfying(data, (r: Relation) => r.from.name == "John" && r.kind == Parent);
    Filter(data, (r: Relation) => r.from.name == "John" && r.kind == Parent)
  }

  /** The research's own filter and the browser find the same people in the same order. */
  lemma ResearchAgreesWithBrowser(data: seq<Relation>)
    ensures MapSeq(ResearchSelection(data), Target) == ChildrenOf(data, "John")
  {
    FilterAgrees(data, (r: Relation) => r.from.name == "John" && r.kind == Parent, IsParentRecordOf("John"));
  }

  // ---------------------------------------------------------------------
  // Second version: the store answers the question itself

  /** `RelationshipsTwo`, the store behind the `RelationshipBrowser` interface. */
  class RelationshipsTwo {
    var data: seq<Relation>

    constructor()
      ensures data == []
    {
      data := [];
    }

    /** `addParentAndChild`: push one parent record; earlier records stay as they were. */
    method AddParentAndChild(parent: Person, child: Person)
      modifies this
      ensures data == old(data) + [ParentRecord(parent, child)]
    {
      data := data + [ParentRecord(parent, child)];
    }

    /** `findAllChildrenOf(name)`: a query, so it reads the store and changes nothing. */
    function FindAllChildrenOf(name: string): (children: seq<Person>)
      reads this
      ensures |children| <= |data|
      ensures forall p :: p in children <==>
                exists i :: 0 <= i < |data| && data[i] == Relation(data[i].from, p, Parent) && data[i].from.name == name
    {
      ChildrenOf(data, name)
    }
  }

  // ---------------------------------------------------------------------
  // The script's own records

  /** John with children Chris and Matt, through the first store and the research. */
  method ResearchExample() returns (named: seq<string>)
    ensures named == ["Chris", "Matt"]
  {
    var john, chris, matt := Person("John"), Person("Chris"), Person("Matt");
    var rels := new Relationships();
    rels.AddParentAndChild(john, chris);
    rels.AddParentAndChild(john, matt);
    assert rels.data == [ParentRecord(john, chris), ParentRecord(john, matt)];
    FilterAll(rels.data, (r: Relation) => r.from.name == "John" && r.kind == Parent);
    var selected := ResearchSelection(rels.data);
    named := MapSeq(selected, (r: Relation) => r.to.name);
  }

  /** John with children Chris and Matt, through the browser. */
  method BrowserExample() returns (children: seq<Person>)
    ensures children == [Person("Chris"), Person("Matt")]
  {
    var john, chris, matt := Person("John"), Person("Chris"), Person("Matt");
    var rels := new RelationshipsTwo();
    rels.AddParentAndChild(john, chris);
    ChildrenAfterAdd([], john, chris, "John");
    rels.AddParentAndChild(john, matt);
    ChildrenAfterAdd([ParentRecord(john, chris)], john, matt, "John");
    assert ChildrenOf([], "John") == [];
    children := rels.FindAllChildrenOf("John");
  }
}
