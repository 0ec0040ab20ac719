/** A journal of numbered entries (single_responsibility/example_1.js).
    Entry numbers come from `Journal.count`, a static counter that every
    journal shares; here it is a `Counter` object that each journal refers to.
    The entries live in a plain object keyed by number, and JavaScript lists
    the values of integer-like keys in ascending numeric order. */
module Journals {
  import opened Decimal
  import opened Seqs

  /** `Journal.count`, set to 0 once and shared by every journal. */
  class Counter {
    var count: nat

    constructor()
      ensures count == 0
    {
      count := 0;
    }
  }

  /** The `${c}: ` that starts entry `c`. */
  function Label(id: nat): string {
    NatToString(id) + ": "
  }

  /** The entry `${c}: ${text}` that `addEntry(text)` stores under `c`. */
  function EntryText(id: nat, text: string): string {
    Label(id) + text
  }

  /** An entry is its label, the decimal number followed by ": ", then the text. */
  lemma EntryTextLayout(id: nat, text: string)
    ensures Label(id) <= EntryText(id, text) && EntryText(id, text)[|Label(id)|..] == text
    ensures Label(id)[..|Label(id)| - 2] == NatToString(id) && Label(id)[|Label(id)| - 2..] == ": "
  {
  }

  /** An entry's text gives back both its number and the text it was added with. */
  lemma EntryTextDeterminesIdAndText(id1: nat, text1: string, id2: nat, text2: string)
    requires EntryText(id1, text1) == EntryText(id2, text2)
    ensures id1 == id2 && text1 == text2
  {
    assert ':' !in NatToString(id1) && ':' !in NatToString(id2);
    assert EntryText(id1, text1) == NatToString(id1) + [':'] + (" " + text1);
    assert EntryText(id2, text2) == NatToString(id2) + [':'] + (" " + text2);
    SplitAtSeparator(NatToString(id1), " " + text1, NatToString(id2), " " + text2, ':');
    NatToStringRoundTrip(id1);
    NatToStringRoundTrip(id2);
    assert text1 == (" " + text1)[1..];
  }

  // ---------------------------------------------------------------------
  // Enumeration order of the entries

  predicate StrictlyIncreasing(s: seq<nat>) {
    forall i, j :: 0 <= i < j < |s| ==> s[i] < s[j]
  }

  lemma {:induction false} LeastExists(keys: set<nat>)
    requires keys != {}
    ensures exists least :: least in keys && forall k :: k in keys ==> least <= k
    decreases |keys|
  {
    var some :| some in keys;
    if exists smaller :: smaller in keys && smaller < some {
      var smaller :| smaller in keys && smaller < some;
      var others := keys - {some};
      assert smaller in others;
      LeastExists(others);
      var least :| least in others && forall k :: k in others ==> least <= k;
      assert forall k :: k in keys ==> k == some || k in others;
      assert least in keys && forall k :: k in keys ==> least <= k;
    } else {
      assert some in keys && forall k :: k in keys ==> some <= k;
    }
  }

  /** The smallest key. */
  function Least(keys: set<nat>): (least: nat)
    requires keys != {}
    ensures least in keys && forall k :: k in keys ==> least <= k
  {
    LeastExists(keys);
    var least :| least in keys && forall k :: k in keys ==> least <= k;
    least
  }

  /** The keys in ascending order. */
  function SortedKeys(keys: set<nat>): (r: seq<nat>)
    ensures StrictlyIncreasing(r)
    ensures forall k :: k in r <==> k in keys
    ensures |r| == |keys|
    decreases keys
  {
    if keys == {} then []
    else
      var least := Least(keys);
      var rest := SortedKeys(keys - {least});
      assert forall k :: k in rest ==> least < k;
      [least] + rest
  }

  /** Two ascending sequences with the same elements are equal, so `SortedKeys`
      is the only ascending listing of the keys. */
  lemma {:induction false} AscendingListingUnique(a: seq<nat>, b: seq<nat>)
    requires StrictlyIncreasing(a) && StrictlyIncreasing(b)
    requires forall k :: k in a <==> k in b
    ensures a == b
  {
    if a != [] {
      assert a[0] in a;
    }
    if b != [] {
      assert b[0] in b;
    }
    if a != [] && b != [] {
      assert a[0] in b && b[0] in a;
      assert a[0] == b[0];
      assert forall k :: k in a[1..] <==> k in a && k != a[0];
      assert forall k :: k in b[1..] <==> k in b && k != b[0];
      AscendingListingUnique(a[1..], b[1..]);
      assert a == [a[0]] + a[1..];
      assert b == [b[0]] + b[1..];
    }
  }

  /** The stored values in ascending key order: `Object.values(entries)`.
      There is one line per entry, and line `i` is the value stored under the
      `i`-th smallest key. */
  function Lines(entries: map<nat, string>): (lines: seq<string>)
    ensures |lines| == |entries|
    ensures forall i :: 0 <= i < |lines| ==> lines[i] == entries[SortedKeys(entries.Keys)[i]]
  {
    ValuesAt(entries, SortedKeys(entries.Keys))
  }

  /** Every stored value is a line and every line a stored value: nothing is
      lost or invented on the way to `toString`. */
  lemma LinesAreTheValues(entries: map<nat, string>)
    ensures forall v :: v in Lines(entries) <==> v in entries.Values
  {
    var keys := SortedKeys(entries.Keys);
    var lines := Lines(entries);
    ValuesAtCovers(entries, keys);
    forall v
      ensures v in lines <==> v in entries.Values
    {
      if v in lines {
        var i :| 0 <= i < |lines| && lines[i] == v;
        var k := keys[i];
        assert k in keys;
        assert k in entries.Keys;
        assert lines[i] == entries[k];
      }
      if v in entries.Values {
        var k :| k in entries && entries[k] == v;
        assert k in keys;
      }
    }
  }

  /** The values stored under `keys`, in the order of `keys`. */
  function ValuesAt(entries: map<nat, string>, keys: seq<nat>): (values: seq<string>)
    requires forall k :: k in keys ==> k in entries
    ensures |values| == |keys|
    ensures forall i :: 0 <= i < |keys| ==> values[i] == entries[keys[i]]
  {
    if keys == [] then [] else [entries[keys[0]]] + ValuesAt(entries, keys[1..])
  }

  /** The value under every listed key is among the values. */
  lemma ValuesAtCovers(entries: map<nat, string>, keys: seq<nat>)
    requires forall k :: k in keys ==> k in entries
    ensures forall k :: k in keys ==> entries[k] in ValuesAt(entries, keys)
  {
    var values := ValuesAt(entries, keys);
    forall k | k in keys
      ensures entries[k] in values
    {
      var i :| 0 <= i < |keys| && keys[i] == k;
      assert values[i] == entries[k];
    }
  }

  lemma {:induction false} ValuesAtAppend(entries: map<nat, string>, a: seq<nat>, b: seq<nat>)
    requires forall k :: k in a + b ==> k in entries
    ensures ValuesAt(entries, a + b) == ValuesAt(entries, a) + ValuesAt(entries, b)
  {
    if a == [] {
      assert a + b == b;
    } else {
      assert (a + b)[1..] == a[1..] + b;
      ValuesAtAppend(entries, a[1..], b);
    }
  }

  /** Only the values under the listed keys matter. */
  lemma {:induction false} ValuesAtAgree(entries: map<nat, string>, other: map<nat, string>, keys: seq<nat>)
    requires forall k :: k in keys ==> k in entries && k in other && entries[k] == other[k]
    ensures ValuesAt(entries, keys) == ValuesAt(other, keys)
  {
    if keys != [] {
      ValuesAtAgree(entries, other, keys[1..]);
    }
  }

  /** `Object.values(entries).join("\n")`: "" for no entries; otherwise the
      text starts with the entry under the smallest key. */
  function Render(entries: map<nat, string>): (text: string)
    ensures entries == map[] ==> text == ""
    ensures entries != map[] ==> entries[Least(entries.Keys)] <= text
  {
    Join(Lines(entries), "\n")
  }

  /** A key above every present key is listed last. */
  lemma SortedKeysWithLargerKey(keys: set<nat>, id: nat)
    requires forall k :: k in keys ==> k < id
    ensures SortedKeys(keys + {id}) == SortedKeys(keys) + [id]
  {
    var before := SortedKeys(keys);
    var r := before + [id];
    assert StrictlyIncreasing(r) by {
      forall i, j | 0 <= i < j < |r|
        ensures r[i] < r[j]
      {
        if j == |before| {
          assert r[i] == before[i] && before[i] in keys;
        }
      }
    }
    AscendingListingUnique(SortedKeys(keys + {id}), r);
  }

  /** An entry stored under a number above every present one becomes the last
      line: the rendered journal gains a newline and that entry at its end. */
  lemma RenderAfterAdd(entries: map<nat, string>, id: nat, entry: string)
    requires forall k :: k in entries ==> k < id
    ensures Lines(entries[id := entry]) == Lines(entries) + [entry]
    ensures Render(entries[id := entry]) ==
              if entries == map[] then entry else Render(entries) + "\n" + entry
  {
    var after := entries[id := entry];
    assert after.Keys == entries.Keys + {id};
    SortedKeysWithLargerKey(entries.Keys, id);
    var listed := SortedKeys(entries.Keys);
    assert SortedKeys(after.Keys) == listed + [id];
    ValuesAtAppend(after, listed, [id]);
    ValuesAtAgree(after, entries, listed);
    assert ValuesAt(after, [id]) == [entry];
    JoinSnoc(Lines(entries), entry, "\n");
    if entries != map[] {
      var k :| k in entries;
      assert k in SortedKeys(entries.Keys);
    }
  }

  /** Dropping one position of an ascending sequence keeps it ascending and
      removes exactly that element. */
  lemma DropPosition(s: seq<nat>, pos: nat)
    requires StrictlyIncreasing(s) && pos < |s|
    ensures StrictlyIncreasing(s[..pos] + s[pos + 1..])
    ensures forall k :: k in s[..pos] + s[pos + 1..] <==> k in s && k != s[pos]
  {
    var rest := s[..pos] + s[pos + 1..];
    assert forall i :: 0 <= i < |rest| ==> rest[i] == s[if i < pos then i else i + 1];
    forall k
      ensures k in rest <==> k in s && k != s[pos]
    {
      if k in s && k != s[pos] {
        var i :| 0 <= i < |s| && s[i] == k;
        assert rest[if i < pos then i else i - 1] == k;
      }
    }
  }

  /** Removing the key at position `pos` of the ascending listing leaves the
      listing without that position. */
  lemma SortedKeysAfterRemove(keys: set<nat>, pos: nat)
    requires pos < |SortedKeys(keys)|
    ensures SortedKeys(keys - {SortedKeys(keys)[pos]}) == SortedKeys(keys)[..pos] + SortedKeys(keys)[pos + 1..]
  {
    var listed := SortedKeys(keys);
    DropPosition(listed, pos);
    AscendingListingUnique(SortedKeys(keys - {listed[pos]}), listed[..pos] + listed[pos + 1..]);
  }

  /** Dropping one listed key drops exactly its value. */
  lemma ValuesAtDrop(entries: map<nat, string>, keys: seq<nat>, pos: nat)
    requires forall k :: k in keys ==> k in entries
    requires pos < |keys|
    ensures ValuesAt(entries, keys[..pos] + keys[pos + 1..]) == ValuesAt(entries, keys)[..pos] + ValuesAt(entries, keys)[pos + 1..]
  {
    var before, behind := keys[..pos], keys[pos + 1..];
    assert keys == before + [keys[pos]] + behind;
    ValuesAtAppend(entries, before, behind);
    ValuesAtAppend(entries, before + [keys[pos]], behind);
    ValuesAtAppend(entries, before, [keys[pos]]);
    assert ValuesAt(entries, [keys[pos]]) == [entries[keys[pos]]];
  }

  /** Removing a present key deletes exactly its line and keeps the others in order. */
  lemma LinesAfterRemove(entries: map<nat, string>, pos: nat)
    requires pos < |SortedKeys(entries.Keys)|
    ensures Lines(entries - {SortedKeys(entries.Keys)[pos]}) == Lines(entries)[..pos] + Lines(entries)[pos + 1..]
  {
    var listed := SortedKeys(entries.Keys);
    var id := listed[pos];
    var after := entries - {id};
    var rest := listed[..pos] + listed[pos + 1..];
    assert Lines(after) == ValuesAt(after, rest) by {
      assert after.Keys == entries.Keys - {id};
      SortedKeysAfterRemove(entries.Keys, pos);
    }
    assert ValuesAt(after, rest) == ValuesAt(entries, rest) by {
      DropPosition(listed, pos);
      ValuesAtAgree(after, entries, rest);
    }
    ValuesAtDrop(entries, listed, pos);
  }

  /** Every entry starts with the `${c}: ` label of its own key, as `addEntry` stores it. */
  predicate Labelled(entries: map<nat, string>) {
    forall id :: id in entries ==> Label(id) <= entries[id]
  }

  /** In a labelled journal line `i` of the rendering starts with the label of
      the `i`-th smallest number. */
  lemma LinesStartWithTheirNumbers(entries: map<nat, string>)
    requires Labelled(entries)
    ensures forall i :: 0 <= i < |Lines(entries)| ==>
              SortedKeys(entries.Keys)[i] in entries && Label(SortedKeys(entries.Keys)[i]) <= Lines(entries)[i]
  {
  }

  // ---------------------------------------------------------------------
  // The journal

  class Journal {
    var entries: map<nat, string>
    const counter: Counter

    /** Every stored entry is numbered by its key, which the shared counter has
        already handed out. */
    ghost predicate Valid()
      reads this, counter
    {
      && (forall id :: id in entries ==> 1 <= id <= counter.count)
      && Labelled(entries)
    }

    constructor(counter: Counter)
      ensures Valid()
      ensures entries == map[] && this.counter == counter
    {
      entries := map[];
      this.counter := counter;
    }

    /** `addEntry(text)`: bump the shared counter, store `${c}: ${text}` under
        the new number `c` and return it. The number was never used before,
        so no entry is overwritten. */
    method AddEntry(text: string) returns (id: nat)
      requires Valid()
      modifies this, counter
      ensures Valid()
      ensures counter.count == old(counter.count) + 1 && id == counter.count
      ensures forall k :: k in old(entries) ==> k < id
      ensures entries == old(entries)[id := EntryText(id, text)]
    {
      counter.count := counter.count + 1;
      id := counter.count;
      entries := entries[id := EntryText(id, text)];
    }

    /** `removeEntry(index)`: delete that key if present; the counter is left
        alone. A negative index names no entry, since numbers start at 1. */
    method RemoveEntry(index: int)
      requires Valid()
      modifies this
      ensures Valid() && counter.count == old(counter.count)
      ensures entries == if index < 0 then old(entries) else old(entries) - {index as nat}
    {
      if index >= 0 {
        entries := entries - {index as nat};
      }
    }

    /** `toString()`: the entries, one per line, in ascending number order. */
    function ToString(): (s: string)
      reads this
      ensures s == Render(entries)
    {
      Render(entries)
    }
  }

  // ---------------------------------------------------------------------
  // The script's own journal

  /** The first entry a journal numbers. */
  lemma FirstEntryText(text: string)
    ensures EntryText(1, text) == "1: " + text
  {
    assert NatToString(1) == [DigitChar(1)] && DigitChar(1) == '1';
  }

  /** The second entry a journal numbers. */
  lemma SecondEntryText(text: string)
    ensures EntryText(2, text) == "2: " + text
  {
    assert NatToString(2) == [DigitChar(2)] && DigitChar(2) == '2';
  }

  /** The two entries of the script's journal, as `addEntry` numbers them. */
  lemma ExampleEntryTexts()
    ensures EntryText(1, "I cried today.") == "1: I cried today."
    ensures EntryText(2, "I took coffee.") == "2: I took coffee."
  {
    FirstEntryText("I cried today.");
    SecondEntryText("I took coffee.");
  }

  /** How the script's journal renders with both entries and with the first only. */
  lemma ExampleRendering(e1: string, e2: string)
    ensures Render(map[1 := e1]) == e1
    ensures Render(map[1 := e1, 2 := e2]) == e1 + "\n" + e2
    ensures Render(map[1 := e1, 2 := e2] - {2}) == e1
  {
    assert map[1 := e1, 2 := e2] - {2} == map[1 := e1];
    RenderAfterAdd(map[], 1, e1);
    assert map[][1 := e1] == map[1 := e1];
    RenderAfterAdd(map[1 := e1], 2, e2);
    assert map[1 := e1][2 := e2] == map[1 := e1, 2 := e2];
  }

  /** A fresh journal given two entries, then the second removed: both lines
      joined by a newline, then the first line alone. */
  method TwoEntriesThenRemoveSecond(text1: string, text2: string) returns (both: string, afterRemoval: string)
    ensures both == EntryText(1, text1) + "\n" + EntryText(2, text2)
    ensures afterRemoval == EntryText(1, text1)
  {
    var count := new Counter();
    var j := new Journal(count);
    var first := j.AddEntry(text1);
    var second := j.AddEntry(text2);
    var e1, e2 := EntryText(1, text1), EntryText(2, text2);
    assert j.entries == map[1 := e1, 2 := e2];
    both := j.ToString();
    assert both == e1 + "\n" + e2 by {
      ExampleRendering(e1, e2);
    }
    j.RemoveEntry(2);
    afterRemoval := j.ToString();
    assert afterRemoval == e1 by {
      ExampleRendering(e1, e2);
    }
  }

  /** The script's journal: two entries, then the second removed. */
  method JournalExample() returns (both: string, afterRemoval: string)
    ensures both == "1: I cried today." + "\n" + "2: I took coffee."
    ensures afterRemoval == "1: I cried today."
  {
    both, afterRemoval := TwoEntriesThenRemoveSecond("I cried today.", "I took coffee.");
    ExampleEntryTexts();
  }

  /** Two journals share one counter, and a removed number is not handed out again. */
  method SharedCounterExample() returns (a: int, b: int, c: int)
    ensures a == 1 && b == 2 && c == 3
  {
    var count := new Counter();
    var j1 := new Journal(count);
    var j2 := new Journal(count);
    a := j1.AddEntry("first");
    b := j2.AddEntry("second");
    j2.RemoveEntry(b);
    c := j2.AddEntry("third");
  }
}
