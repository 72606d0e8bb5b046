/** What extraction keeps of a page, said of the page's own matches. */
module ExtractionMeaning {
  import opened Wrappers
  import opened Observation
  import opened Extraction

  /** An element as the page gave it, under this index. */
  predicate Gives(d: Data, index: nat, e: RawElement) {
    && e.index == index && e.role == d.role && e.inputType == d.inputType && e.autocomplete == d.autocomplete
    && e.href == d.href && e.attributes == d.attributes && e.visible == d.visible && e.disabled == d.disabled
    && e.tag == (if d.tag.Some? && d.tag.value != "" then d.tag.value else "unknown")
    && e.text == (if d.text.Some? then d.text.value else "")
  }

  /** Same in everything but whether it can be seen and used. */
  predicate Duplicates(a: Data, b: Data) {
    && a.tag == b.tag && a.role == b.role && a.text == b.text && a.inputType == b.inputType
    && a.autocomplete == b.autocomplete && a.href == b.href && a.attributes == b.attributes
  }

  /** This place is scanned before that one: an earlier selector, or an earlier match of the same. */
  predicate Sooner(a: Locator, b: Locator) {
    a.selector < b.selector || (a.selector == b.selector && a.position < b.position)
  }

  predicate InOrder(scan: seq<Sighting>) {
    forall i, j :: 0 <= i < j < |scan| ==> Sooner(scan[i].0, scan[j].0)
  }

  /** What follows in the scan is not before this place. */
  predicate From(scan: seq<Sighting>, s: nat, g: nat) {
    forall x | x in scan :: x.0.selector > s || (x.0.selector == s && x.0.position >= g)
  }

  lemma {:induction false} ScanInOrder(groups: Groups, s: nat, g: nat)
    ensures InOrder(ScanFrom(groups, s, g)) && From(ScanFrom(groups, s, g), s, g)
    decreases |groups| - s, SCAN_CAP - g
  {
    if s >= |groups| {
    } else if g >= |groups[s]| || g >= SCAN_CAP {
      ScanInOrder(groups, s + 1, 0);
    } else {
      ScanInOrder(groups, s, g + 1);
    }
  }

  /** What has been found is in order and comes before all that is still to be scanned. */
  predicate Ahead(found: seq<Sighting>, scan: seq<Sighting>) {
    InOrder(found + scan)
  }

  lemma {:induction false} DedupInOrder(scan: seq<Sighting>, seen: set<Data>, found: seq<Sighting>)
    requires Ahead(found, scan)
    ensures InOrder(Dedup(scan, seen, found))
    decreases |scan|
  {
    if scan != [] {
      var x, rest := scan[0], scan[1..];
      if KeyOf(x.1) in seen {
        assert [x] + rest == scan;
        SkipOne(found, x, rest);
        DedupInOrder(rest, seen, found);
      } else {
        assert (found + [x]) + rest == found + scan;
        DedupInOrder(rest, seen + {KeyOf(x.1)}, found + [x]);
      }
    } else {
      assert found + scan == found;
    }
  }

  lemma SkipOne(found: seq<Sighting>, x: Sighting, rest: seq<Sighting>)
    requires InOrder(found + ([x] + rest))
    ensures InOrder(found + rest)
  {
    var all, less := found + ([x] + rest), found + rest;
    forall i, j | 0 <= i < j < |less|
      ensures Sooner(less[i].0, less[j].0)
    {
      var i', j' := if i < |found| then i else i + 1, if j < |found| then j else j + 1;
      assert less[i] == all[i'] && less[j] == all[j'];
    }
  }

  lemma SameKey(a: Data, b: Data)
    ensures KeyOf(a) == KeyOf(b) <==> Duplicates(a, b)
  {
  }

  /** At this place, which x does not come before, is a duplicate of x. */
  predicate Keeps(groups: Groups, at: Locator, x: Sighting) {
    && at.selector < |groups| && at.position < |groups[at.selector]| && groups[at.selector][at.position].Some?
    && Duplicates(groups[at.selector][at.position].value, x.1) && !Sooner(x.0, at)
  }

  /** The element at this place of the page, under this index. */
  predicate GivesAt(groups: Groups, at: Locator, index: nat, e: RawElement) {
    && at.selector < |groups| && at.position < |groups[at.selector]| && groups[at.selector][at.position].Some?
    && Gives(groups[at.selector][at.position].value, index, e)
  }

  predicate KeptFor(kept: Sighting, x: Sighting) {
    KeyOf(kept.1) == KeyOf(x.1) && !Sooner(x.0, kept.0)
  }

  /** What is found of a key is its first sighting. */
  lemma {:induction false} DedupSooner(scan: seq<Sighting>, seen: set<Data>, found: seq<Sighting>, x: Sighting)
    requires KeysDiffer(found) && KeysSeen(found, seen) && InOrder(found + scan) && x in scan
    ensures exists i :: 0 <= i < |Dedup(scan, seen, found)| && KeptFor(Dedup(scan, seen, found)[i], x)
    decreases |scan|
  {
    var y, rest, all := scan[0], scan[1..], Dedup(scan, seen, found);
    assert scan == [y] + rest;
    DedupKeeps(scan, seen, found);
    if KeyOf(x.1) in seen {
      assert HasKey(found, KeyOf(x.1));
      var i :| 0 <= i < |found| && KeyOf(found[i].1) == KeyOf(x.1);
      var j :| 0 <= j < |scan| && scan[j] == x;
      assert Sooner((found + scan)[i].0, (found + scan)[|found| + j].0);
      assert all[i] == found[i] && KeptFor(all[i], x);
    } else if x == y {
      DedupKeeps(rest, seen + {KeyOf(y.1)}, found + [y]);
      assert all[|found|] == (found + [y])[|found|] == y && KeptFor(all[|found|], x);
    } else if KeyOf(y.1) in seen {
      SkipOne(found, y, rest);
      DedupSooner(rest, seen, found, x);
    } else {
      FoundOneMore(found, seen, y);
      assert (found + [y]) + rest == found + scan;
      DedupSooner(rest, seen + {KeyOf(y.1)}, found + [y], x);
    }
  }

  /**
   Extraction: the elements are numbered in scanning order, each as the page gave it at its own place;
   of everything within the caps a duplicate is there, the first one in scanning order.
   */
  lemma ExtractedExact(groups: Groups)
    ensures
      var elements, places := Elements(Extracted(groups)), Locators(Extracted(groups));
      && |elements| == |places|
      && (forall i, j :: 0 <= i < j < |places| ==> Sooner(places[i], places[j]))
      && (forall i :: 0 <= i < |elements| ==> GivesAt(groups, places[i], i, elements[i]))
      && (forall x | At(groups, x) :: exists i :: 0 <= i < |places| && Keeps(groups, places[i], x))
  {
    var found := Extracted(groups);
    ExtractionSound(groups);
    ScanInOrder(groups, 0, 0);
    assert [] + ScanFrom(groups, 0, 0) == ScanFrom(groups, 0, 0);
    DedupInOrder(ScanFrom(groups, 0, 0), {}, []);
    forall i | 0 <= i < |found|
      ensures GivesAt(groups, Locators(found)[i], i, Elements(found)[i])
    {
      assert found[i] in found;
    }
    forall x | At(groups, x)
      ensures exists i :: 0 <= i < |found| && Keeps(groups, Locators(found)[i], x)
    {
      ScanMisses(groups, 0, 0, x);
      DedupSooner(ScanFrom(groups, 0, 0), {}, [], x);
      var i :| 0 <= i < |found| && KeptFor(found[i], x);
      SameKey(found[i].1, x.1);
      assert found[i] in found;
      assert Keeps(groups, Locators(found)[i], x);
    }
  }

  /** No two elements are duplicates. */
  lemma NoDuplicates(groups: Groups, i: nat, j: nat)
    requires i < j < |Extracted(groups)|
    ensures !Duplicates(Extracted(groups)[i].1, Extracted(groups)[j].1)
  {
    ExtractionSound(groups);
    SameKey(Extracted(groups)[i].1, Extracted(groups)[j].1);
  }
}
