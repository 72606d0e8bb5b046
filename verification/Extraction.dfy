/** Bounded extraction of page elements, each with the place it can be located again. */
module Extraction {
  import opened Wrappers
  import opened Observation

  const SCAN_CAP: nat := 400

  /** What the fixed script returns for one element. */
  datatype Data = Data(
    tag: Option<string>, role: Option<string>, text: Option<string>, inputType: Option<string>,
    autocomplete: Option<string>, href: Option<string>, attributes: map<string, string>, visible: bool, disabled: bool)

  /** A position among the matches of one of the fixed selectors. */
  datatype Locator = Locator(selector: nat, position: nat)

  /** The matches of every selector in order; None where the script failed. */
  type Groups = seq<seq<Option<Data>>>

  datatype Page = Page(url: string, title: string, text: string, groups: Groups)

  /** Visibility and disabledness do not tell duplicates apart. */
  function KeyOf(d: Data): Data {
    d.(visible := true, disabled := false)
  }

  function OrElse(s: Option<string>, default: string): string {
    if s.None? || s.value == "" then default else s.value
  }

  function ElementOf(d: Data, index: nat): RawElement {
    RawElement(index, OrElse(d.tag, "unknown"), d.role, OrElse(d.text, ""), d.inputType, d.autocomplete, d.href,
               d.visible, d.disabled, d.attributes)
  }

  type Sighting = (Locator, Data)

  /** The elements still to be met from position g of selector s on. */
  function ScanFrom(groups: Groups, s: nat, g: nat): seq<Sighting>
    decreases |groups| - s, SCAN_CAP - g
  {
    if s >= |groups| then []
    else if g >= |groups[s]| || g >= SCAN_CAP then ScanFrom(groups, s + 1, 0)
    else match groups[s][g]
      case None => ScanFrom(groups, s, g + 1)
      case Some(d) => [(Locator(s, g), d)] + ScanFrom(groups, s, g + 1)
  }

  /** First sightings by key, added to those already made. */
  function Dedup(scan: seq<Sighting>, seen: set<Data>, found: seq<Sighting>): seq<Sighting>
    decreases |scan|
  {
    if scan == [] then found
    else if KeyOf(scan[0].1) in seen then Dedup(scan[1..], seen, found)
    else Dedup(scan[1..], seen + {KeyOf(scan[0].1)}, found + [scan[0]])
  }

  function Extracted(groups: Groups): seq<Sighting> {
    Dedup(ScanFrom(groups, 0, 0), {}, [])
  }

  function Elements(found: seq<Sighting>): seq<RawElement> {
    seq(|found|, i requires 0 <= i < |found| => ElementOf(found[i].1, i))
  }

  function Locators(found: seq<Sighting>): seq<Locator> {
    seq(|found|, i requires 0 <= i < |found| => found[i].0)
  }

  /** One element of the scan: recorded unless its key has been seen. */
  lemma DedupStep(x: Sighting, rest: seq<Sighting>, seen: set<Data>, found: seq<Sighting>)
    ensures Dedup([x] + rest, seen, found) ==
            if KeyOf(x.1) in seen then Dedup(rest, seen, found)
            else Dedup(rest, seen + {KeyOf(x.1)}, found + [x])
  {
    assert ([x] + rest)[1..] == rest;
  }

  /** The lists grow with what is found. */
  lemma ListsGrow(found: seq<Sighting>, x: Sighting)
    ensures Elements(found + [x]) == Elements(found) + [ElementOf(x.1, |found|)]
    ensures Locators(found + [x]) == Locators(found) + [x.0]
  {
  }

  method ExtractElements(groups: Groups) returns (elements: seq<RawElement>, locations: seq<Locator>)
    ensures elements == Elements(Extracted(groups)) && locations == Locators(Extracted(groups))
  {
    elements, locations := [], [];
    var seen: set<Data> := {};
    ghost var found: seq<Sighting> := [];
    for s := 0 to |groups|
      invariant elements == Elements(found) && locations == Locators(found)
      invariant Dedup(ScanFrom(groups, s, 0), seen, found) == Extracted(groups)
    {
      var count := if |groups[s]| < SCAN_CAP then |groups[s]| else SCAN_CAP;
      for g := 0 to count
        invariant elements == Elements(found) && locations == Locators(found)
        invariant Dedup(ScanFrom(groups, s, g), seen, found) == Extracted(groups)
      {
        var data := groups[s][g];
        if data.None? { continue; }
        DedupStep((Locator(s, g), data.value), ScanFrom(groups, s, g + 1), seen, found);
        if KeyOf(data.value) in seen { continue; }
        ListsGrow(found, (Locator(s, g), data.value));
        seen := seen + {KeyOf(data.value)};
        elements := elements + [ElementOf(data.value, |elements|)];
        locations := locations + [Locator(s, g)];
        found := found + [(Locator(s, g), data.value)];
      }
    }
  }

  predicate At(groups: Groups, sighting: Sighting) {
    var l := sighting.0;
    l.selector < |groups| && l.position < |groups[l.selector]| && l.position < SCAN_CAP &&
    groups[l.selector][l.position] == Some(sighting.1)
  }

  lemma {:induction false} ScanIsAt(groups: Groups, s: nat, g: nat)
    ensures forall x | x in ScanFrom(groups, s, g) :: At(groups, x)
    decreases |groups| - s, SCAN_CAP - g
  {
    if s >= |groups| {
    } else if g >= |groups[s]| || g >= SCAN_CAP {
      ScanIsAt(groups, s + 1, 0);
    } else {
      ScanIsAt(groups, s, g + 1);
    }
  }

  /** Every element that the caps let through is met by the scan. */
  lemma {:induction false} ScanMisses(groups: Groups, s: nat, g: nat, x: Sighting)
    requires At(groups, x)
    requires x.0.selector > s || (x.0.selector == s && x.0.position >= g)
    ensures x in ScanFrom(groups, s, g)
    decreases |groups| - s, SCAN_CAP - g
  {
    if g >= |groups[s]| || g >= SCAN_CAP {
      ScanMisses(groups, s + 1, 0, x);
    } else if x.0 != Locator(s, g) {
      ScanMisses(groups, s, g + 1, x);
    }
  }

  predicate KeysDiffer(found: seq<Sighting>) {
    forall i, j :: 0 <= i < j < |found| ==> KeyOf(found[i].1) != KeyOf(found[j].1)
  }

  /** The keys in the seen set are those of what has been found. */
  predicate KeysSeen(found: seq<Sighting>, seen: set<Data>) {
    && (forall i :: 0 <= i < |found| ==> KeyOf(found[i].1) in seen)
    && forall k | k in seen :: HasKey(found, k)
  }

  predicate HasKey(found: seq<Sighting>, key: Data) {
    exists i :: 0 <= i < |found| && KeyOf(found[i].1) == key
  }

  lemma FoundOneMore(found: seq<Sighting>, seen: set<Data>, x: Sighting)
    requires KeysDiffer(found) && KeysSeen(found, seen) && KeyOf(x.1) !in seen
    ensures KeysDiffer(found + [x]) && KeysSeen(found + [x], seen + {KeyOf(x.1)})
  {
    var more := found + [x];
    assert more[|found|] == x;
    forall k | k in seen
      ensures HasKey(more, k)
    {
      assert HasKey(found, k);
      var i :| 0 <= i < |found| && KeyOf(found[i].1) == k;
      assert more[i] == found[i];
    }
  }

  lemma {:induction false} DedupKeys(scan: seq<Sighting>, seen: set<Data>, found: seq<Sighting>)
    requires KeysDiffer(found) && KeysSeen(found, seen)
    ensures KeysDiffer(Dedup(scan, seen, found))
    decreases |scan|
  {
    if scan != [] {
      if KeyOf(scan[0].1) in seen {
        DedupKeys(scan[1..], seen, found);
      } else {
        FoundOneMore(found, seen, scan[0]);
        DedupKeys(scan[1..], seen + {KeyOf(scan[0].1)}, found + [scan[0]]);
      }
    }
  }

  lemma {:induction false} DedupKeeps(scan: seq<Sighting>, seen: set<Data>, found: seq<Sighting>)
    ensures found <= Dedup(scan, seen, found)
    ensures forall x | x in Dedup(scan, seen, found) :: x in found || x in scan
    decreases |scan|
  {
    if scan != [] {
      assert scan == [scan[0]] + scan[1..];
      if KeyOf(scan[0].1) in seen {
        DedupKeeps(scan[1..], seen, found);
      } else {
        DedupKeeps(scan[1..], seen + {KeyOf(scan[0].1)}, found + [scan[0]]);
      }
    }
  }

  lemma StillHasKey(a: seq<Sighting>, b: seq<Sighting>, key: Data)
    requires a <= b && HasKey(a, key)
    ensures HasKey(b, key)
  {
    var i :| 0 <= i < |a| && KeyOf(a[i].1) == key;
    assert b[i] == a[i];
  }

  lemma {:induction false} DedupMisses(scan: seq<Sighting>, seen: set<Data>, found: seq<Sighting>, x: Sighting)
    requires KeysDiffer(found) && KeysSeen(found, seen) && x in scan
    ensures HasKey(Dedup(scan, seen, found), KeyOf(x.1))
    decreases |scan|
  {
    assert scan == [scan[0]] + scan[1..];
    var key := KeyOf(scan[0].1);
    DedupKeeps(scan, seen, found);
    if key in seen {
      if x == scan[0] {
        StillHasKey(found, Dedup(scan, seen, found), key);
      } else {
        DedupMisses(scan[1..], seen, found, x);
      }
    } else {
      FoundOneMore(found, seen, scan[0]);
      if x == scan[0] {
        assert HasKey(found + [scan[0]], key);
        DedupKeeps(scan[1..], seen + {key}, found + [scan[0]]);
        StillHasKey(found + [scan[0]], Dedup(scan, seen, found), key);
      } else {
        DedupMisses(scan[1..], seen + {key}, found + [scan[0]], x);
      }
    }
  }

  /**
   Extraction keeps one sighting for each key on the page, at the place where it was seen,
   and numbers the elements by position.
   */
  lemma ExtractionSound(groups: Groups)
    ensures
      var found := Extracted(groups);
      && (forall x | x in found :: At(groups, x))
      && KeysDiffer(found)
      && (forall x | At(groups, x) :: HasKey(found, KeyOf(x.1)))
  {
    var scan := ScanFrom(groups, 0, 0);
    ScanIsAt(groups, 0, 0);
    DedupKeys(scan, {}, []);
    DedupKeeps(scan, {}, []);
    forall x | At(groups, x)
      ensures HasKey(Extracted(groups), KeyOf(x.1))
    {
      ScanMisses(groups, 0, 0, x);
      DedupMisses(scan, {}, [], x);
    }
  }
}
