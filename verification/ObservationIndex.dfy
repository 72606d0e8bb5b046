/** What an observation's ids, fingerprints and tables say about the page it was built from. */
module ObservationIndex {
  import opened Wrappers
  import opened Text
  import opened Models
  import opened Registry
  import opened Questions
  import opened Observation

  // ---- The items behind an observation ----------------------------------------------

  /** The fingerprint was computed from this element. */
  predicate Behind(lib: Library, e: RawElement, f: Fingerprint) {
    f == FingerprintOf(lib, e, f.id)
  }

  /** The i-th item: its id, its element, and its fingerprint computed from that element. */
  ghost predicate ItemOf(lib: Library, item: Item, k: Kept, position: nat, password: bool) {
    && item.kept == k
    && item.candidate == CandidateOf(lib, k, CandidateId(position), item.candidate.fingerprint, password)
    && Behind(lib, k.raw, item.candidate.fingerprint)
    && "el-" + lib.Digested(k.raw)[..16] <= item.candidate.fingerprint.id
  }

  lemma ItemAtMeaning(lib: Library, kept: seq<Kept>, position: nat, seen: set<string>, password: bool)
    requires position < |kept|
    ensures ItemOf(lib, ItemAt(lib, kept, position, seen, password), kept[position], position, password)
  {
  }

  /** The items of the kept elements from this position on. */
  ghost predicate Itemized(lib: Library, kept: seq<Kept>, position: nat, items: seq<Item>, password: bool) {
    && position + |items| == |kept|
    && forall i :: 0 <= i < |items| ==> ItemOf(lib, items[i], kept[position + i], position + i, password)
  }

  lemma ItemizedStep(lib: Library, kept: seq<Kept>, position: nat, item: Item, rest: seq<Item>, password: bool)
    requires position < |kept| && ItemOf(lib, item, kept[position], position, password)
    requires Itemized(lib, kept, position + 1, rest, password)
    ensures Itemized(lib, kept, position, [item] + rest, password)
  {
    var items := [item] + rest;
    forall i | 0 <= i < |items|
      ensures ItemOf(lib, items[i], kept[position + i], position + i, password)
    {
      if i > 0 {
        assert items[i] == rest[i - 1];
        assert ItemOf(lib, rest[i - 1], kept[position + 1 + (i - 1)], position + 1 + (i - 1), password);
      }
    }
  }

  lemma {:induction false} ItemsMeaning(
    lib: Library, kept: seq<Kept>, position: nat, seen: set<string>, password: bool)
    requires position <= |kept|
    ensures Itemized(lib, kept, position, ItemsFrom(lib, kept, position, seen, password), password)
    decreases |kept| - position
  {
    if position < |kept| {
      var item := ItemAt(lib, kept, position, seen, password);
      var seen' := seen + {item.candidate.fingerprint.id};
      ItemAtMeaning(lib, kept, position, seen, password);
      ItemsMeaning(lib, kept, position + 1, seen', password);
      ItemizedStep(lib, kept, position, item, ItemsFrom(lib, kept, position + 1, seen', password), password);
    }
  }

  function TargetsOf(items: seq<Item>): seq<(string, string)> {
    if items == [] then [] else TargetOf(items[0]) + TargetsOf(items[1..])
  }

  function LinkTarget(k: Kept): Option<string> {
    if k.cls != Link then None else Some(if k.target.Some? then k.target.value else "")
  }

  function CandidatesOf(items: seq<Item>): (cs: seq<Candidate>)
    ensures |cs| == |items| && forall i :: 0 <= i < |items| ==> cs[i] == items[i].candidate
  {
    if items == [] then [] else [items[0].candidate] + CandidatesOf(items[1..])
  }

  function IndicesOf(items: seq<Item>): (table: seq<(string, nat)>)
    ensures |table| == |items|
    ensures forall i :: 0 <= i < |items| ==> table[i] == (items[i].candidate.id, items[i].kept.raw.index)
  {
    if items == [] then [] else [(items[0].candidate.id, items[0].kept.raw.index)] + IndicesOf(items[1..])
  }

  lemma Regroup<T>(a: seq<T>, b: seq<T>, c: seq<T>)
    ensures (a + b) + c == a + (b + c)
  {
  }

  function TargetOf(item: Item): seq<(string, string)> {
    var target := LinkTarget(item.kept);
    if target.None? then [] else [(item.candidate.id, target.value)]
  }

  /** What the lists hold after these items. */
  ghost predicate Filled(c: Columns, items: seq<Item>, d: Columns) {
    && |d.fingerprints| == |c.fingerprints| + |items|
    && d.candidates == c.candidates + CandidatesOf(items)
    && d.targets == c.targets + TargetsOf(items)
    && d.rawIndices == c.rawIndices + IndicesOf(items)
  }

  lemma FilledStep(c: Columns, item: Item, items: seq<Item>, d: Columns)
    requires items != [] && item == items[0] && Filled(Add(c, item), items[1..], d)
    ensures Filled(c, items, d)
  {
    Regroup(c.candidates, [item.candidate], CandidatesOf(items[1..]));
    Regroup(c.targets, TargetOf(item), TargetsOf(items[1..]));
    Regroup(c.rawIndices, [(item.candidate.id, item.kept.raw.index)], IndicesOf(items[1..]));
    assert Add(c, item).targets == c.targets + TargetOf(item);
  }

  lemma {:induction false} FilledColumns(c: Columns, items: seq<Item>)
    ensures Filled(c, items, AddAll(c, items))
    decreases |items|
  {
    if items != [] {
      FilledColumns(Add(c, items[0]), items[1..]);
      FilledStep(c, items[0], items, AddAll(c, items));
    }
  }

  predicate DistinctItems(items: seq<Item>) {
    forall i, j :: 0 <= i < j < |items| ==> items[i].candidate.id != items[j].candidate.id
  }

  /** At most one entry of another id in front makes no difference. */
  lemma LookupPast<T>(front: seq<(string, T)>, rest: seq<(string, T)>, id: string)
    requires |front| <= 1 && (front != [] ==> front[0].0 != id)
    ensures Lookup(front + rest, id) == Lookup(rest, id)
  {
    if front == [] {
      assert front + rest == rest;
    } else {
      assert (front + rest)[1..] == rest;
    }
  }

  lemma {:induction false} NoTarget(items: seq<Item>, id: string)
    requires forall i :: 0 <= i < |items| ==> items[i].candidate.id != id
    ensures Lookup(TargetsOf(items), id).None?
  {
    if items != [] {
      NoTarget(items[1..], id);
      LookupPast(TargetOf(items[0]), TargetsOf(items[1..]), id);
    }
  }

  lemma {:induction false} TargetOfItem(items: seq<Item>, i: nat)
    requires i < |items| && DistinctItems(items)
    ensures Lookup(TargetsOf(items), items[i].candidate.id) == LinkTarget(items[i].kept)
  {
    var front, rest := TargetOf(items[0]), TargetsOf(items[1..]);
    if i > 0 {
      TargetOfItem(items[1..], i - 1);
      LookupPast(front, rest, items[i].candidate.id);
    } else if front == [] {
      NoTarget(items[1..], items[0].candidate.id);
      LookupPast(front, rest, items[0].candidate.id);
    }
  }

  lemma {:induction false} LookupAt<T>(table: seq<(string, T)>, i: nat)
    requires i < |table| && forall j :: 0 <= j < i ==> table[j].0 != table[i].0
    ensures Lookup(table, table[i].0) == Some(table[i].1)
  {
    if i > 0 { LookupAt(table[1..], i - 1); }
  }

  lemma {:induction false} LookupMisses<T>(table: seq<(string, T)>, id: string)
    requires forall i :: 0 <= i < |table| ==> table[i].0 != id
    ensures Lookup(table, id).None?
  {
    if table != [] { LookupMisses(table[1..], id); }
  }

  // ---- The index agrees with the elements it was built from ------------------------------

  /** Items are numbered by position, which tells them apart. */
  predicate Numbered(items: seq<Item>) {
    forall i :: 0 <= i < |items| ==> items[i].candidate.id == CandidateId(i)
  }

  lemma NumberedDistinct(items: seq<Item>)
    requires Numbered(items)
    ensures DistinctItems(items)
  {
    forall i, j | 0 <= i < j < |items|
      ensures items[i].candidate.id != items[j].candidate.id
    {
      if CandidateId(i) == CandidateId(j) { CandidateIdInjective(i, j); }
    }
  }

  lemma CandidateIdInjective(i: nat, j: nat)
    requires CandidateId(i) == CandidateId(j)
    ensures i == j
  {
    assert Padded(i) == CandidateId(i)[1..] == CandidateId(j)[1..] == Padded(j);
    PaddedInjective(i, j);
  }

  lemma ItemizedNumbered(lib: Library, kept: seq<Kept>, items: seq<Item>, password: bool)
    requires Itemized(lib, kept, 0, items, password)
    ensures Numbered(items)
  {
    forall i | 0 <= i < |items|
      ensures items[i].candidate.id == CandidateId(i)
    {
      assert ItemOf(lib, items[i], kept[0 + i], 0 + i, password);
    }
  }

  /** A successful build is the observation of numbered items, one for each kept element. */
  lemma BuiltFrom(
    lib: Library, b: Builder, url: string, title: string, text: string, elements: seq<RawElement>)
    requires Built(lib, b, url, title, text, elements).Success?
    ensures lib.origin(lib.strip(url)).Some?
    ensures
      var base := lib.strip(url);
      var items := ItemsOf(lib, b, base, elements);
      && Built(lib, b, url, title, text, elements).value == Assembled(lib, b, base, title, text, items)
      && Itemized(lib, KeptOf(lib, b, base, elements), 0, items, PasswordPresent(lib, elements))
      && Numbered(items)
      && |Assembled(lib, b, base, title, text, items).elements| <= MAX_SESSION_ELEMENTS
  {
    var base := lib.strip(url);
    var kept, password := KeptOf(lib, b, base, elements), PasswordPresent(lib, elements);
    ItemsMeaning(lib, kept, 0, {}, password);
    ItemizedNumbered(lib, kept, ItemsOf(lib, b, base, elements), password);
  }

  /** The lists of an assembled observation, in terms of its items. */
  ghost predicate Lists(lib: Library, o: RuntimeObservation, items: seq<Item>) {
    && |o.elements| == |items|
    && o.candidates == CandidatesOf(items) + Synthetic(lib)
    && o.targets == TargetsOf(items)
    && o.rawIndices == IndicesOf(items)
  }

  lemma AssembledLists(lib: Library, b: Builder, base: string, title: string, text: string, items: seq<Item>)
    ensures Lists(lib, Assembled(lib, b, base, title, text, items), items)
  {
    var empty := Columns([], [], [], []);
    var c := AddAll(empty, items);
    FilledColumns(empty, items);
    FromEmpty(items, c);
    var o := Assembled(lib, b, base, title, text, items);
    assert o.elements == c.fingerprints && o.candidates == c.candidates + Synthetic(lib);
    assert o.targets == c.targets && o.rawIndices == c.rawIndices;
  }

  lemma FromEmpty(items: seq<Item>, c: Columns)
    requires Filled(Columns([], [], [], []), items, c)
    ensures |c.fingerprints| == |items| && c.candidates == CandidatesOf(items)
    ensures c.targets == TargetsOf(items) && c.rawIndices == IndicesOf(items)
  {
  }

  /** Ids that a backend may answer; those of page elements begin with a letter of their own. */
  predicate SelectableId(id: string) {
    !Blank(id) && id != ABSTAIN_ANSWER_ID
  }

  lemma SyntheticSelectable(lib: Library)
    ensures DistinctIds(Synthetic(lib))
    ensures forall c | c in Synthetic(lib) :: c.id != [] && c.id[0] == 's' && SelectableId(c.id)
  {
    var s := Synthetic(lib);
    assert s[0].id[4] == '0' && s[1].id[4] == '1' && s[2].id[4] == '2';
    forall c | c in s
      ensures c.id != [] && c.id[0] == 's' && SelectableId(c.id)
    {
      assert c == s[0] || c == s[1] || c == s[2];
      assert c.id[0] == 's' && !IsSpace('s');
    }
  }

  lemma ElementIdSelectable(position: nat)
    ensures CandidateId(position)[0] == 'c' && SelectableId(CandidateId(position))
  {
    assert !IsSpace('c');
  }

  lemma JoinDistinct(a: seq<Candidate>, s: seq<Candidate>)
    requires DistinctIds(a) && DistinctIds(s)
    requires forall c | c in a :: c.id != [] && c.id[0] == 'c'
    requires forall c | c in s :: c.id != [] && c.id[0] == 's'
    ensures DistinctIds(a + s)
  {
    var cs := a + s;
    forall i, j | 0 <= i < j < |cs|
      ensures cs[i].id != cs[j].id
    {
      assert i < |a| ==> cs[i] in a;
      assert j >= |a| ==> cs[j] in s;
    }
  }

  lemma OwnSelectable(items: seq<Item>)
    requires Numbered(items)
    ensures DistinctIds(CandidatesOf(items))
    ensures forall c | c in CandidatesOf(items) :: c.id != [] && c.id[0] == 'c' && SelectableId(c.id)
  {
    var own := CandidatesOf(items);
    NumberedDistinct(items);
    forall c | c in own
      ensures c.id != [] && c.id[0] == 'c' && SelectableId(c.id)
    {
      var i :| 0 <= i < |own| && own[i] == c;
      ElementIdSelectable(i);
    }
  }

  lemma ListsSelectable(lib: Library, o: RuntimeObservation, items: seq<Item>)
    requires Lists(lib, o, items) && Numbered(items)
    ensures DistinctIds(o.candidates) && |o.candidates| == |items| + 3
    ensures forall c | c in o.candidates :: SelectableId(c.id)
  {
    OwnSelectable(items);
    SyntheticSelectable(lib);
    JoinDistinct(CandidatesOf(items), Synthetic(lib));
  }

  /** Candidates have distinct ids that can be answered, and there are between 3 and 503 of them. */
  lemma CandidatesSelectable(
    lib: Library, b: Builder, url: string, title: string, text: string, elements: seq<RawElement>)
    requires Built(lib, b, url, title, text, elements).Success?
    ensures
      var cs := Built(lib, b, url, title, text, elements).value.candidates;
      && DistinctIds(cs)
      && 3 <= |cs| <= MAX_SESSION_ELEMENTS + 3
      && forall c | c in cs :: SelectableId(c.id)
  {
    var base := lib.strip(url);
    BuiltFrom(lib, b, url, title, text, elements);
    var items := ItemsOf(lib, b, base, elements);
    AssembledLists(lib, b, base, title, text, items);
    ListsSelectable(lib, Assembled(lib, b, base, title, text, items), items);
  }

  // ---- Fingerprint ids ------------------------------------------------------------------

  /** An id without a counter, or with one below the number of ids seen. */
  predicate IssuedId(id: string, count: nat) {
    |id| == 19 || exists n: nat :: n < count && |id| > 20 && id[20..] == Decimal(n)
  }

  predicate Issued(seen: set<string>) {
    forall id | id in seen :: IssuedId(id, |seen|)
  }

  /** A new id is never one already seen, though digests may collide. */
  lemma FingerprintIdFresh(digest: Digest, seen: set<string>)
    requires Issued(seen)
    ensures FingerprintId(digest, seen) !in seen
    ensures Issued(seen + {FingerprintId(digest, seen)})
  {
    var base, id := "el-" + digest[..16], FingerprintId(digest, seen);
    DecimalDenotes(|seen|);
    if base in seen {
      assert id[20..] == Decimal(|seen|);
      if id in seen {
        var n: nat :| n < |seen| && id[20..] == Decimal(n);
        DecimalInjective(n, |seen|);
      }
    }
    assert |seen + {id}| == |seen| + 1;
    forall x | x in seen + {id}
      ensures IssuedId(x, |seen| + 1)
    {
      if x in seen { assert IssuedId(x, |seen|); }
    }
  }

  function IssueIds(digests: seq<Digest>, seen: set<string>): seq<string> {
    if digests == [] then []
    else
      var id := FingerprintId(digests[0], seen);
      [id] + IssueIds(digests[1..], seen + {id})
  }

  lemma {:induction false} IssueIdsDistinct(digests: seq<Digest>, seen: set<string>)
    requires Issued(seen)
    ensures Distinct(IssueIds(digests, seen)) && forall id | id in IssueIds(digests, seen) :: id !in seen
    decreases |digests|
  {
    if digests != [] {
      var id := FingerprintId(digests[0], seen);
      FingerprintIdFresh(digests[0], seen);
      IssueIdsDistinct(digests[1..], seen + {id});
    }
  }

  function DigestsOf(lib: Library, kept: seq<Kept>): seq<Digest> {
    if kept == [] then [] else [lib.Digested(kept[0].raw)] + DigestsOf(lib, kept[1..])
  }

  function FingerprintIdsOf(items: seq<Item>): seq<string> {
    if items == [] then [] else [items[0].candidate.fingerprint.id] + FingerprintIdsOf(items[1..])
  }

  lemma {:induction false} ItemsIssueIds(
    lib: Library, kept: seq<Kept>, position: nat, seen: set<string>, password: bool)
    requires position <= |kept|
    ensures FingerprintIdsOf(ItemsFrom(lib, kept, position, seen, password)) ==
            IssueIds(DigestsOf(lib, kept[position..]), seen)
    decreases |kept| - position
  {
    if position < |kept| {
      var item := ItemAt(lib, kept, position, seen, password);
      ItemsIssueIds(lib, kept, position + 1, seen + {item.candidate.fingerprint.id}, password);
      assert kept[position..][1..] == kept[position + 1..];
      var rest := ItemsFrom(lib, kept, position + 1, seen + {item.candidate.fingerprint.id}, password);
      assert ([item] + rest)[1..] == rest;
    }
  }

  /** Fingerprint ids within one observation are pairwise distinct. */
  lemma FingerprintIdsDistinct(lib: Library, b: Builder, base: string, elements: seq<RawElement>)
    requires lib.origin(base).Some?
    ensures Distinct(FingerprintIdsOf(ItemsOf(lib, b, base, elements)))
  {
    var kept := KeptOf(lib, b, base, elements);
    ItemsIssueIds(lib, kept, 0, {}, PasswordPresent(lib, elements));
    IssueIdsDistinct(DigestsOf(lib, kept[0..]), {});
  }

  // ---- The order elements are supplied in does not matter --------------------------------

  predicate DistinctIndices(es: seq<RawElement>) {
    forall i, j :: 0 <= i < j < |es| ==> es[i].index != es[j].index
  }

  function KeptOne(lib: Library, e: RawElement, base: string, allowed: set<string>): seq<Kept> {
    var k := Keep(lib, e, base, allowed);
    if k.None? then [] else [k.value]
  }

  lemma KeepAllStep(lib: Library, e: RawElement, rest: seq<RawElement>, base: string, allowed: set<string>)
    ensures KeepAll(lib, [e] + rest, base, allowed) ==
            KeptOne(lib, e, base, allowed) + KeepAll(lib, rest, base, allowed)
  {
    assert ([e] + rest)[1..] == rest;
  }

  lemma {:induction false} KeepAllAppend(
    lib: Library, a: seq<RawElement>, b: seq<RawElement>, base: string, allowed: set<string>)
    ensures KeepAll(lib, a + b, base, allowed) == KeepAll(lib, a, base, allowed) + KeepAll(lib, b, base, allowed)
  {
    if a == [] {
      assert a + b == b;
    } else {
      var e, rest := a[0], a[1..];
      KeepAllAppend(lib, rest, b, base, allowed);
      KeepAllStep(lib, e, rest, base, allowed);
      KeepAllStep(lib, e, rest + b, base, allowed);
      Regroup(KeptOne(lib, e, base, allowed), KeepAll(lib, rest, base, allowed), KeepAll(lib, b, base, allowed));
      Regroup([e], rest, b);
      assert a == [e] + rest;
    }
  }

  function Without<T>(s: seq<T>, i: nat): (r: seq<T>)
    requires i < |s|
    ensures |r| == |s| - 1
  {
    s[..i] + s[i + 1..]
  }

  lemma WithoutMultiset<T>(s: seq<T>, i: nat)
    requires i < |s|
    ensures multiset(Without(s, i)) == multiset(s) - multiset{s[i]}
  {
    assert s == s[..i] + [s[i]] + s[i + 1..];
  }

  /** The multiset of what is kept is that of one element and that of the others. */
  lemma KeepAllWithout(lib: Library, es: seq<RawElement>, i: nat, base: string, allowed: set<string>)
    requires i < |es|
    ensures multiset(KeepAll(lib, es, base, allowed)) ==
            multiset(KeepAll(lib, [es[i]], base, allowed)) + multiset(KeepAll(lib, Without(es, i), base, allowed))
  {
    assert es == es[..i] + ([es[i]] + es[i + 1..]);
    KeepAllAppend(lib, es[..i], [es[i]] + es[i + 1..], base, allowed);
    KeepAllAppend(lib, [es[i]], es[i + 1..], base, allowed);
    KeepAllAppend(lib, es[..i], es[i + 1..], base, allowed);
  }

  lemma {:induction false} KeepAllPermutes(
    lib: Library, a: seq<RawElement>, b: seq<RawElement>, base: string, allowed: set<string>)
    requires multiset(a) == multiset(b)
    ensures multiset(KeepAll(lib, a, base, allowed)) == multiset(KeepAll(lib, b, base, allowed))
    decreases |a|
  {
    if a == [] {
      assert |b| == |multiset(b)| == 0;
    } else {
      assert a[0] in multiset(a) && a[0] in multiset(b);
      var i :| 0 <= i < |b| && b[i] == a[0];
      WithoutMultiset(a, 0);
      WithoutMultiset(b, i);
      KeepAllPermutes(lib, Without(a, 0), Without(b, i), base, allowed);
      KeepAllWithout(lib, a, 0, base, allowed);
      KeepAllWithout(lib, b, i, base, allowed);
    }
  }

  /** Everything kept is what `Keep` made of some element. */
  lemma {:induction false} KeepAllSource(lib: Library, es: seq<RawElement>, base: string, allowed: set<string>)
    ensures forall k | k in KeepAll(lib, es, base, allowed) ::
              k.raw in es && Keep(lib, k.raw, base, allowed) == Some(k)
  {
    if es != [] {
      assert es == [es[0]] + es[1..];
      KeepAllSource(lib, es[1..], base, allowed);
    }
  }

  /** The index of a kept element determines it. */
  predicate Indexed(s: seq<Kept>) {
    forall x, y | x in s && y in s && x.raw.index == y.raw.index :: x == y
  }

  lemma SameHead(a: seq<Kept>, b: seq<Kept>)
    requires Sorted(a) && Sorted(b) && multiset(a) == multiset(b) && Indexed(a) && a != []
    ensures b != [] && a[0] == b[0] && multiset(a[1..]) == multiset(b[1..])
  {
    assert a[0] in multiset(a) && a[0] in multiset(b);
    assert b[0] in multiset(b) && b[0] in multiset(a);
    assert Before(a[0], b[0]) && Before(b[0], a[0]) by {
      var i :| 0 <= i < |b| && b[i] == a[0];
      var j :| 0 <= j < |a| && a[j] == b[0];
      assert i == 0 || Before(b[0], b[i]);
      assert j == 0 || Before(a[0], a[j]);
    }
    assert b[0] in a;
    WithoutMultiset(a, 0);
    WithoutMultiset(b, 0);
    assert Without(a, 0) == a[1..] && Without(b, 0) == b[1..];
  }

  lemma {:induction false} SortedUnique(a: seq<Kept>, b: seq<Kept>)
    requires Sorted(a) && Sorted(b) && multiset(a) == multiset(b) && Indexed(a)
    ensures a == b
  {
    if a == [] {
      assert |b| == |multiset(b)| == 0;
    } else {
      SameHead(a, b);
      assert forall x | x in a[1..] :: x in a;
      SortedUnique(a[1..], b[1..]);
    }
  }

  lemma KeptIndexed(lib: Library, es: seq<RawElement>, base: string, allowed: set<string>)
    requires DistinctIndices(es)
    ensures Indexed(KeepAll(lib, es, base, allowed))
  {
    KeepAllSource(lib, es, base, allowed);
  }

  lemma RankedPermutes(lib: Library, a: seq<RawElement>, b: seq<RawElement>, base: string, allowed: set<string>)
    requires multiset(a) == multiset(b) && DistinctIndices(a)
    ensures Ranked(KeepAll(lib, a, base, allowed)) == Ranked(KeepAll(lib, b, base, allowed))
  {
    var ka, kb := KeepAll(lib, a, base, allowed), KeepAll(lib, b, base, allowed);
    KeepAllPermutes(lib, a, b, base, allowed);
    RankedSorted(ka);
    RankedSorted(kb);
    RankedMembers(ka);
    KeptIndexed(lib, a, base, allowed);
    SortedUnique(Ranked(ka), Ranked(kb));
  }

  /** With distinct indices, the whole observation is the same however the elements are ordered. */
  lemma ObservationIgnoresOrder(
    lib: Library, b: Builder, url: string, title: string, text: string, p: seq<RawElement>, q: seq<RawElement>)
    requires multiset(p) == multiset(q) && DistinctIndices(p)
    ensures Built(lib, b, url, title, text, p) == Built(lib, b, url, title, text, q)
  {
    var base := lib.strip(url);
    if lib.origin(base).Some? {
      RankedPermutes(lib, p, q, base, {lib.origin(base).value} + b.allowedOrigins);
      assert PasswordPresent(lib, p) == PasswordPresent(lib, q) by {
        assert forall e :: e in p <==> e in multiset(p);
        assert forall e :: e in q <==> e in multiset(q);
      }
    }
  }

  // ---- Candidates and their elements ------------------------------------------------------

  /** A download, a reset, or text that a review pattern matches. */
  predicate AsksReview(lib: Library, e: RawElement, inputType: Option<string>) {
    || "download" in e.attributes
    || lib.Normal(inputType) == "reset"
    || lib.reviewKinds(lib.normalize(ReviewText(lib, e))) != {}
  }

  /** An element that a candidate of this kind may stand for without a review gate. */
  predicate Harmless(lib: Library, e: RawElement, kind: ActionKind) {
    && e.visible && !e.disabled
    && match kind
       case Click => !AsksReview(lib, e, e.inputType) && !Submits(lib, e)
       case Navigate => !AsksReview(lib, e, None)
       case RequestText => !SensitiveAutocomplete(lib, e.autocomplete)
       case _ => true
  }

  lemma {:induction false} FirstInNone(kinds: seq<ReviewKind>, matched: set<ReviewKind>)
    ensures FirstIn(kinds, matched).None? <==> forall k | k in kinds :: k !in matched
  {
    if kinds != [] {
      FirstInNone(kinds[1..], matched);
      assert kinds == [kinds[0]] + kinds[1..];
    }
  }

  lemma EveryKindHasPrecedence(kind: ReviewKind)
    ensures kind in Precedence()
  {
    var all := Precedence();
    assert all[0] == Captcha && all[1] == Payment && all[2] == LoginSubmit && all[3] == FileTransfer;
    assert all[4] == Destructive && all[5] == PublicPosting && all[6] == PermissionGrant && all[7] == MessageSubmit;
  }

  /** Every kind has its place, so something matched is something found. */
  lemma PrecedenceIsTotal(matched: set<ReviewKind>)
    ensures ByPrecedence(matched).None? <==> matched == {}
  {
    FirstInNone(Precedence(), matched);
    if matched != {} {
      var kind :| kind in matched;
      EveryKindHasPrecedence(kind);
    }
  }

  lemma MatchReviewNone(lib: Library, e: RawElement, inputType: Option<string>)
    ensures MatchReview(lib, ReviewText(lib, e), inputType, "download" in e.attributes).None? <==>
            !AsksReview(lib, e, inputType)
  {
    var matched := (if "download" in e.attributes then {FileTransfer} else {}) +
                   (if lib.Normal(inputType) == "reset" then {Destructive} else {}) +
                   lib.reviewKinds(lib.normalize(ReviewText(lib, e)));
    PrecedenceIsTotal(matched);
    assert "download" in e.attributes ==> FileTransfer in matched;
    assert lib.Normal(inputType) == "reset" ==> Destructive in matched;
  }

  /** Gating is exact: a kept element's candidate goes without a review gate if and only if it is harmless. */
  lemma GatingExact(
    lib: Library, k: Kept, base: string, allowed: set<string>, id: string, f: Fingerprint, password: bool)
    requires Keep(lib, k.raw, base, allowed) == Some(k)
    ensures
      var c := CandidateOf(lib, k, id, f, password);
      c.review.None? <==> Harmless(lib, k.raw, c.kind)
  {
    MatchReviewNone(lib, k.raw, k.raw.inputType);
    MatchReviewNone(lib, k.raw, None);
  }

  /**
   The candidate was made from this element: fingerprint, kind, description and review gate are
   its own, and the tables give its index and its link target.
   */
  ghost predicate Backed(
    lib: Library, o: RuntimeObservation, c: Candidate, e: RawElement, base: string, allowed: set<string>)
  {
    && c in o.candidates
    && Behind(lib, e, c.fingerprint)
    && o.RawIndexFor(c.id) == Some(e.index)
    && match Keep(lib, e, base, allowed)
       case None => false
       case Some(k) =>
         && o.TargetFor(c.id) == LinkTarget(k)
         && c.kind == (match k.cls case Editable => RequestText case Control => Click case Link => Navigate)
         && c.description == Describe(lib, e, k.cls)
         && (c.review.None? <==> Harmless(lib, e, c.kind))
  }

  lemma ListsLookup(lib: Library, o: RuntimeObservation, items: seq<Item>, i: nat)
    requires Lists(lib, o, items) && Numbered(items) && i < |items|
    ensures items[i].candidate in o.candidates
    ensures o.RawIndexFor(CandidateId(i)) == Some(items[i].kept.raw.index)
    ensures o.TargetFor(CandidateId(i)) == LinkTarget(items[i].kept)
  {
    NumberedDistinct(items);
    LookupAt(IndicesOf(items), i);
    TargetOfItem(items, i);
    assert CandidatesOf(items)[i] in CandidatesOf(items);
  }

  /** The index holds the ids of the elements, and no others. */
  lemma ListsIndex(lib: Library, o: RuntimeObservation, items: seq<Item>, id: string)
    requires Lists(lib, o, items) && Numbered(items)
    ensures o.RawIndexFor(id).Some? <==> exists i :: 0 <= i < |items| && id == CandidateId(i)
  {
    if i :| 0 <= i < |items| && id == CandidateId(i) {
      ListsLookup(lib, o, items, i);
    } else {
      LookupMisses(IndicesOf(items), id);
    }
  }

  lemma ItemBacked(
    lib: Library, o: RuntimeObservation, items: seq<Item>, i: nat, password: bool, base: string, allowed: set<string>)
    requires Lists(lib, o, items) && Numbered(items) && i < |items|
    requires ItemOf(lib, items[i], items[i].kept, i, password)
    requires Keep(lib, items[i].kept.raw, base, allowed) == Some(items[i].kept)
    ensures Backed(lib, o, items[i].candidate, items[i].kept.raw, base, allowed)
  {
    ListsLookup(lib, o, items, i);
    GatingExact(lib, items[i].kept, base, allowed, CandidateId(i), items[i].candidate.fingerprint, password);
  }

  lemma KeptSource(lib: Library, b: Builder, base: string, elements: seq<RawElement>, i: nat)
    requires lib.origin(base).Some? && i < |KeptOf(lib, b, base, elements)|
    ensures
      var k := KeptOf(lib, b, base, elements)[i];
      k.raw in elements && Keep(lib, k.raw, base, {lib.origin(base).value} + b.allowedOrigins) == Some(k)
  {
    var allowed := {lib.origin(base).value} + b.allowedOrigins;
    var all, k := KeepAll(lib, elements, base, allowed), KeptOf(lib, b, base, elements)[i];
    RankedMembers(all);
    KeepAllSource(lib, elements, base, allowed);
    assert k in Ranked(all);
  }

  lemma RankedMembers(s: seq<Kept>)
    ensures forall k :: k in Ranked(s) <==> k in s
  {
    RankedSorted(s);
    forall k
      ensures k in Ranked(s) <==> k in s
    {
      assert k in Ranked(s) <==> k in multiset(Ranked(s));
      assert k in s <==> k in multiset(s);
    }
  }

  /** Every id of the index has its candidate and its element among those supplied. */
  lemma IndexedCandidate(
    lib: Library, b: Builder, url: string, title: string, text: string, elements: seq<RawElement>, id: string)
    returns (c: Candidate, e: RawElement)
    requires Built(lib, b, url, title, text, elements).Success?
    requires Built(lib, b, url, title, text, elements).value.RawIndexFor(id).Some?
    ensures c.id == id && e in elements && lib.origin(lib.strip(url)).Some?
    ensures
      var base := lib.strip(url);
      Backed(lib, Built(lib, b, url, title, text, elements).value, c, e, base,
             {lib.origin(base).value} + b.allowedOrigins)
  {
    var base := lib.strip(url);
    BuiltFrom(lib, b, url, title, text, elements);
    var items := ItemsOf(lib, b, base, elements);
    var o := Assembled(lib, b, base, title, text, items);
    AssembledLists(lib, b, base, title, text, items);
    ListsIndex(lib, o, items, id);
    var i: nat :| i < |items| && id == CandidateId(i);
    KeptSource(lib, b, base, elements, i);
    assert ItemOf(lib, items[i], KeptOf(lib, b, base, elements)[0 + i], 0 + i, PasswordPresent(lib, elements));
    ItemBacked(lib, o, items, i, PasswordPresent(lib, elements), base, {lib.origin(base).value} + b.allowedOrigins);
    c, e := items[i].candidate, items[i].kept.raw;
  }

  /**
   Index agreement: an id has a raw index exactly when it is one of the ids numbered up to the
   number of elements; and then a supplied element is behind the candidate of that id.
   */
  lemma IndexAgrees(
    lib: Library, b: Builder, url: string, title: string, text: string, elements: seq<RawElement>, id: string)
    requires Built(lib, b, url, title, text, elements).Success?
    ensures
      var o := Built(lib, b, url, title, text, elements).value;
      o.RawIndexFor(id).Some? <==> exists i :: 0 <= i < |o.elements| && id == CandidateId(i)
    ensures
      var o := Built(lib, b, url, title, text, elements).value;
      var base := lib.strip(url);
      o.RawIndexFor(id).Some? ==>
        lib.origin(base).Some? &&
        exists c: Candidate, e: RawElement ::
          c.id == id && e in elements && Backed(lib, o, c, e, base, {lib.origin(base).value} + b.allowedOrigins)
  {
    var base := lib.strip(url);
    BuiltFrom(lib, b, url, title, text, elements);
    var items := ItemsOf(lib, b, base, elements);
    AssembledLists(lib, b, base, title, text, items);
    ListsIndex(lib, Assembled(lib, b, base, title, text, items), items, id);
    if Built(lib, b, url, title, text, elements).value.RawIndexFor(id).Some? {
      var c, e := IndexedCandidate(lib, b, url, title, text, elements, id);
    }
  }
}
