/** What an observation lists, said of the page alone: which elements, as what, in what order, and where links lead. */
module ObservationMeaning {
  import opened Wrappers
  import opened Text
  import opened Models
  import opened Observation
  import opened ObservationIndex

  // ---- What an element is ------------------------------------------------------------------

  /** Autocompletion of a payment card, a one-time code or a password. */
  predicate Secret(lib: Library, e: RawElement) {
    var a := lib.Normal(e.autocomplete);
    a in {"one-time-code", "one-time-code-paragraph", "current-password", "new-password"} || "cc-" <= a
  }

  predicate TextType(t: string) {
    t in {"", "text", "email", "tel", "search", "number", "url", "date", "time", "datetime-local", "month", "week"}
  }

  /** A field for text that is not a secret. */
  predicate TextField(lib: Library, e: RawElement) {
    && !Secret(lib, e)
    && (lib.Tag(e) == "textarea" || (lib.Tag(e) == "input" && TextType(lib.Normal(e.inputType))))
  }

  /** Something to click: never a hidden, password or file input. */
  predicate Clickable(lib: Library, e: RawElement) {
    || lib.Tag(e) in {"button", "select"}
    || (lib.Tag(e) == "input" && !TextType(lib.Normal(e.inputType)) &&
        lib.Normal(e.inputType) !in {"hidden", "password", "file"})
    || (lib.Tag(e) !in {"input", "textarea", "button", "select", "a"} &&
        lib.Normal(e.role) in {"button", "link", "tab", "menuitem"})
  }

  /** A link to a page of an allowed origin. */
  predicate TrustedLink(lib: Library, e: RawElement, base: string, allowed: set<string>) {
    && lib.Tag(e) == "a" && e.href.Some? && !Blank(e.href.value)
    && lib.scheme(e.href.value) in {"http", "https", ""}
    && lib.origin(lib.resolve(e.href.value, base)).Some?
    && lib.origin(lib.resolve(e.href.value, base)).value in allowed
  }

  /** A visible, enabled element that is listed as this kind of candidate. */
  predicate Counts(lib: Library, e: RawElement, base: string, allowed: set<string>, kind: ActionKind) {
    && e.visible && !e.disabled
    && match kind
       case RequestText => TextField(lib, e)
       case Click => Clickable(lib, e)
       case Navigate => TrustedLink(lib, e, base, allowed)
       case _ => false
  }

  /** Text fields come first, then what can be clicked, then links. */
  function Rank(kind: ActionKind): nat {
    match kind case RequestText => 0 case Click => 1 case _ => 2
  }

  // ---- What its candidate says -----------------------------------------------------------------

  /** The reviews that the element calls for itself. */
  function Reviews(lib: Library, e: RawElement, kind: ActionKind): set<ReviewKind> {
    var aria := if "aria-label" in e.attributes then e.attributes["aria-label"] else "";
    (if "download" in e.attributes then {FileTransfer} else {}) +
    (if kind == Click && lib.Normal(e.inputType) == "reset" then {Destructive} else {}) +
    lib.reviewKinds(lib.normalize(Cut(lib.collapse(e.text), 120) + " " + aria))
  }

  function Precedes(kind: ReviewKind): nat {
    match kind
    case Captcha => 0
    case Payment => 1
    case LoginSubmit => 2
    case FileTransfer => 3
    case Destructive => 4
    case PublicPosting => 5
    case PermissionGrant => 6
    case MessageSubmit => 7
  }

  /** A button or input that submits. */
  predicate SubmitControl(lib: Library, e: RawElement) {
    lib.Normal(e.inputType) == "submit" || (lib.Normal(e.inputType) == "" && lib.normalize(e.tag) == "button")
  }

  /** The gate of a candidate: the foremost of the reviews called for, else that of a submit control, else none. */
  predicate Gated(lib: Library, e: RawElement, kind: ActionKind, password: bool, review: Option<ReviewKind>) {
    var reviews := Reviews(lib, e, kind);
    if kind == RequestText then review.None?
    else if reviews != {} then
      review.Some? && review.value in reviews && forall r | r in reviews :: Precedes(review.value) <= Precedes(r)
    else if kind == Click && SubmitControl(lib, e) then review == Some(if password then LoginSubmit else MessageSubmit)
    else review.None?
  }

  /** A field goes by its label, else its name, else its text. */
  function FieldName(e: RawElement, text: string): string {
    if "aria-label" in e.attributes && e.attributes["aria-label"] != "" then e.attributes["aria-label"]
    else if "name" in e.attributes && e.attributes["name"] != "" then e.attributes["name"]
    else text
  }

  /** What the candidate's line says. */
  predicate Described(lib: Library, e: RawElement, kind: ActionKind, description: string) {
    var text := Cut(lib.collapse(e.text), 120);
    match kind
    case Navigate => Line(lib, if text == "" then "link" else "link: " + text, "link", description)
    case Click => Line(lib, if text == "" then "button" else "button: " + text, "control", description)
    case RequestText =>
      var t := if lib.Normal(e.inputType) == "" then "text" else lib.Normal(e.inputType);
      Line(lib, "input " + t + ": " + Cut(lib.collapse(FieldName(e, text)), 80), "editable", description)
    case _ => false
  }

  /** The line collapsed and cut, or a word in place of an empty one. */
  predicate Line(lib: Library, line: string, otherwise: string, description: string) {
    description == if Cut(lib.collapse(line), 200) == "" then otherwise else Cut(lib.collapse(line), 200)
  }

  /** Tag, role and length of text as they are, and a digest of these and the structural attributes. */
  predicate Prints(lib: Library, e: RawElement, f: Fingerprint) {
    var tag, role := lib.normalize(e.tag), lib.Normal(e.role);
    && f.tag == (if tag == "" then "unknown" else tag) && f.role == (if role == "" then None else Some(role))
    && f.textLength == |lib.normalize(e.text)|
    && var digest := lib.sha(lib.canonical(Shape(f.tag, role, f.textLength, lib.Normal(e.inputType),
                                                 lib.Normal(e.autocomplete), lib.Normal(e.href),
                                                 lib.structural(e.attributes))));
       f.attributesHash == "sha256:" + digest[..32] && "el-" + digest[..16] <= f.id
  }

  /** A usable password field is on the page. */
  predicate AsksPassword(lib: Library, elements: seq<RawElement>) {
    exists e | e in elements :: lib.Normal(e.inputType) == "password" && e.visible && !e.disabled
  }

  /** The page and what of it may be listed. */
  datatype Source = Source(base: string, allowed: set<string>, password: bool)

  function SourceOf(lib: Library, b: Builder, url: string, elements: seq<RawElement>): Source
    requires lib.origin(lib.strip(url)).Some?
  {
    Source(lib.strip(url), {lib.origin(lib.strip(url)).value} + b.allowedOrigins, AsksPassword(lib, elements))
  }

  /** The candidate at this position stands for this element. */
  ghost predicate StandsAt(lib: Library, o: RuntimeObservation, i: nat, e: RawElement, from: Source)
    requires i < |o.elements| == |o.rawIndices| <= |o.candidates|
  {
    var c := o.candidates[i];
    && Counts(lib, e, from.base, from.allowed, c.kind)
    && c.id == "c" + Padded(i) && o.rawIndices[i] == (c.id, e.index)
    && c.fingerprint == o.elements[i] && Prints(lib, e, c.fingerprint)
    && o.TargetFor(c.id) == (if c.kind == Navigate then Some(lib.resolve(e.href.value, from.base)) else None)
    && Gated(lib, e, c.kind, from.password, c.review)
    && Described(lib, e, c.kind, c.description)
  }

  // ---- Filtering keeps exactly what counts -------------------------------------------------------

  function KindOf(cls: KindClass): ActionKind {
    match cls case Editable => RequestText case Control => Click case Link => Navigate
  }

  lemma KeepMeans(lib: Library, e: RawElement, base: string, allowed: set<string>, kind: ActionKind)
    ensures
      var k := Keep(lib, e, base, allowed);
      Counts(lib, e, base, allowed, kind) <==> k.Some? && KindOf(k.value.cls) == kind
    ensures
      var k := Keep(lib, e, base, allowed);
      k.Some? ==>
        && k.value.raw == e
        && k.value.target == if k.value.cls == Link then Some(lib.resolve(e.href.value, base)) else None
  {
    var t := lib.Normal(e.inputType);
    assert TextType(t) <==> t == "" || EditableInputType(t);
    assert Secret(lib, e) <==> SensitiveAutocomplete(lib, e.autocomplete);
  }

  lemma {:induction false} FirstInForemost(kinds: seq<ReviewKind>, matched: set<ReviewKind>)
    requires forall i, j :: 0 <= i < j < |kinds| ==> Precedes(kinds[i]) < Precedes(kinds[j])
    ensures
      var r := FirstIn(kinds, matched);
      r.Some? ==> r.value in matched && forall k | k in kinds && k in matched :: Precedes(r.value) <= Precedes(k)
  {
    if kinds != [] {
      FirstInForemost(kinds[1..], matched);
      assert kinds == [kinds[0]] + kinds[1..];
    }
  }

  lemma ForemostFound(matched: set<ReviewKind>)
    ensures
      var r := ByPrecedence(matched);
      && (r.None? <==> matched == {})
      && (r.Some? ==> r.value in matched && forall k | k in matched :: Precedes(r.value) <= Precedes(k))
  {
    PrecedenceIsTotal(matched);
    FirstInForemost(Precedence(), matched);
    forall k | k in matched
      ensures k in Precedence()
    {
      EveryKindHasPrecedence(k);
    }
  }

  lemma CandidateGated(lib: Library, k: Kept, id: string, f: Fingerprint, password: bool)
    ensures
      var c := CandidateOf(lib, k, id, f, password);
      c.kind == KindOf(k.cls) && Gated(lib, k.raw, c.kind, password, c.review)
  {
    ForemostFound(Reviews(lib, k.raw, KindOf(k.cls)));
  }

  lemma CandidateDescribed(lib: Library, k: Kept, id: string, f: Fingerprint, password: bool)
    ensures
      var c := CandidateOf(lib, k, id, f, password);
      Described(lib, k.raw, c.kind, c.description)
  {
    var e, text := k.raw, Cut(lib.collapse(k.raw.text), 120);
    assert FieldName(e, text) == Or(Attribute(e, "aria-label"), Or(Attribute(e, "name"), text));
    assert "link" + ": " + text == "link: " + text && "button" + ": " + text == "button: " + text;
  }

  // ---- The lists ------------------------------------------------------------------------------------

  function FingerprintsOf(items: seq<Item>): (fs: seq<Fingerprint>)
    ensures |fs| == |items| && forall i :: 0 <= i < |items| ==> fs[i] == items[i].candidate.fingerprint
  {
    if items == [] then [] else [items[0].candidate.fingerprint] + FingerprintsOf(items[1..])
  }

  lemma {:induction false} FingerprintsListed(c: Columns, items: seq<Item>)
    ensures AddAll(c, items).fingerprints == c.fingerprints + FingerprintsOf(items)
    decreases |items|
  {
    if items != [] {
      FingerprintsListed(Add(c, items[0]), items[1..]);
      Regroup(c.fingerprints, [items[0].candidate.fingerprint], FingerprintsOf(items[1..]));
    }
  }

  lemma ItemStands(
    lib: Library, o: RuntimeObservation, items: seq<Item>, i: nat, k: Kept, from: Source)
    requires Lists(lib, o, items) && Numbered(items) && i < |items|
    requires forall j :: 0 <= j < |items| ==> o.elements[j] == items[j].candidate.fingerprint
    requires ItemOf(lib, items[i], k, i, from.password) && Keep(lib, k.raw, from.base, from.allowed) == Some(k)
    ensures o.candidates[i].kind == KindOf(k.cls) && StandsAt(lib, o, i, k.raw, from)
  {
    var c := items[i].candidate;
    assert o.candidates[i] == CandidatesOf(items)[i] == c;
    ListsLookup(lib, o, items, i);
    KeepMeans(lib, k.raw, from.base, from.allowed, KindOf(k.cls));
    CandidateGated(lib, k, CandidateId(i), c.fingerprint, from.password);
    CandidateDescribed(lib, k, CandidateId(i), c.fingerprint, from.password);
  }

  /** The observation and the kept elements behind its first candidates. */
  ghost predicate Listed(
    lib: Library, o: RuntimeObservation, kept: seq<Kept>, elements: seq<RawElement>, from: Source)
  {
    && |o.elements| == |o.rawIndices| == |kept| && |o.candidates| == |kept| + 3
    && forall i :: 0 <= i < |kept| ==>
         && kept[i].raw in elements && o.candidates[i].kind == KindOf(kept[i].cls)
         && StandsAt(lib, o, i, kept[i].raw, from)
  }

  /** The kept elements are supplied ones, under the class that filtering gives them. */
  ghost predicate Sources(lib: Library, kept: seq<Kept>, elements: seq<RawElement>, from: Source) {
    forall i :: 0 <= i < |kept| ==>
      kept[i].raw in elements && Keep(lib, kept[i].raw, from.base, from.allowed) == Some(kept[i])
  }

  lemma KeptSources(lib: Library, b: Builder, url: string, elements: seq<RawElement>)
    requires lib.origin(lib.strip(url)).Some?
    ensures Sources(lib, KeptOf(lib, b, lib.strip(url), elements), elements, SourceOf(lib, b, url, elements))
    ensures SourceOf(lib, b, url, elements).password == PasswordPresent(lib, elements)
  {
    var kept, from := KeptOf(lib, b, lib.strip(url), elements), SourceOf(lib, b, url, elements);
    forall i | 0 <= i < |kept|
      ensures kept[i].raw in elements && Keep(lib, kept[i].raw, from.base, from.allowed) == Some(kept[i])
    {
      KeptSource(lib, b, lib.strip(url), elements, i);
    }
  }

  lemma ItemsListed(
    lib: Library, o: RuntimeObservation, items: seq<Item>, kept: seq<Kept>, elements: seq<RawElement>, from: Source)
    requires Lists(lib, o, items) && Numbered(items) && Itemized(lib, kept, 0, items, from.password)
    requires forall j :: 0 <= j < |items| ==> o.elements[j] == items[j].candidate.fingerprint
    requires Sources(lib, kept, elements, from)
    ensures Listed(lib, o, kept, elements, from) && o.candidates[|o.elements|..] == Synthetic(lib)
  {
    forall i | 0 <= i < |kept|
      ensures kept[i].raw in elements && o.candidates[i].kind == KindOf(kept[i].cls)
      ensures StandsAt(lib, o, i, kept[i].raw, from)
    {
      assert ItemOf(lib, items[i], kept[0 + i], 0 + i, from.password);
      ItemStands(lib, o, items, i, kept[i], from);
    }
  }

  // ---- Order and coverage -------------------------------------------------------------------------------

  /** This candidate does not come after an element of this kind and index. */
  predicate NotAfter(o: RuntimeObservation, i: nat, kind: ActionKind, index: nat)
    requires i < |o.candidates| && i < |o.rawIndices|
  {
    || Rank(o.candidates[i].kind) < Rank(kind)
    || (Rank(o.candidates[i].kind) == Rank(kind) && o.rawIndices[i].1 <= index)
  }

  lemma KeptSorted(lib: Library, b: Builder, base: string, elements: seq<RawElement>)
    requires lib.origin(base).Some?
    ensures Sorted(KeptOf(lib, b, base, elements))
  {
    RankedSorted(KeepAll(lib, elements, base, {lib.origin(base).value} + b.allowedOrigins));
  }

  lemma {:induction false} KeepAllCovers(
    lib: Library, es: seq<RawElement>, base: string, allowed: set<string>, e: RawElement)
    requires e in es && Keep(lib, e, base, allowed).Some?
    ensures Keep(lib, e, base, allowed).value in KeepAll(lib, es, base, allowed)
  {
    assert es == [es[0]] + es[1..];
    if e != es[0] { KeepAllCovers(lib, es[1..], base, allowed, e); }
  }

  /** Among these, or behind a full list of them. */
  predicate CoveredBy(kept: seq<Kept>, k: Kept, maxElements: nat) {
    k in kept || (|kept| == maxElements && forall i :: 0 <= i < |kept| ==> Before(kept[i], k))
  }

  lemma CutCovers(ranked: seq<Kept>, k: Kept, maxElements: nat)
    requires Sorted(ranked) && k in ranked
    ensures CoveredBy(if |ranked| <= maxElements then ranked else ranked[..maxElements], k, maxElements)
  {
    var kept := if |ranked| <= maxElements then ranked else ranked[..maxElements];
    var i :| 0 <= i < |ranked| && ranked[i] == k;
    if i < |kept| {
      assert kept[i] == k;
    } else {
      assert forall j :: 0 <= j < |kept| ==> kept[j] == ranked[j] && Before(ranked[j], ranked[i]);
    }
  }

  /** What is kept is listed, or cut off behind a full list that comes before it. */
  lemma KeptCovers(lib: Library, b: Builder, base: string, elements: seq<RawElement>, e: RawElement)
    requires lib.origin(base).Some? && e in elements
    requires Keep(lib, e, base, {lib.origin(base).value} + b.allowedOrigins).Some?
    ensures
      CoveredBy(KeptOf(lib, b, base, elements), Keep(lib, e, base, {lib.origin(base).value} + b.allowedOrigins).value,
                b.maxElements)
  {
    var allowed := {lib.origin(base).value} + b.allowedOrigins;
    var all, k := KeepAll(lib, elements, base, allowed), Keep(lib, e, base, allowed).value;
    KeepAllCovers(lib, elements, base, allowed, e);
    RankedMembers(all);
    RankedSorted(all);
    CutCovers(Ranked(all), k, b.maxElements);
  }

  lemma {:induction false} TargetTrusted(lib: Library, items: seq<Item>, from: Source, t: (string, string))
    requires t in TargetsOf(items)
    requires forall item | item in items :: Keep(lib, item.kept.raw, from.base, from.allowed) == Some(item.kept)
    ensures lib.origin(t.1).Some? && lib.origin(t.1).value in from.allowed
  {
    if t in TargetOf(items[0]) {
      KeepMeans(lib, items[0].kept.raw, from.base, from.allowed, Navigate);
    } else {
      TargetTrusted(lib, items[1..], from, t);
    }
  }

  ghost predicate StandsForSome(lib: Library, o: RuntimeObservation, i: nat, elements: seq<RawElement>, from: Source)
    requires i < |o.elements| == |o.rawIndices| <= |o.candidates|
  {
    exists e :: e in elements && StandsAt(lib, o, i, e, from)
  }

  /** Every candidate of an element, in order. */
  ghost predicate ShowsElements(lib: Library, o: RuntimeObservation, elements: seq<RawElement>, from: Source) {
    && |o.elements| == |o.rawIndices| && |o.candidates| == |o.elements| + 3
    && (forall i :: 0 <= i < |o.elements| ==> StandsForSome(lib, o, i, elements, from))
    && (forall i, j :: 0 <= i < j < |o.elements| ==> NotAfter(o, i, o.candidates[j].kind, o.rawIndices[j].1))
  }

  /** Every element that counts, but for those behind a full list. */
  ghost predicate MissesNothing(
    lib: Library, o: RuntimeObservation, elements: seq<RawElement>, from: Source, maxElements: nat)
    requires |o.elements| == |o.rawIndices| <= |o.candidates|
  {
    forall e, kind | e in elements && Counts(lib, e, from.base, from.allowed, kind) ::
      ListedOrCut(lib, o, e, kind, from, maxElements)
  }

  /** A candidate of this kind stands for the element, or the list is full of what comes before it. */
  ghost predicate ListedOrCut(
    lib: Library, o: RuntimeObservation, e: RawElement, kind: ActionKind, from: Source, maxElements: nat)
    requires |o.elements| == |o.rawIndices| <= |o.candidates|
  {
    || (exists i :: 0 <= i < |o.elements| && o.candidates[i].kind == kind && StandsAt(lib, o, i, e, from))
    || (|o.elements| == maxElements && forall i :: 0 <= i < |o.elements| ==> NotAfter(o, i, kind, e.index))
  }

  /** After the elements, always the same three: down, up and wait. */
  predicate EndsSynthetic(o: RuntimeObservation)
    requires |o.candidates| == |o.elements| + 3
  {
    var n := |o.elements|;
    && o.candidates[n].id == "s0000" && o.candidates[n].kind == Scroll && o.candidates[n].review.None?
    && o.candidates[n + 1].id == "s0001" && o.candidates[n + 1].kind == Scroll && o.candidates[n + 1].review.None?
    && o.candidates[n + 2].id == "s0002" && o.candidates[n + 2].kind == Wait && o.candidates[n + 2].review.None?
  }

  /** Only links of allowed origins. */
  predicate TrustsTargets(lib: Library, o: RuntimeObservation, allowed: set<string>) {
    forall t | t in o.targets :: lib.origin(t.1).Some? && lib.origin(t.1).value in allowed
  }

  /** The observation shows the page: all that counts of it, and nothing else. */
  ghost predicate Shows(
    lib: Library, o: RuntimeObservation, elements: seq<RawElement>, from: Source, maxElements: nat)
  {
    && ShowsElements(lib, o, elements, from) && MissesNothing(lib, o, elements, from, maxElements)
    && EndsSynthetic(o) && TrustsTargets(lib, o, from.allowed)
  }

  lemma ListedShown(lib: Library, o: RuntimeObservation, kept: seq<Kept>, elements: seq<RawElement>, from: Source)
    requires Listed(lib, o, kept, elements, from) && Sorted(kept)
    ensures ShowsElements(lib, o, elements, from)
  {
    forall i, j | 0 <= i < j < |o.elements|
      ensures NotAfter(o, i, o.candidates[j].kind, o.rawIndices[j].1)
    {
      assert Before(kept[i], kept[j]);
      assert StandsAt(lib, o, i, kept[i].raw, from) && StandsAt(lib, o, j, kept[j].raw, from);
    }
    forall i | 0 <= i < |o.elements|
      ensures StandsForSome(lib, o, i, elements, from)
    {
      assert StandsAt(lib, o, i, kept[i].raw, from);
    }
  }

  /** What filtering keeps is among these, or these are full and come before it. */
  ghost predicate Covers(lib: Library, kept: seq<Kept>, elements: seq<RawElement>, from: Source, maxElements: nat) {
    forall e | e in elements && Keep(lib, e, from.base, from.allowed).Some? ::
      CoveredBy(kept, Keep(lib, e, from.base, from.allowed).value, maxElements)
  }

  lemma CoveredShown(
    lib: Library, o: RuntimeObservation, kept: seq<Kept>, elements: seq<RawElement>, from: Source, k: Kept,
    maxElements: nat)
    requires Listed(lib, o, kept, elements, from) && CoveredBy(kept, k, maxElements)
    ensures ListedOrCut(lib, o, k.raw, KindOf(k.cls), from, maxElements)
  {
    if k in kept {
      var i :| 0 <= i < |kept| && kept[i] == k;
      assert StandsAt(lib, o, i, k.raw, from) && o.candidates[i].kind == KindOf(k.cls);
    } else {
      forall i | 0 <= i < |o.elements|
        ensures NotAfter(o, i, KindOf(k.cls), k.raw.index)
      {
        assert Before(kept[i], k) && StandsAt(lib, o, i, kept[i].raw, from);
      }
    }
  }

  lemma ListedMissesNothing(
    lib: Library, o: RuntimeObservation, kept: seq<Kept>, elements: seq<RawElement>, from: Source, maxElements: nat)
    requires Listed(lib, o, kept, elements, from) && Covers(lib, kept, elements, from, maxElements)
    ensures MissesNothing(lib, o, elements, from, maxElements)
  {
    forall e, kind | e in elements && Counts(lib, e, from.base, from.allowed, kind)
      ensures ListedOrCut(lib, o, e, kind, from, maxElements)
    {
      KeepMeans(lib, e, from.base, from.allowed, kind);
      CoveredShown(lib, o, kept, elements, from, Keep(lib, e, from.base, from.allowed).value, maxElements);
    }
  }

  lemma KeptCoversAll(lib: Library, b: Builder, url: string, elements: seq<RawElement>)
    requires lib.origin(lib.strip(url)).Some?
    ensures
      Covers(lib, KeptOf(lib, b, lib.strip(url), elements), elements, SourceOf(lib, b, url, elements), b.maxElements)
  {
    forall e | e in elements && Keep(lib, e, lib.strip(url), SourceOf(lib, b, url, elements).allowed).Some?
      ensures CoveredBy(KeptOf(lib, b, lib.strip(url), elements),
                        Keep(lib, e, lib.strip(url), SourceOf(lib, b, url, elements).allowed).value, b.maxElements)
    {
      KeptCovers(lib, b, lib.strip(url), elements, e);
    }
  }

  lemma ItemsTrusted(
    lib: Library, o: RuntimeObservation, items: seq<Item>, kept: seq<Kept>, elements: seq<RawElement>, from: Source)
    requires Lists(lib, o, items) && Itemized(lib, kept, 0, items, from.password) && Sources(lib, kept, elements, from)
    ensures TrustsTargets(lib, o, from.allowed)
  {
    forall i | 0 <= i < |items|
      ensures Keep(lib, items[i].kept.raw, from.base, from.allowed) == Some(items[i].kept)
    {
      assert ItemOf(lib, items[i], kept[0 + i], 0 + i, from.password);
    }
    forall t | t in o.targets
      ensures lib.origin(t.1).Some? && lib.origin(t.1).value in from.allowed
    {
      TargetTrusted(lib, items, from, t);
    }
  }

  lemma LastThree(lib: Library, o: RuntimeObservation)
    requires |o.candidates| == |o.elements| + 3 && o.candidates[|o.elements|..] == Synthetic(lib)
    ensures EndsSynthetic(o)
  {
    var n := |o.elements|;
    assert o.candidates[n..][0] == o.candidates[n] && o.candidates[n..][1] == o.candidates[n + 1];
    assert o.candidates[n..][2] == o.candidates[n + 2];
  }

  /** What filtering, ranking and cutting give: supplied elements, in order, with nothing left out. */
  ghost predicate Chosen(lib: Library, kept: seq<Kept>, elements: seq<RawElement>, from: Source, maxElements: nat) {
    Sources(lib, kept, elements, from) && Sorted(kept) && Covers(lib, kept, elements, from, maxElements)
  }

  /** What is so chosen and listed is shown. */
  lemma ItemsShown(
    lib: Library, o: RuntimeObservation, items: seq<Item>, kept: seq<Kept>, elements: seq<RawElement>, from: Source,
    maxElements: nat)
    requires Lists(lib, o, items) && Numbered(items) && Itemized(lib, kept, 0, items, from.password)
    requires forall j :: 0 <= j < |items| ==> o.elements[j] == items[j].candidate.fingerprint
    requires Chosen(lib, kept, elements, from, maxElements)
    ensures Shows(lib, o, elements, from, maxElements)
  {
    ItemsListed(lib, o, items, kept, elements, from);
    ListedShown(lib, o, kept, elements, from);
    ListedMissesNothing(lib, o, kept, elements, from, maxElements);
    ItemsTrusted(lib, o, items, kept, elements, from);
    LastThree(lib, o);
  }

  lemma AssembledColumns(lib: Library, b: Builder, base: string, title: string, text: string, items: seq<Item>)
    ensures
      var o := Assembled(lib, b, base, title, text, items);
      Lists(lib, o, items) && forall j :: 0 <= j < |items| ==> o.elements[j] == items[j].candidate.fingerprint
  {
    AssembledLists(lib, b, base, title, text, items);
    FingerprintsListed(Columns([], [], [], []), items);
  }

  lemma KeptChosen(lib: Library, b: Builder, url: string, elements: seq<RawElement>)
    requires lib.origin(lib.strip(url)).Some?
    ensures
      Chosen(lib, KeptOf(lib, b, lib.strip(url), elements), elements, SourceOf(lib, b, url, elements), b.maxElements)
  {
    KeptSources(lib, b, url, elements);
    KeptSorted(lib, b, lib.strip(url), elements);
    KeptCoversAll(lib, b, url, elements);
  }

  /** The observation that a successful build gives, with the items behind it. */
  lemma BuiltItems(
    lib: Library, b: Builder, url: string, title: string, text: string, elements: seq<RawElement>)
    returns (o: RuntimeObservation, items: seq<Item>)
    requires Built(lib, b, url, title, text, elements).Success?
    ensures lib.origin(lib.strip(url)).Some? && o == Built(lib, b, url, title, text, elements).value
    ensures Lists(lib, o, items) && Numbered(items)
    ensures forall j :: 0 <= j < |items| ==> o.elements[j] == items[j].candidate.fingerprint
    ensures Itemized(lib, KeptOf(lib, b, lib.strip(url), elements), 0, items, PasswordPresent(lib, elements))
    ensures o.url == lib.strip(url) && o.title == Cut(lib.collapse(title), 512)
    ensures o.pageText == Cut(lib.collapse(text), b.maxText)
  {
    BuiltFrom(lib, b, url, title, text, elements);
    items := ItemsOf(lib, b, lib.strip(url), elements);
    o := Assembled(lib, b, lib.strip(url), title, text, items);
    AssembledColumns(lib, b, lib.strip(url), title, text, items);
  }

  /**
   What an observation is: each of its first candidates stands for a supplied element of its kind, with
   that element's index, fingerprint, link target, review gate and description, in the order of kinds and
   indices; no element that counts is missing but for those behind a full list; every link target is of
   the page's origin or another allowed one; and three synthetic candidates come last.
   */
  lemma BuiltExact(lib: Library, b: Builder, url: string, title: string, text: string, elements: seq<RawElement>)
    requires Built(lib, b, url, title, text, elements).Success?
    ensures lib.origin(lib.strip(url)).Some?
    ensures
      var o := Built(lib, b, url, title, text, elements).value;
      && Shows(lib, o, elements, SourceOf(lib, b, url, elements), b.maxElements)
      && o.url == lib.strip(url) && o.title == Cut(lib.collapse(title), 512)
      && o.pageText == Cut(lib.collapse(text), b.maxText)
  {
    var o, items := BuiltItems(lib, b, url, title, text, elements);
    KeptChosen(lib, b, url, elements);
    KeptSources(lib, b, url, elements);
    ItemsShown(lib, o, items, KeptOf(lib, b, lib.strip(url), elements), elements, SourceOf(lib, b, url, elements),
               b.maxElements);
  }

  /** So no candidate stands for anything hidden, disabled or secret, nor for a file. */
  lemma NothingForbidden(lib: Library, o: RuntimeObservation, i: nat, e: RawElement, from: Source)
    requires i < |o.elements| == |o.rawIndices| <= |o.candidates| && StandsAt(lib, o, i, e, from)
    ensures e.visible && !e.disabled
    ensures lib.Tag(e) == "input" ==> lib.Normal(e.inputType) !in {"hidden", "password", "file"}
    ensures o.candidates[i].kind == RequestText ==> !Secret(lib, e)
  {
    assert TextType(lib.Normal(e.inputType)) ==> lib.Normal(e.inputType) !in {"hidden", "password", "file"};
  }

  // ---- Once each ------------------------------------------------------------------------------------------

  predicate IndicesDiffer(s: seq<Kept>) {
    forall i, j :: 0 <= i < j < |s| ==> s[i].raw.index != s[j].raw.index
  }

  lemma OthersDiffer(es: seq<RawElement>, rest: seq<Kept>)
    requires es != [] && DistinctIndices(es) && forall k | k in rest :: k.raw in es[1..]
    ensures forall k | k in rest :: k.raw.index != es[0].index
  {
    forall k | k in rest
      ensures k.raw.index != es[0].index
    {
      var j :| 0 <= j < |es[1..]| && es[1..][j] == k.raw;
      assert es[j + 1] == k.raw;
    }
  }

  lemma {:induction false} KeepAllOnce(lib: Library, es: seq<RawElement>, base: string, allowed: set<string>)
    requires DistinctIndices(es)
    ensures IndicesDiffer(KeepAll(lib, es, base, allowed))
  {
    if es != [] {
      KeepAllOnce(lib, es[1..], base, allowed);
      KeepAllSource(lib, es[1..], base, allowed);
      OthersDiffer(es, KeepAll(lib, es[1..], base, allowed));
    }
  }

  lemma {:induction false} OnceInMultiset(s: seq<Kept>, x: Kept)
    requires IndicesDiffer(s)
    ensures multiset(s)[x] <= 1
  {
    if s != [] {
      assert s == [s[0]] + s[1..];
      OnceInMultiset(s[1..], x);
      forall j | 0 <= j < |s[1..]|
        ensures s[1..][j] != s[0]
      {
        assert s[1..][j] == s[j + 1];
      }
    }
  }

  lemma TwiceInMultiset(s: seq<Kept>, i: nat, j: nat)
    requires i < j < |s| && s[i] == s[j]
    ensures multiset(s)[s[i]] >= 2
  {
    assert s == s[..j] + [s[j]] + s[j + 1..];
    assert s[i] in s[..j];
  }

  lemma RankedOnce(s: seq<Kept>)
    requires IndicesDiffer(s)
    ensures IndicesDiffer(Ranked(s))
  {
    var t := Ranked(s);
    RankedSorted(s);
    RankedMembers(s);
    forall i, j | 0 <= i < j < |t|
      ensures t[i].raw.index != t[j].raw.index
    {
      if t[i] == t[j] {
        TwiceInMultiset(t, i, j);
        OnceInMultiset(s, t[i]);
      }
      assert t[i] in s && t[j] in s;
    }
  }

  lemma KeptOnce(lib: Library, b: Builder, base: string, elements: seq<RawElement>)
    requires lib.origin(base).Some? && DistinctIndices(elements)
    ensures IndicesDiffer(KeptOf(lib, b, base, elements))
  {
    var allowed := {lib.origin(base).value} + b.allowedOrigins;
    KeepAllOnce(lib, elements, base, allowed);
    RankedOnce(KeepAll(lib, elements, base, allowed));
  }

  lemma ItemsOnce(lib: Library, o: RuntimeObservation, items: seq<Item>, kept: seq<Kept>, password: bool)
    requires Lists(lib, o, items) && Itemized(lib, kept, 0, items, password) && IndicesDiffer(kept)
    ensures |o.elements| == |o.rawIndices|
    ensures forall i, j :: 0 <= i < j < |o.rawIndices| ==> o.rawIndices[i].1 != o.rawIndices[j].1
  {
    forall i | 0 <= i < |o.rawIndices|
      ensures o.rawIndices[i].1 == kept[i].raw.index
    {
      assert ItemOf(lib, items[i], kept[0 + i], 0 + i, password);
    }
  }

  /** With distinct raw indices no element is listed twice. */
  lemma ListedOnce(lib: Library, b: Builder, url: string, title: string, text: string, elements: seq<RawElement>)
    requires Built(lib, b, url, title, text, elements).Success? && DistinctIndices(elements)
    ensures
      var o := Built(lib, b, url, title, text, elements).value;
      && |o.elements| == |o.rawIndices|
      && forall i, j :: 0 <= i < j < |o.rawIndices| ==> o.rawIndices[i].1 != o.rawIndices[j].1
  {
    var o, items := BuiltItems(lib, b, url, title, text, elements);
    KeptOnce(lib, b, lib.strip(url), elements);
    ItemsOnce(lib, o, items, KeptOf(lib, b, lib.strip(url), elements), PasswordPresent(lib, elements));
  }

  // ---- When no observation is made -------------------------------------------------------------------------

  /** What the element model takes: a tag of 1 to 32 characters, a role of at most 64, a text of at most a million. */
  predicate Fits(lib: Library, e: RawElement) {
    && 1 <= |lib.Tag(e)| <= 32 && |lib.Normal(e.role)| <= 64 && |lib.normalize(e.text)| <= 1_000_000
  }

  lemma ItemsFit(lib: Library, kept: seq<Kept>, items: seq<Item>, password: bool)
    requires Itemized(lib, kept, 0, items, password)
    ensures AllValid(items) <==> forall k | k in kept :: Fits(lib, k.raw)
  {
    forall i | 0 <= i < |kept|
      ensures ValidFingerprint(items[i].candidate.fingerprint) <==> Fits(lib, kept[i].raw)
    {
      assert ItemOf(lib, items[i], kept[0 + i], 0 + i, password);
    }
    if AllValid(items) {
      forall k | k in kept
        ensures Fits(lib, k.raw)
      {
        var i :| 0 <= i < |kept| && kept[i] == k;
        assert items[i] in items;
      }
    }
  }

  /** Each error of the build exactly by its cause: the URL, an element to be listed, the bounds of the summary. */
  lemma BuildErrorsExact(
    lib: Library, b: Builder, url: string, title: string, text: string, elements: seq<RawElement>)
    ensures
      var r, base := Built(lib, b, url, title, text, elements), lib.strip(url);
      && (r == Failure(NotHttpUrl) <==> !lib.isHttp(base) || lib.origin(base).None?)
      && (lib.isHttp(base) && lib.origin(base).Some? ==>
            var kept := KeptOf(lib, b, base, elements);
            if exists k | k in kept :: !Fits(lib, k.raw) then r == Failure(InvalidElement)
            else if Blank(base) || |base| > 2048 || |kept| > 500 then r == Failure(InvalidSummary)
            else r.Success?)
  {
    var base := lib.strip(url);
    if lib.isHttp(base) && lib.origin(base).Some? {
      var items, kept := ItemsOf(lib, b, base, elements), KeptOf(lib, b, base, elements);
      ItemsMeaning(lib, kept, 0, {}, PasswordPresent(lib, elements));
      ItemsFit(lib, kept, items, PasswordPresent(lib, elements));
      AssembledLists(lib, b, base, title, text, items);
    }
  }
}
