/** From raw page elements to a bounded, indexed observation. */
module Observation {
  import opened Wrappers
  import opened Text
  import opened Models

  const MAX_SESSION_ELEMENTS: nat := 500
  const SCROLL_DOWN_ID: string := "s0000"
  const SCROLL_UP_ID: string := "s0001"
  const WAIT_ID: string := "s0002"

  predicate ExcludedInputType(t: string) {
    t in {"hidden", "password", "file"}
  }

  predicate EditableInputType(t: string) {
    t in {"text", "email", "tel", "search", "number", "url", "date", "time", "datetime-local", "month", "week"}
  }

  predicate SensitiveAutocompleteValue(a: string) {
    a in {"one-time-code", "one-time-code-paragraph", "current-password", "new-password"}
  }

  predicate ControlRole(role: string) {
    role in {"button", "link", "tab", "menuitem"}
  }

  datatype RawElement = RawElement(
    index: nat, tag: string, role: Option<string>, text: string, inputType: Option<string>,
    autocomplete: Option<string>, href: Option<string>, visible: bool, disabled: bool, attributes: map<string, string>)

  /** A hexadecimal SHA-256 digest; only its length matters here. */
  type Digest = s: string | |s| == 64 witness seq(64, _ => '0')

  /** What a fingerprint digests. Element text enters by its length only. */
  datatype Shape = Shape(
    tag: string, role: string, textLength: nat, inputType: string, autocomplete: string, href: string,
    attributes: seq<string>)

  /** Text, URL and digest functions, left arbitrary. */
  datatype Library = Library(
    normalize: string -> string, // white space collapsed, lower case
    collapse: string -> string, // runs of white space become one space
    strip: string -> string,
    scheme: string -> string, // lower-case URL scheme
    isHttp: string -> bool, // absolute http(s) URL
    resolve: (string, string) -> string, // href against base
    origin: string -> Option<string>, // None: ValueError
    structural: map<string, string> -> seq<string>, // sorted fingerprint attributes
    canonical: Shape -> string,
    sha: string -> Digest,
    reviewKinds: string -> set<ReviewKind>) // text patterns that match
  {
    function Bounded(s: string, limit: nat): string {
      Cut(collapse(s), limit)
    }

    function Digested(e: RawElement): Digest {
      sha(canonical(ShapeOf(e)))
    }

    function Normal(s: Option<string>): string {
      if s.None? then "" else normalize(s.value)
    }

    function Tag(e: RawElement): string {
      var t := normalize(e.tag);
      if t == "" then "unknown" else t
    }

    function ShapeOf(e: RawElement): Shape {
      Shape(Tag(e), Normal(e.role), |normalize(e.text)|, Normal(e.inputType), Normal(e.autocomplete),
            Normal(e.href), structural(e.attributes))
    }
  }

  datatype KindClass = Editable | Control | Link

  datatype Kept = Kept(raw: RawElement, cls: KindClass, target: Option<string>)

  // ---- Filtering and ranking ---------------------------------------------------------

  datatype InputClass = ExcludedInput | EditableInput | ControlInput

  function ClassifyInput(lib: Library, inputType: Option<string>): InputClass {
    var t := lib.Normal(inputType);
    if t == "" then EditableInput
    else if ExcludedInputType(t) then ExcludedInput
    else if EditableInputType(t) then EditableInput
    else ControlInput
  }

  predicate SensitiveAutocomplete(lib: Library, autocomplete: Option<string>) {
    var a := lib.Normal(autocomplete);
    a != "" && (SensitiveAutocompleteValue(a) || "cc-" <= a)
  }

  /** What becomes of one element: dropped, or kept under a class. */
  function Keep(lib: Library, e: RawElement, base: string, allowed: set<string>): Option<Kept> {
    var tag := lib.Tag(e);
    if !e.visible || e.disabled then None
    else if tag == "input" then
      match ClassifyInput(lib, e.inputType)
      case ExcludedInput => None
      case EditableInput => if SensitiveAutocomplete(lib, e.autocomplete) then None else Some(Kept(e, Editable, None))
      case ControlInput => Some(Kept(e, Control, None))
    else if tag == "textarea" then
      if SensitiveAutocomplete(lib, e.autocomplete) then None else Some(Kept(e, Editable, None))
    else if tag == "button" || tag == "select" then Some(Kept(e, Control, None))
    else if tag == "a" then
      if e.href.None? || Blank(e.href.value) then None
      else if lib.scheme(e.href.value) !in {"http", "https", ""} then None
      else
        var resolved := lib.resolve(e.href.value, base);
        var origin := lib.origin(resolved);
        if origin.None? || origin.value !in allowed then None else Some(Kept(e, Link, Some(resolved)))
    else if ControlRole(lib.Normal(e.role)) then Some(Kept(e, Control, None))
    else None
  }

  function KeepAll(lib: Library, es: seq<RawElement>, base: string, allowed: set<string>): seq<Kept> {
    if es == [] then []
    else
      var k := Keep(lib, es[0], base, allowed);
      if k.None? then KeepAll(lib, es[1..], base, allowed) else [k.value] + KeepAll(lib, es[1..], base, allowed)
  }

  function Priority(c: KindClass): nat {
    match c case Editable => 0 case Control => 1 case Link => 2
  }

  predicate Before(a: Kept, b: Kept) {
    Priority(a.cls) < Priority(b.cls) || (Priority(a.cls) == Priority(b.cls) && a.raw.index <= b.raw.index)
  }

  function Insert(k: Kept, s: seq<Kept>): seq<Kept> {
    if s == [] then [k]
    else if Before(k, s[0]) then [k] + s
    else [s[0]] + Insert(k, s[1..])
  }

  /** Python's stable list sort by class priority and index. */
  function Ranked(s: seq<Kept>): seq<Kept> {
    if s == [] then [] else Insert(s[0], Ranked(s[1..]))
  }

  method FilterAndRank(lib: Library, elements: seq<RawElement>, base: string, allowed: set<string>)
    returns (kept: seq<Kept>)
    ensures kept == Ranked(KeepAll(lib, elements, base, allowed))
  {
    kept := [];
    for i := 0 to |elements|
      invariant kept + KeepAll(lib, elements[i..], base, allowed) == KeepAll(lib, elements, base, allowed)
    {
      assert elements[i..][1..] == elements[i + 1..];
      var k := Keep(lib, elements[i], base, allowed);
      if k.Some? { kept := kept + [k.value]; }
    }
    assert elements[|elements|..] == [] && kept + [] == kept;
    kept := Ranked(kept);
  }

  predicate Sorted(s: seq<Kept>) {
    forall i, j :: 0 <= i < j < |s| ==> Before(s[i], s[j])
  }

  lemma {:induction false} InsertAdds(k: Kept, s: seq<Kept>)
    ensures multiset(Insert(k, s)) == multiset{k} + multiset(s)
    ensures forall x | x in Insert(k, s) :: x == k || x in s
  {
    if s != [] {
      assert s == [s[0]] + s[1..];
      InsertAdds(k, s[1..]);
    }
  }

  lemma {:induction false} InsertSorted(k: Kept, s: seq<Kept>)
    requires Sorted(s)
    ensures Sorted(Insert(k, s))
  {
    if s != [] && !Before(k, s[0]) {
      InsertSorted(k, s[1..]);
      InsertAdds(k, s[1..]);
      var rest := Insert(k, s[1..]);
      forall x | x in rest
        ensures Before(s[0], x)
      {
      }
    }
  }

  /** Ranking orders the kept elements and neither loses nor repeats one. */
  lemma {:induction false} RankedSorted(s: seq<Kept>)
    ensures Sorted(Ranked(s)) && multiset(Ranked(s)) == multiset(s)
  {
    if s != [] {
      RankedSorted(s[1..]);
      InsertSorted(s[0], Ranked(s[1..]));
      InsertAdds(s[0], Ranked(s[1..]));
      assert s == [s[0]] + s[1..];
    }
  }

  // ---- Fingerprints, candidates, observation --------------------------------------------

  /** The digest's first 16 characters, with a counter when that id is taken. */
  function FingerprintId(digest: Digest, seen: set<string>): string {
    var id := "el-" + digest[..16];
    if id in seen then id + "-" + Decimal(|seen|) else id
  }

  function NonEmpty(s: string): Option<string> {
    if s == "" then None else Some(s)
  }

  function FingerprintOf(lib: Library, e: RawElement, id: string): Fingerprint {
    Fingerprint(id, lib.Tag(e), NonEmpty(lib.Normal(e.role)), |lib.normalize(e.text)|,
                "sha256:" + lib.Digested(e)[..32])
  }

  function FirstIn(kinds: seq<ReviewKind>, matched: set<ReviewKind>): Option<ReviewKind> {
    if kinds == [] then None
    else if kinds[0] in matched then Some(kinds[0])
    else FirstIn(kinds[1..], matched)
  }

  function Precedence(): seq<ReviewKind> {
    [Captcha, Payment, LoginSubmit, FileTransfer, Destructive, PublicPosting, PermissionGrant, MessageSubmit]
  }

  function ByPrecedence(matched: set<ReviewKind>): Option<ReviewKind> {
    FirstIn(Precedence(), matched)
  }

  function MatchReview(lib: Library, text: string, inputType: Option<string>, download: bool): Option<ReviewKind> {
    ByPrecedence(
            (if download then {FileTransfer} else {}) +
            (if lib.Normal(inputType) == "reset" then {Destructive} else {}) +
            lib.reviewKinds(lib.normalize(text)))
  }

  function Attribute(e: RawElement, name: string): string {
    if name in e.attributes then e.attributes[name] else ""
  }

  /** The text that review patterns are looked for in. */
  function ReviewText(lib: Library, e: RawElement): string {
    lib.Bounded(e.text, 120) + " " + Attribute(e, "aria-label")
  }

  /** The first nonempty one, as Python's `or` picks it. */
  function Or(s: string, otherwise: string): string {
    if s != "" then s else otherwise
  }

  function Prefixed(kind: string, text: string): string {
    if text == "" then kind else kind + ": " + text
  }

  /** What the backend is told of a candidate. */
  function Describe(lib: Library, e: RawElement, cls: KindClass): (d: string)
    ensures |d| <= 200
  {
    var text := lib.Bounded(e.text, 120);
    match cls
    case Link => Or(lib.Bounded(Prefixed("link", text), 200), "link")
    case Editable =>
      var name := lib.Bounded(Or(Attribute(e, "aria-label"), Or(Attribute(e, "name"), text)), 80);
      Or(lib.Bounded("input " + Or(lib.Normal(e.inputType), "text") + ": " + name, 200), "editable")
    case Control => Or(lib.Bounded(Prefixed("button", text), 200), "control")
  }

  predicate Submits(lib: Library, e: RawElement) {
    var control := lib.Normal(e.inputType);
    control == "submit" || (control == "" && lib.normalize(e.tag) == "button")
  }

  function CandidateOf(lib: Library, k: Kept, id: string, fingerprint: Fingerprint, password: bool)
    : (c: Candidate)
    ensures c.id == id && c.fingerprint == fingerprint
  {
    var e := k.raw;
    var download := "download" in e.attributes;
    var text := ReviewText(lib, e);
    var description := Describe(lib, e, k.cls);
    match k.cls
    case Link => Candidate(id, Navigate, fingerprint, description, MatchReview(lib, text, None, download))
    case Editable => Candidate(id, RequestText, fingerprint, description, None)
    case Control =>
      var matched := MatchReview(lib, text, e.inputType, download);
      var review :=
        if matched.None? && Submits(lib, e) then Some(if password then LoginSubmit else MessageSubmit) else matched;
      Candidate(id, Click, fingerprint, description, review)
  }

  function CandidateId(position: nat): string {
    "c" + Padded(position)
  }

  /** One DOM-backed candidate with the element it was made from. */
  datatype Item = Item(candidate: Candidate, kept: Kept)

  function ItemAt(lib: Library, kept: seq<Kept>, position: nat, seen: set<string>, password: bool): (item: Item)
    requires position < |kept|
    ensures item.candidate.fingerprint.id == FingerprintId(lib.Digested(kept[position].raw), seen)
  {
    var k := kept[position];
    var id := FingerprintId(lib.Digested(k.raw), seen);
    Item(CandidateOf(lib, k, CandidateId(position), FingerprintOf(lib, k.raw, id), password), k)
  }

  function ItemsFrom(lib: Library, kept: seq<Kept>, position: nat, seen: set<string>, password: bool): seq<Item>
    requires position <= |kept|
    decreases |kept| - position
  {
    if position == |kept| then []
    else
      var item := ItemAt(lib, kept, position, seen, password);
      [item] + ItemsFrom(lib, kept, position + 1, seen + {item.candidate.fingerprint.id}, password)
  }

  function SyntheticFingerprint(lib: Library, name: string): Fingerprint {
    Fingerprint("syn-" + name, "synthetic", None, 0, "sha256:" + lib.sha("syn-" + name)[..32])
  }

  function Synthetic(lib: Library): seq<Candidate> {
    [ Candidate(SCROLL_DOWN_ID, Scroll, SyntheticFingerprint(lib, "scroll-down"), "scroll down the page", None),
      Candidate(SCROLL_UP_ID, Scroll, SyntheticFingerprint(lib, "scroll-up"), "scroll up the page", None),
      Candidate(WAIT_ID, Wait, SyntheticFingerprint(lib, "wait"), "wait briefly for the page to settle", None) ]
  }

  datatype RuntimeObservation = RuntimeObservation(
    url: string, title: string, pageText: string, elements: seq<Fingerprint>, candidates: seq<Candidate>,
    targets: seq<(string, string)>, rawIndices: seq<(string, nat)>)
  {
    function TargetFor(id: string): Option<string> {
      Lookup(targets, id)
    }

    function RawIndexFor(id: string): Option<nat> {
      Lookup(rawIndices, id)
    }
  }

  function Lookup<T>(table: seq<(string, T)>, id: string): Option<T> {
    if table == [] then None
    else if table[0].0 == id then Some(table[0].1)
    else Lookup(table[1..], id)
  }

  const MAX_SUMMARY_URL: nat := 2048

  datatype BuildError = NotHttpUrl | InvalidElement | InvalidSummary

  predicate AllValid(items: seq<Item>) {
    forall item | item in items :: ValidFingerprint(item.candidate.fingerprint)
  }

  /** The limits of the observation model on its URL and number of elements; the title is cut to its limit. */
  predicate ValidSummary(url: string, elements: nat) {
    !Blank(url) && |url| <= MAX_SUMMARY_URL && elements <= MAX_SESSION_ELEMENTS
  }

  datatype Builder = Builder(maxElements: nat, maxText: nat, allowedOrigins: set<string>)

  predicate PasswordPresent(lib: Library, elements: seq<RawElement>) {
    exists e | e in elements :: e.visible && !e.disabled && lib.Normal(e.inputType) == "password"
  }

  function KeptOf(lib: Library, b: Builder, base: string, elements: seq<RawElement>): seq<Kept>
    requires lib.origin(base).Some?
  {
    var kept := Ranked(KeepAll(lib, elements, base, {lib.origin(base).value} + b.allowedOrigins));
    if |kept| <= b.maxElements then kept else kept[..b.maxElements]
  }

  function ItemsOf(lib: Library, b: Builder, base: string, elements: seq<RawElement>): seq<Item>
    requires lib.origin(base).Some?
  {
    ItemsFrom(lib, KeptOf(lib, b, base, elements), 0, {}, PasswordPresent(lib, elements))
  }

  /** The parallel lists that `build` fills. */
  datatype Columns = Columns(
    fingerprints: seq<Fingerprint>, candidates: seq<Candidate>, targets: seq<(string, string)>,
    rawIndices: seq<(string, nat)>)

  function Add(c: Columns, item: Item): Columns {
    var id := item.candidate.id;
    Columns(
      c.fingerprints + [item.candidate.fingerprint],
      c.candidates + [item.candidate],
      if item.kept.cls == Link
      then c.targets + [(id, if item.kept.target.Some? then item.kept.target.value else "")] else c.targets,
      c.rawIndices + [(id, item.kept.raw.index)])
  }

  function AddAll(c: Columns, items: seq<Item>): Columns
    decreases |items|
  {
    if items == [] then c else AddAll(Add(c, items[0]), items[1..])
  }

  /** The observation that the finished lists make. */
  function Assembled(lib: Library, b: Builder, base: string, title: string, text: string, items: seq<Item>)
    : RuntimeObservation
  {
    var c := AddAll(Columns([], [], [], []), items);
    RuntimeObservation(
      base, lib.Bounded(title, 512), lib.Bounded(text, b.maxText), c.fingerprints, c.candidates + Synthetic(lib),
      c.targets, c.rawIndices)
  }

  function Checked(base: string, items: seq<Item>, o: RuntimeObservation): Result<RuntimeObservation, BuildError> {
    if !AllValid(items) then Failure(InvalidElement)
    else if !ValidSummary(base, |o.elements|) then Failure(InvalidSummary)
    else Success(o)
  }

  /** `build`, as a function of the page. */
  function Built(lib: Library, b: Builder, url: string, title: string, text: string, elements: seq<RawElement>)
    : Result<RuntimeObservation, BuildError>
  {
    var base := lib.strip(url);
    if !lib.isHttp(base) || lib.origin(base).None? then Failure(NotHttpUrl)
    else
      var items := ItemsOf(lib, b, base, elements);
      Checked(base, items, Assembled(lib, b, base, title, text, items))
  }

  method Build(lib: Library, b: Builder, url: string, title: string, text: string, elements: seq<RawElement>)
    returns (r: Result<RuntimeObservation, BuildError>)
    ensures r == Built(lib, b, url, title, text, elements)
  {
    var base := lib.strip(url);
    if !lib.isHttp(base) || lib.origin(base).None? { return Failure(NotHttpUrl); }
    var allowed := {lib.origin(base).value} + b.allowedOrigins;
    var kept := FilterAndRank(lib, elements, base, allowed);
    if |kept| > b.maxElements { kept := kept[..b.maxElements]; }
    var c := FillColumns(lib, kept, PasswordPresent(lib, elements));
    if c.None? { return Failure(InvalidElement); }
    if !ValidSummary(base, |c.value.fingerprints|) { return Failure(InvalidSummary); }
    r := Success(RuntimeObservation(
      base, lib.Bounded(title, 512), lib.Bounded(text, b.maxText), c.value.fingerprints,
      c.value.candidates + Synthetic(lib), c.value.targets, c.value.rawIndices));
  }

  /** The loop of `build`; None where an element is refused. */
  method FillColumns(lib: Library, kept: seq<Kept>, password: bool) returns (c: Option<Columns>)
    ensures
      var items := ItemsFrom(lib, kept, 0, {}, password);
      c == if AllValid(items) then Some(AddAll(Columns([], [], [], []), items)) else None
  {
    var fingerprints: seq<Fingerprint>, candidates: seq<Candidate> := [], [];
    var targets: seq<(string, string)>, rawIndices: seq<(string, nat)> := [], [];
    var seen := {};
    ghost var all := ItemsFrom(lib, kept, 0, {}, password);
    for position := 0 to |kept|
      invariant
        AddAll(Columns(fingerprints, candidates, targets, rawIndices), ItemsFrom(lib, kept, position, seen, password))
        == AddAll(Columns([], [], [], []), all)
      invariant AllValid(ItemsFrom(lib, kept, position, seen, password)) <==> AllValid(all)
    {
      ghost var item := ItemAt(lib, kept, position, seen, password);
      ghost var rest := ItemsFrom(lib, kept, position + 1, seen + {item.candidate.fingerprint.id}, password);
      FirstValid(item, rest);
      var k := kept[position];
      var id := FingerprintId(lib.Digested(k.raw), seen);
      var fingerprint := FingerprintOf(lib, k.raw, id);
      if !ValidFingerprint(fingerprint) { return None; }
      var candidate := CandidateOf(lib, k, CandidateId(position), fingerprint, password);
      seen := seen + {id};
      fingerprints := fingerprints + [fingerprint];
      candidates := candidates + [candidate];
      rawIndices := rawIndices + [(candidate.id, k.raw.index)];
      if k.cls == Link {
        targets := targets + [(candidate.id, if k.target.Some? then k.target.value else "")];
      }
    }
    c := Some(Columns(fingerprints, candidates, targets, rawIndices));
  }

  lemma FirstValid(item: Item, rest: seq<Item>)
    ensures AllValid([item] + rest) <==> ValidFingerprint(item.candidate.fingerprint) && AllValid(rest)
    ensures ([item] + rest)[1..] == rest
  {
    assert item in [item] + rest && forall x | x in rest :: x in [item] + rest;
  }
}
