/** The credential file: a two-key text format, printed and parsed. */
module Credentials {
  import opened Wrappers
  import opened Text

  const TYPESAFE_KEY: string := "TYPESAFE_API_KEY"
  const OPENROUTER_KEY: string := "OPENROUTER_API_KEY"

  datatype Name = Typesafe | OpenRouter

  datatype Keys = Keys(typesafe: Option<string>, openrouter: Option<string>) {
    function Get(n: Name): Option<string> {
      if n.Typesafe? then typesafe else openrouter
    }

    function Put(n: Name, v: Option<string>): Keys {
      if n.Typesafe? then Keys(v, openrouter) else Keys(typesafe, v)
    }
  }

  const NO_KEYS := Keys(None, None)

  function NameText(n: Name): string {
    if n.Typesafe? then TYPESAFE_KEY else OPENROUTER_KEY
  }

  // ---- Trimming and splitting ----------------------------------------------------------

  function TrimLeft(s: string, p: char -> bool): string {
    if s != "" && p(s[0]) then TrimLeft(s[1..], p) else s
  }

  function TrimRight(s: string, p: char -> bool): string {
    if s != "" && p(s[|s| - 1]) then TrimRight(s[..|s| - 1], p) else s
  }

  /** Python's strip. */
  function Trim(s: string, p: char -> bool): string {
    TrimRight(TrimLeft(s, p), p)
  }

  function IsDouble(c: char): bool { c == '"' }

  function IsSingle(c: char): bool { c == '\'' }

  function Unquoted(s: string): string {
    Trim(Trim(s, IsDouble), IsSingle)
  }

  /** The line boundaries of str.splitlines. */
  predicate IsBreak(c: char) {
    '\n' <= c <= '\r' || '\U{1C}' <= c <= '\U{1E}' || c in {'\U{85}', '\U{2028}', '\U{2029}'}
  }

  predicate Unbroken(s: string) {
    forall i :: 0 <= i < |s| ==> !IsBreak(s[i])
  }

  function FirstBreak(s: string): (i: nat)
    ensures i <= |s| && Unbroken(s[..i]) && (i < |s| ==> IsBreak(s[i]))
  {
    if s == "" || IsBreak(s[0]) then 0
    else
      assert s[..1 + FirstBreak(s[1..])] == [s[0]] + s[1..][..FirstBreak(s[1..])];
      1 + FirstBreak(s[1..])
  }

  /** Every boundary separates; blank lines beyond those of splitlines do not matter to the parser. */
  function Lines(s: string): seq<string> {
    var i := FirstBreak(s);
    if i == |s| then [s] else [s[..i]] + Lines(s[i + 1..])
  }

  // ---- Parsing ---------------------------------------------------------------------------

  /** A value as the file holds it; an empty one counts as absent. */
  function Present(v: string): Option<string> {
    if v == "" then None else Some(v)
  }

  function ParseNamed(n: Name, line: string, keys: Keys): Keys {
    var prefix := NameText(n) + "=";
    if prefix <= line then keys.Put(n, Present(Unquoted(Trim(line[|prefix|..], IsSpace)))) else keys
  }

  function ParseLine(raw: string, keys: Keys): Keys {
    var line := Trim(raw, IsSpace);
    if line == "" || line[0] == '#' then keys
    else ParseNamed(OpenRouter, line, ParseNamed(Typesafe, line, keys))
  }

  function ParseLines(lines: seq<string>, keys: Keys): Keys
    decreases |lines|
  {
    if lines == [] then keys else ParseLines(lines[1..], ParseLine(lines[0], keys))
  }

  function Parsed(text: string): Keys {
    ParseLines(Lines(text), NO_KEYS)
  }

  method ParseCredentialText(text: string) returns (keys: Keys)
    ensures keys == Parsed(text)
  {
    keys := NO_KEYS;
    var lines := Lines(text);
    for i := 0 to |lines|
      invariant ParseLines(lines[i..], keys) == Parsed(text)
    {
      assert lines[i..][1..] == lines[i + 1..];
      var line := Trim(lines[i], IsSpace);
      if line == "" || line[0] == '#' { continue; }
      if TYPESAFE_KEY + "=" <= line {
        keys := keys.Put(Typesafe, Present(Unquoted(Trim(line[|TYPESAFE_KEY + "="|..], IsSpace))));
      }
      if OPENROUTER_KEY + "=" <= line {
        keys := keys.Put(OpenRouter, Present(Unquoted(Trim(line[|OPENROUTER_KEY + "="|..], IsSpace))));
      }
    }
  }

  // ---- Printing and saving -------------------------------------------------------------------

  function Entry(n: Name, v: Option<string>): string {
    if v.None? || v.value == "" then "" else NameText(n) + "=\"" + v.value + "\"\n"
  }

  function Printed(keys: Keys): string {
    Entry(Typesafe, keys.typesafe) + Entry(OpenRouter, keys.openrouter)
  }

  /** The text that saving leaves, from the text of a file that is there, readable and private. */
  function Saved(existing: Option<string>, n: Name, key: string): string {
    Printed((if existing.None? then NO_KEYS else Parsed(existing.value)).Put(n, Some(key)))
  }

  datatype SaveError = EmptyKey | UnknownName

  class CredentialFile {
    var content: Option<string>

    constructor ()
      ensures content == None
    {
      content := None;
    }

    /** `trusted`: the file's permissions are private and it can be read; otherwise it is overwritten. */
    method SaveNamed(name: string, key: string, trusted: bool) returns (r: Result<(), SaveError>)
      modifies this
      ensures Blank(key) ==> r == Failure(EmptyKey) && content == old(content)
      ensures !Blank(key) && name != TYPESAFE_KEY && name != OPENROUTER_KEY ==>
                r == Failure(UnknownName) && content == old(content)
      ensures forall n: Name :: !Blank(key) && name == NameText(n) ==>
                r.Success? && content == Some(Saved(if trusted then old(content) else None, n, key))
    {
      NamesDiffer();
      if key == "" || Blank(key) { return Failure(EmptyKey); }
      if name != TYPESAFE_KEY && name != OPENROUTER_KEY { return Failure(UnknownName); }
      var keys := NO_KEYS;
      if content.Some? && trusted { keys := ParseCredentialText(content.value); }
      keys := keys.Put(if name == TYPESAFE_KEY then Typesafe else OpenRouter, Some(key));
      content := Some(Printed(keys));
      r := Success(());
    }
  }

  lemma NamesDiffer()
    ensures TYPESAFE_KEY != OPENROUTER_KEY
    ensures forall n: Name :: |NameText(n)| >= 2 && NameText(n)[0] == if n.Typesafe? then 'T' else 'O'
  {
    assert TYPESAFE_KEY[0] == 'T' && OPENROUTER_KEY[0] == 'O';
  }

  // ---- Trimming facts ----------------------------------------------------------------------------

  predicate EndsClear(s: string, p: char -> bool) {
    s != "" ==> !p(s[0]) && !p(s[|s| - 1])
  }

  lemma {:induction false} TrimLeftShortens(s: string, p: char -> bool)
    ensures |TrimLeft(s, p)| <= |s| && TrimLeft(s, p) == s[|s| - |TrimLeft(s, p)|..]
    ensures TrimLeft(s, p) == s <==> s == "" || !p(s[0])
  {
    if s != "" && p(s[0]) { TrimLeftShortens(s[1..], p); }
  }

  lemma {:induction false} TrimRightShortens(s: string, p: char -> bool)
    ensures |TrimRight(s, p)| <= |s| && TrimRight(s, p) == s[..|TrimRight(s, p)|]
    ensures TrimRight(s, p) == s <==> s == "" || !p(s[|s| - 1])
  {
    if s != "" && p(s[|s| - 1]) { TrimRightShortens(s[..|s| - 1], p); }
  }

  /** Trimming changes nothing exactly when neither end would be trimmed, and never adds a character. */
  lemma TrimIdentity(s: string, p: char -> bool)
    ensures Trim(s, p) == s <==> EndsClear(s, p)
    ensures |Trim(s, p)| <= |s|
    ensures Unbroken(s) ==> Unbroken(Trim(s, p))
  {
    TrimLeftShortens(s, p);
    TrimRightShortens(TrimLeft(s, p), p);
  }

  lemma {:induction false} TrimSameLength(s: string, p: char -> bool)
    requires |Trim(s, p)| == |s|
    ensures Trim(s, p) == s
  {
    TrimLeftShortens(s, p);
    TrimRightShortens(TrimLeft(s, p), p);
  }

  lemma {:induction false} TrimRightKeepsHead(s: string, p: char -> bool)
    requires s != "" && !p(s[0])
    ensures TrimRight(s, p) != "" && TrimRight(s, p)[0] == s[0]
  {
    if p(s[|s| - 1]) { TrimRightKeepsHead(s[..|s| - 1], p); }
  }

  lemma {:induction false} TrimLeftAll(s: string, p: char -> bool)
    ensures TrimLeft(s, p) == "" <==> forall i :: 0 <= i < |s| ==> p(s[i])
  {
    if s != "" && p(s[0]) {
      TrimLeftAll(s[1..], p);
      assert forall i :: 1 <= i < |s| ==> s[i] == s[1..][i - 1];
    }
  }

  lemma {:induction false} TrimLeftAppend(s: string, c: char, p: char -> bool)
    requires p(c)
    ensures TrimLeft(s + [c], p) == if TrimLeft(s, p) == "" then "" else TrimLeft(s, p) + [c]
  {
    if s == "" {
      assert s + [c] == [c] && [c][1..] == "";
    } else if p(s[0]) {
      assert (s + [c])[1..] == s[1..] + [c];
      TrimLeftAppend(s[1..], c, p);
    }
  }

  /** A trimmed character added at both ends makes no difference. */
  lemma TrimWrapped(s: string, c: char, p: char -> bool)
    requires p(c)
    ensures Trim([c] + s + [c], p) == Trim(s, p)
  {
    var t := [c] + s + [c];
    assert t[1..] == s + [c];
    TrimLeftAppend(s, c, p);
    if TrimLeft(s, p) != "" {
      var l := TrimLeft(s, p);
      assert (l + [c])[..|l|] == l;
    }
  }

  lemma {:induction false} TrimRightClears(s: string, p: char -> bool)
    ensures var t := TrimRight(s, p); t != "" ==> !p(t[|t| - 1]) && t[0] == s[0]
  {
    if s != "" && p(s[|s| - 1]) { TrimRightClears(s[..|s| - 1], p); }
  }

  lemma {:induction false} TrimLeftClears(s: string, p: char -> bool)
    ensures var t := TrimLeft(s, p); t != "" ==> !p(t[0])
  {
    if s != "" && p(s[0]) { TrimLeftClears(s[1..], p); }
  }

  lemma TrimClears(s: string, p: char -> bool)
    ensures EndsClear(Trim(s, p), p)
  {
    TrimLeftClears(s, p);
    TrimRightClears(TrimLeft(s, p), p);
  }

  /** Unquoting changes nothing exactly when neither end is a quote. */
  lemma UnquotedIdentity(v: string)
    ensures Unquoted(v) == v <==> EndsClear(v, IsDouble) && EndsClear(v, IsSingle)
  {
    TrimIdentity(v, IsDouble);
    TrimIdentity(Trim(v, IsDouble), IsSingle);
    if Unquoted(v) == v { TrimSameLength(v, IsDouble); }
  }

  // ---- Lines and what they mention ------------------------------------------------------------------

  lemma {:induction false} FirstBreakAt(a: string, b: string)
    requires Unbroken(a) && (b == "" || IsBreak(b[0]))
    ensures FirstBreak(a + b) == |a|
  {
    if a == "" {
      assert a + b == b;
    } else {
      assert (a + b)[0] == a[0] && (a + b)[1..] == a[1..] + b;
      FirstBreakAt(a[1..], b);
    }
  }

  lemma LinesSplit(line: string, c: char, rest: string)
    requires Unbroken(line) && IsBreak(c)
    ensures Lines(line + [c] + rest) == [line] + Lines(rest)
  {
    var s := line + [c] + rest;
    assert s == line + ([c] + rest);
    FirstBreakAt(line, [c] + rest);
    assert s[..|line|] == line && s[|line| + 1..] == rest;
  }

  lemma LinesOfUnbroken(s: string)
    requires Unbroken(s)
    ensures Lines(s) == [s]
  {
    FirstBreakAt(s, "");
    assert s + "" == s;
  }

  lemma BreakFound(s: string)
    requires !Unbroken(s)
    ensures FirstBreak(s) < |s|
  {
    assert s[..|s|] == s;
  }

  lemma Regroup(a: string, b: string, c: string, d: string, e: string)
    ensures (a + b + c) + d + e == a + b + (c + d + e)
  {
  }

  /** The first line of a broken text, the break and the rest. */
  lemma FirstLine(s: string) returns (line: string, c: char, rest: string)
    requires !Unbroken(s)
    ensures s == line + [c] + rest && Unbroken(line) && IsBreak(c) && |rest| < |s|
    ensures Lines(s) == [line] + Lines(rest)
  {
    var i := FirstBreak(s);
    BreakFound(s);
    line, c, rest := s[..i], s[i], s[i + 1..];
    assert s == line + [c] + rest;
    LinesSplit(line, c, rest);
  }

  lemma RegroupLines(a: seq<string>, b: seq<string>, c: seq<string>)
    ensures (a + b) + c == a + (b + c)
  {
  }

  lemma LinesAppendStep(line: string, d: char, more: string, c: char, rest: string)
    requires Unbroken(line) && IsBreak(d) && Lines(more + [c] + rest) == Lines(more) + Lines(rest)
    ensures Lines((line + [d] + more) + [c] + rest) == Lines(line + [d] + more) + Lines(rest)
  {
    Regroup(line, [d], more, [c], rest);
    LinesSplit(line, d, more + [c] + rest);
    LinesSplit(line, d, more);
    RegroupLines([line], Lines(more), Lines(rest));
  }

  /** A break after any text ends its last line. */
  lemma {:induction false} LinesAppend(a: string, c: char, rest: string)
    requires IsBreak(c)
    ensures Lines(a + [c] + rest) == Lines(a) + Lines(rest)
    decreases |a|
  {
    if Unbroken(a) {
      LinesOfUnbroken(a);
      LinesSplit(a, c, rest);
    } else {
      var line, d, more := FirstLine(a);
      LinesAppend(more, c, rest);
      LinesAppendStep(line, d, more, c, rest);
    }
  }

  /** Unbroken text in front lengthens the first line. */
  lemma LinesPrepend(front: string, s: string)
    requires Unbroken(front)
    ensures Lines(s) != [] && Lines(front + s) == [front + Lines(s)[0]] + Lines(s)[1..]
  {
    if Unbroken(s) {
      LinesOfUnbroken(s);
      LinesOfUnbroken(front + s);
    } else {
      var line, c, rest := FirstLine(s);
      assert front + s == (front + line) + [c] + rest;
      LinesSplit(front + line, c, rest);
    }
  }

  lemma LinesSome(s: string)
    ensures Lines(s) != []
  {
  }

  predicate Mentions(n: Name, raw: string) {
    var line := Trim(raw, IsSpace);
    line != "" && line[0] != '#' && NameText(n) + "=" <= line
  }

  /** What a line that mentions n says of it. */
  function Said(n: Name, raw: string): Option<string>
    requires Mentions(n, raw)
  {
    Present(Unquoted(Trim(Trim(raw, IsSpace)[|NameText(n) + "="|..], IsSpace)))
  }

  /** What the last line that mentions n says of it. */
  function LastSaid(n: Name, lines: seq<string>): Option<Option<string>> {
    if lines == [] then None
    else if LastSaid(n, lines[1..]).Some? then LastSaid(n, lines[1..])
    else if Mentions(n, lines[0]) then Some(Said(n, lines[0]))
    else None
  }

  lemma LineSets(n: Name, raw: string, keys: Keys)
    ensures ParseLine(raw, keys).Get(n) == if Mentions(n, raw) then Said(n, raw) else keys.Get(n)
  {
  }

  /** The parser gives each name what its last line says. */
  lemma {:induction false} ParsedIsLastSaid(n: Name, lines: seq<string>, keys: Keys)
    ensures ParseLines(lines, keys).Get(n) ==
            if LastSaid(n, lines).Some? then LastSaid(n, lines).value else keys.Get(n)
    decreases |lines|
  {
    if lines != [] {
      LineSets(n, lines[0], keys);
      ParsedIsLastSaid(n, lines[1..], ParseLine(lines[0], keys));
    }
  }

  lemma {:induction false} LastSaidAppend(n: Name, a: seq<string>, b: seq<string>)
    ensures LastSaid(n, a + b) == if LastSaid(n, b).Some? then LastSaid(n, b) else LastSaid(n, a)
  {
    if a == [] {
      assert a + b == b;
    } else {
      LastSaidAppend(n, a[1..], b);
      assert (a + b)[1..] == a[1..] + b;
    }
  }

  // ---- Reading back what was printed --------------------------------------------------------------

  function EntryLine(n: Name, v: string): string {
    NameText(n) + "=" + (['"'] + v + ['"'])
  }

  lemma NameUnbroken(name: string)
    requires forall c | c in name :: 'A' <= c <= '_'
    ensures Unbroken(name + "=")
  {
    forall i | 0 <= i < |name + "="|
      ensures !IsBreak((name + "=")[i])
    {
      if i < |name| {
        assert name[i] in name;
      } else {
        assert (name + "=")[i] == '=';
      }
    }
  }

  lemma NamesUnbroken(n: Name)
    ensures Unbroken(NameText(n) + "=") && !IsSpace(NameText(n)[0]) && NameText(n)[0] != '#'
  {
    NamesDiffer();
    if n.Typesafe? {
      assert forall c | c in TYPESAFE_KEY :: 'A' <= c <= '_';
    } else {
      assert forall c | c in OPENROUTER_KEY :: 'A' <= c <= '_';
    }
    NameUnbroken(NameText(n));
  }

  /** A line that begins with one name mentions no other. */
  lemma BeginsWithName(n: Name, other: Name, line: string)
    requires other != n && NameText(n) + "=" <= line
    ensures !Mentions(other, line)
  {
    NamesDiffer();
    NamesUnbroken(n);
    assert line[0] == (NameText(n) + "=")[0] == NameText(n)[0];
    TrimLeftShortens(line, IsSpace);
    TrimRightKeepsHead(line, IsSpace);
    assert (NameText(other) + "=")[0] == NameText(other)[0];
  }

  /** An entry line says of its name the unquoted value. */
  lemma EntrySays(n: Name, v: string)
    ensures Mentions(n, EntryLine(n, v)) && Said(n, EntryLine(n, v)) == Present(Unquoted(v))
  {
    var line, quoted := EntryLine(n, v), ['"'] + v + ['"'];
    NamesDiffer();
    NamesUnbroken(n);
    assert line[0] == NameText(n)[0] && line[|line| - 1] == '"' && !IsSpace('"');
    TrimIdentity(line, IsSpace);
    var prefix := NameText(n) + "=";
    assert line[..|prefix|] == prefix && line[|prefix|..] == quoted;
    TrimIdentity(quoted, IsSpace);
    TrimWrapped(v, '"', IsDouble);
  }

  function EntryLines(n: Name, v: Option<string>): seq<string> {
    if v.None? || v.value == "" then [] else Lines(EntryLine(n, v.value))
  }

  /** The lines that a key with breaks in it adds to the file, after the one that its entry begins with. */
  function Strays(key: string): (lines: seq<string>)
    ensures Unbroken(key) ==> lines == []
  {
    var lines := Lines(key + ['"']);
    assert lines != [] && (Unbroken(key) ==> |lines| == 1) by {
      LinesSome(key + ['"']);
      if Unbroken(key) { LinesOfUnbroken(key + ['"']); }
    }
    lines[1..]
  }

  lemma EntryOpens(n: Name, key: string)
    ensures |Lines(EntryLine(n, key))| > 0 && NameText(n) + "=" <= Lines(EntryLine(n, key))[0]
    ensures Lines(EntryLine(n, key))[1..] == Strays(key)
  {
    var front, s := NameText(n) + "=" + ['"'], key + ['"'];
    NamesUnbroken(n);
    assert EntryLine(n, key) == front + s;
    assert Unbroken(front);
    LinesPrepend(front, s);
    assert (front + Lines(s)[0])[..|NameText(n) + "="|] == NameText(n) + "=";
  }

  lemma OwnSaid(n: Name, v: Option<string>)
    requires v.Some? && v.value != "" && Unbroken(v.value)
    ensures LastSaid(n, EntryLines(n, v)) == Some(Present(Unquoted(v.value)))
  {
    var line := EntryLine(n, v.value);
    NamesUnbroken(n);
    assert Unbroken(line);
    LinesOfUnbroken(line);
    EntrySays(n, v.value);
    assert [line][1..] == [];
  }

  /** Of another name an entry says what its stray lines do. */
  lemma OtherSaid(n: Name, other: Name, v: Option<string>)
    requires other != n && v.Some? && v.value != ""
    ensures LastSaid(other, EntryLines(n, v)) == LastSaid(other, Strays(v.value))
  {
    EntryOpens(n, v.value);
    BeginsWithName(n, other, EntryLines(n, v)[0]);
  }

  lemma EntryThen(n: Name, v: Option<string>, rest: string)
    ensures Lines(Entry(n, v) + rest) == EntryLines(n, v) + Lines(rest)
  {
    if v.None? || v.value == "" {
      assert Entry(n, v) + rest == rest;
    } else {
      EntryIsLine(n, v.value);
      LinesAppend(EntryLine(n, v.value), '\n', rest);
    }
  }

  lemma EntryIsLine(n: Name, v: string)
    requires v != ""
    ensures Entry(n, Some(v)) == EntryLine(n, v) + ['\n']
  {
    assert "=\"" == "=" + ['"'] && "\"\n" == ['"'] + ['\n'];
  }

  lemma NothingSaid(n: Name)
    ensures LastSaid(n, Lines("")) == None
  {
    LinesOfUnbroken("");
    assert [""][1..] == [];
    TrimIdentity("", IsSpace);
  }

  /** What is read of n after printing: the last of what the two entries say. */
  lemma PrintedSays(n: Name, keys: Keys)
    ensures
      var first, second := LastSaid(n, EntryLines(Typesafe, keys.typesafe)),
                           LastSaid(n, EntryLines(OpenRouter, keys.openrouter));
      Parsed(Printed(keys)).Get(n) ==
      if second.Some? then second.value else if first.Some? then first.value else None
  {
    var t, o := EntryLines(Typesafe, keys.typesafe), EntryLines(OpenRouter, keys.openrouter);
    var second := Entry(OpenRouter, keys.openrouter);
    EntryThen(Typesafe, keys.typesafe, second);
    EntryThen(OpenRouter, keys.openrouter, "");
    assert second + "" == second;
    NothingSaid(n);
    LastSaidAppend(n, o, Lines(""));
    LastSaidAppend(n, t, o + Lines(""));
    ParsedIsLastSaid(n, Lines(Printed(keys)), NO_KEYS);
  }

  // ---- What the parser can return ------------------------------------------------------------------------

  /** A parsed value is one unbroken, nonempty line without a single quote at either end. */
  predicate Plausible(v: Option<string>) {
    v.Some? ==> v.value != "" && Unbroken(v.value) && EndsClear(v.value, IsSingle)
  }

  predicate PlausibleKeys(keys: Keys) {
    Plausible(keys.typesafe) && Plausible(keys.openrouter)
  }

  lemma {:induction false} LinesUnbroken(s: string)
    ensures forall l | l in Lines(s) :: Unbroken(l)
  {
    var i := FirstBreak(s);
    if i < |s| {
      LinesUnbroken(s[i + 1..]);
    } else {
      assert s[..i] == s;
    }
  }

  lemma NamedPlausible(n: Name, line: string, keys: Keys)
    requires Unbroken(line) && PlausibleKeys(keys)
    ensures PlausibleKeys(ParseNamed(n, line, keys))
  {
    var prefix := NameText(n) + "=";
    if prefix <= line {
      var value := Trim(line[|prefix|..], IsSpace);
      TrimIdentity(line[|prefix|..], IsSpace);
      TrimIdentity(value, IsDouble);
      TrimIdentity(Trim(value, IsDouble), IsSingle);
      TrimClears(Trim(value, IsDouble), IsSingle);
    }
  }

  lemma {:induction false} LinesPlausible(lines: seq<string>, keys: Keys)
    requires PlausibleKeys(keys) && forall l | l in lines :: Unbroken(l)
    ensures PlausibleKeys(ParseLines(lines, keys))
    decreases |lines|
  {
    if lines != [] {
      var line := Trim(lines[0], IsSpace);
      assert lines[0] in lines && forall l | l in lines[1..] :: l in lines;
      TrimIdentity(lines[0], IsSpace);
      NamedPlausible(Typesafe, line, keys);
      NamedPlausible(OpenRouter, line, ParseNamed(Typesafe, line, keys));
      LinesPlausible(lines[1..], ParseLine(lines[0], keys));
    }
  }

  lemma ParsedPlausible(text: string)
    ensures PlausibleKeys(Parsed(text))
  {
    LinesUnbroken(text);
    LinesPlausible(Lines(text), NO_KEYS);
  }

  // ---- Theorems --------------------------------------------------------------------------------------------

  /** Free of line breaks and of quotes at either end. */
  predicate Clean(key: string) {
    Unbroken(key) && EndsClear(key, IsDouble) && EndsClear(key, IsSingle)
  }

  /** What the file says of a name before a save. */
  function Before(existing: Option<string>, n: Name): Option<string> {
    if existing.None? then None else Parsed(existing.value).Get(n)
  }

  lemma BeforePlausible(existing: Option<string>, n: Name)
    ensures Plausible(Before(existing, n))
  {
    if existing.Some? { ParsedPlausible(existing.value); }
  }

  /** A key without breaks is read back unquoted. */
  lemma SavedReads(existing: Option<string>, n: Name, key: string)
    requires !Blank(key) && Unbroken(key)
    ensures Parsed(Saved(existing, n, key)).Get(n) == Present(Unquoted(key))
  {
    var other := if n.Typesafe? then OpenRouter else Typesafe;
    var v := Before(existing, other);
    BeforePlausible(existing, other);
    OwnSaid(n, Some(key));
    if v.Some? { OtherSaid(other, n, v); }
    PrintedSays(n, (if existing.None? then NO_KEYS else Parsed(existing.value)).Put(n, Some(key)));
  }

  /** A saved key is read back byte for byte if and only if it is clean, whatever the file held. */
  lemma SavedReadsBack(existing: Option<string>, n: Name, key: string)
    requires !Blank(key)
    ensures Parsed(Saved(existing, n, key)).Get(n) == Some(key) <==> Clean(key)
  {
    ParsedPlausible(Saved(existing, n, key));
    if Unbroken(key) {
      SavedReads(existing, n, key);
      UnquotedIdentity(key);
    }
  }

  /** Lines that the key itself adds speak of the other name, and no line of its own comes after them. */
  predicate Overridden(other: Name, before: Option<string>, key: string) {
    LastSaid(other, Strays(key)).Some? && (other.Typesafe? || before.None?)
  }

  /** What a save makes of the other name. */
  lemma SavedOther(existing: Option<string>, n: Name, other: Name, key: string)
    requires !Blank(key) && other != n
    ensures
      var before := Before(existing, other);
      Parsed(Saved(existing, n, key)).Get(other) ==
      if Overridden(other, before, key) then LastSaid(other, Strays(key)).value
      else if before.None? then None
      else Present(Unquoted(before.value))
  {
    var before := Before(existing, other);
    BeforePlausible(existing, other);
    OtherSaid(n, other, Some(key));
    if before.Some? { OwnSaid(other, before); }
    PrintedSays(other, (if existing.None? then NO_KEYS else Parsed(existing.value)).Put(n, Some(key)));
  }

  /**
   Saving one key leaves the other as it was read if and only if that has no double quote at an
   end; or, where line breaks in the key put in lines that override it, if they say the same.
   */
  lemma SavedKeepsOther(existing: Option<string>, n: Name, other: Name, key: string)
    requires !Blank(key) && other != n
    ensures
      var before := Before(existing, other);
      Parsed(Saved(existing, n, key)).Get(other) == before <==>
      if Overridden(other, before, key) then LastSaid(other, Strays(key)).value == before
      else before.Some? ==> EndsClear(before.value, IsDouble)
  {
    var before := Before(existing, other);
    BeforePlausible(existing, other);
    SavedOther(existing, n, other, key);
    if before.Some? { UnquotedIdentity(before.value); }
  }

  /** A key that begins with a double quote is not read back. */
  lemma QuotedKeyIsLost(existing: Option<string>, n: Name)
    ensures Parsed(Saved(existing, n, "\"k")).Get(n) != Some("\"k")
  {
    var key := "\"k";
    assert key[0] == '"' && !IsSpace('"');
    SavedReadsBack(existing, n, key);
  }

  /** Two saves: the first key reads as "x" with its double quotes, until the second save takes them off. */
  lemma OtherKeyChanges(existing: Option<string>, n: Name, other: Name)
    requires other != n
    ensures
      var once := Saved(existing, n, "'\"x\"'");
      && Parsed(once).Get(n) == Some("\"x\"")
      && Parsed(Saved(Some(once), other, "y")).Get(n) == Some("x")
  {
    var key := "'\"x\"'";
    UnquotedSamples();
    assert key[0] == '\'' && "y"[0] == 'y';
    SavedReads(existing, n, key);
    SavedOther(Some(Saved(existing, n, key)), other, n, "y");
  }

  lemma UnquotedSamples()
    ensures Unquoted("'\"x\"'") == "\"x\"" && Unquoted("\"x\"") == "x"
  {
    var key, inner := "'\"x\"'", "\"x\"";
    assert key == ['\''] + inner + ['\''] && inner == ['"'] + "x" + ['"'];
    TrimIdentity(key, IsDouble);
    TrimWrapped(inner, '\'', IsSingle);
    TrimIdentity(inner, IsSingle);
    TrimWrapped("x", '"', IsDouble);
    TrimIdentity("x", IsDouble);
    TrimIdentity("x", IsSingle);
  }

  /** The file after saving these keys in order. */
  function SaveAll(saves: seq<(Name, string)>): Option<string> {
    if saves == [] then None
    else
      var (n, key) := saves[|saves| - 1];
      Some(Saved(SaveAll(saves[..|saves| - 1]), n, key))
  }

  function LastSaved(saves: seq<(Name, string)>, n: Name): Option<string> {
    if saves == [] then None
    else if saves[|saves| - 1].0 == n then Some(saves[|saves| - 1].1)
    else LastSaved(saves[..|saves| - 1], n)
  }

  predicate CleanSave(s: (Name, string)) {
    !Blank(s.1) && Clean(s.1)
  }

  /**
   The credential file is a map: after any sequence of saves of clean keys, each name is read
   back as its last saved key, byte for byte, and a name never saved is absent.
   */
  lemma {:induction false} FileIsMap(saves: seq<(Name, string)>, n: Name)
    requires forall s | s in saves :: CleanSave(s)
    ensures Before(SaveAll(saves), n) == LastSaved(saves, n)
    ensures LastSaved(saves, n).Some? ==> Clean(LastSaved(saves, n).value)
    decreases |saves|
  {
    if saves != [] {
      var init, last := saves[..|saves| - 1], saves[|saves| - 1];
      assert CleanSave(last) by { assert last in saves; }
      FileIsMap(init, n);
      if last.0 == n {
        SavedReadsBack(SaveAll(init), n, last.1);
      } else {
        SavedKeepsOther(SaveAll(init), last.0, n, last.1);
      }
    }
  }

  // ---- The format itself -------------------------------------------------------------------------------------

  /** What is in the file after each name has been saved, in whatever order. */
  lemma FileText(typesafe: string, openrouter: string)
    requires !Blank(typesafe) && Clean(typesafe) && !Blank(openrouter) && Clean(openrouter)
    ensures
      var file := "TYPESAFE_API_KEY=\"" + typesafe + "\"\n" + ("OPENROUTER_API_KEY=\"" + openrouter + "\"\n");
      && Saved(Some(Saved(None, Typesafe, typesafe)), OpenRouter, openrouter) == file
      && Saved(Some(Saved(None, OpenRouter, openrouter)), Typesafe, typesafe) == file
  {
    SavedReadsBack(None, Typesafe, typesafe);
    SavedReadsBack(None, OpenRouter, openrouter);
    SavedKeepsOther(None, Typesafe, OpenRouter, typesafe);
    SavedKeepsOther(None, OpenRouter, Typesafe, openrouter);
    NothingOverrides(OpenRouter, typesafe);
    NothingOverrides(Typesafe, openrouter);
    EntryText(typesafe, openrouter);
  }

  lemma NothingOverrides(other: Name, key: string)
    requires Unbroken(key)
    ensures LastSaid(other, Strays(key)) == None
  {
  }

  lemma EntryText(typesafe: string, openrouter: string)
    requires typesafe != "" && openrouter != ""
    ensures
      Printed(Keys(Some(typesafe), Some(openrouter))) ==
      "TYPESAFE_API_KEY=\"" + typesafe + "\"\n" + ("OPENROUTER_API_KEY=\"" + openrouter + "\"\n")
  {
    assert TYPESAFE_KEY + "=\"" == "TYPESAFE_API_KEY=\"" && OPENROUTER_KEY + "=\"" == "OPENROUTER_API_KEY=\"";
  }

  /** Without its spaces this line is a name, an equals sign and the bare key. */
  predicate BareLine(raw: string, n: Name, key: string) {
    Unbroken(raw) && Trim(raw, IsSpace) == NameText(n) + "=" + key
  }

  lemma BareLineSays(raw: string, n: Name, key: string)
    requires BareLine(raw, n, key) && key != "" && Clean(key) && EndsClear(key, IsSpace)
    ensures Mentions(n, raw) && Said(n, raw) == Some(key)
  {
    var line, prefix := Trim(raw, IsSpace), NameText(n) + "=";
    NamesUnbroken(n);
    assert line[..|prefix|] == prefix && line[|prefix|..] == key && line[0] == NameText(n)[0];
    TrimIdentity(key, IsSpace);
    UnquotedIdentity(key);
  }

  lemma BareLineOther(raw: string, n: Name, other: Name, key: string)
    requires BareLine(raw, n, key) && other != n
    ensures !Mentions(other, raw)
  {
    var line := Trim(raw, IsSpace);
    NamesDiffer();
    assert line[0] == NameText(n)[0];
    assert (NameText(other) + "=")[0] == NameText(other)[0];
  }

  lemma BareLineReads(raw: string, n: Name, key: string)
    requires BareLine(raw, n, key) && key != "" && Clean(key) && EndsClear(key, IsSpace)
    ensures Parsed(raw) == NO_KEYS.Put(n, Some(key))
  {
    var other := if n.Typesafe? then OpenRouter else Typesafe;
    LinesOfUnbroken(raw);
    BareLineSays(raw, n, key);
    BareLineOther(raw, n, other, key);
    assert [raw][1..] == [];
    ParsedIsLastSaid(n, [raw], NO_KEYS);
    ParsedIsLastSaid(other, [raw], NO_KEYS);
  }

  /** A line that somebody wrote without quotes, with or without spaces around it, is read as it stands. */
  lemma PlainLineReads(n: Name, key: string)
    requires key != "" && Clean(key) && EndsClear(key, IsSpace)
    ensures
      var line := (if n.Typesafe? then "TYPESAFE_API_KEY" else "OPENROUTER_API_KEY") + "=" + key;
      && Parsed(line) == NO_KEYS.Put(n, Some(key))
      && Parsed([' '] + line + [' ']) == NO_KEYS.Put(n, Some(key))
  {
    var line := NameText(n) + "=" + key;
    NamesUnbroken(n);
    assert line[0] == NameText(n)[0] && line[|line| - 1] == key[|key| - 1];
    assert Unbroken(line) && Unbroken([' '] + line + [' ']) by { assert !IsBreak(' '); }
    TrimIdentity(line, IsSpace);
    TrimWrapped(line, ' ', IsSpace);
    BareLineReads(line, n, key);
    BareLineReads([' '] + line + [' '], n, key);
  }

  /** A comment says nothing. */
  lemma CommentSaysNothing(text: string)
    requires Unbroken(text)
    ensures Parsed("#" + text) == NO_KEYS
  {
    var raw := "#" + text;
    assert raw[0] == '#' && !IsBreak('#') && !IsSpace('#');
    LinesOfUnbroken(raw);
    TrimRightKeepsHead(raw, IsSpace);
    assert TrimLeft(raw, IsSpace) == raw;
    assert [raw][1..] == [];
    ParsedIsLastSaid(Typesafe, [raw], NO_KEYS);
    ParsedIsLastSaid(OpenRouter, [raw], NO_KEYS);
  }

  /** Of two lines that name the same key the later one counts. */
  lemma LaterLinesWin(n: Name, first: string, then_: string)
    ensures
      Parsed(first + ['\n'] + then_).Get(n) ==
      if LastSaid(n, Lines(then_)).Some? then Parsed(then_).Get(n) else Parsed(first).Get(n)
  {
    LinesAppend(first, '\n', then_);
    LastSaidAppend(n, Lines(first), Lines(then_));
    ParsedIsLastSaid(n, Lines(first + ['\n'] + then_), NO_KEYS);
    ParsedIsLastSaid(n, Lines(first), NO_KEYS);
    ParsedIsLastSaid(n, Lines(then_), NO_KEYS);
  }
}
