/**
 Resolving secret references in a nested declaration (server/cli.py).

 A declaration is a tree of dictionaries.  A key `<field>_from_env`, `<field>_from_file` or
 `<field>_from_stdin` stands for the secret field it names.  Standard input is the sequence of lines
 not read yet; environment and readable restricted files are maps.
 */
module DeclarationSecrets {
  import opened Common

  // Numbers, null and lists are `Other`: the resolver never looks inside them.
  datatype Value = Text(s: string) | Flag(b: bool) | Other(id: int) | Dict(entries: seq<Entry>)
  datatype Entry = Entry(key: string, value: Value)

  datatype Kind = Env | File | StdIn

  datatype Context = Context(secret: set<string>, env: map<string, string>, files: map<string, string>)

  type Lines = seq<string>
  type Walked = Result<(seq<Entry>, Lines), string>

  // ----- dictionaries -----

  function Get(entries: seq<Entry>, key: string): Option<Value> {
    if entries == [] then None
    else if entries[0].key == key then Some(entries[0].value)
    else Get(entries[1..], key)
  }

  function Put(entries: seq<Entry>, key: string, value: Value): seq<Entry> {
    if entries == [] then [Entry(key, value)]
    else if entries[0].key == key then [Entry(key, value)] + entries[1..]
    else [entries[0]] + Put(entries[1..], key, value)
  }

  predicate DistinctKeys(entries: seq<Entry>) {
    forall i, j :: 0 <= i < j < |entries| ==> entries[i].key != entries[j].key
  }

  // Every dictionary of the tree has each key once.
  predicate IsTree(entries: seq<Entry>) {
    && DistinctKeys(entries)
    && forall i :: 0 <= i < |entries| ==> entries[i].value.Dict? ==> IsTree(entries[i].value.entries)
  }

  // The dictionary reached by following keys.
  function Section(entries: seq<Entry>, path: seq<string>): Option<seq<Entry>>
    decreases |path|
  {
    if path == [] then Some(entries)
    else
      match Get(entries, path[0])
      case Some(Dict(inner)) => Section(inner, path[1..])
      case _ => None
  }

  function Dotted(prefix: string, field: string): string {
    if prefix == "" then field else prefix + "." + field
  }

  function PrefixOf(prefix: string, path: seq<string>): string
    decreases |path|
  {
    if path == [] then prefix else PrefixOf(Dotted(prefix, path[0]), path[1..])
  }

  // The fields of a path, each after a dot.
  function Dots(path: seq<string>): string {
    if path == [] then "" else "." + path[0] + Dots(path[1..])
  }

  // The name of a nested field is the names on the way to it, joined by dots.
  lemma {:induction false} PrefixIsDotted(prefix: string, path: seq<string>)
    requires prefix != ""
    ensures PrefixOf(prefix, path) == prefix + Dots(path)
    ensures PrefixOf("", [prefix] + path) == prefix + Dots(path)
    decreases |path|
  {
    assert ([prefix] + path)[1..] == path;
    if path != [] {
      PrefixIsDotted(Dotted(prefix, path[0]), path[1..]);
      assert prefix + "." + path[0] + Dots(path[1..]) == prefix + ("." + path[0] + Dots(path[1..]));
    } else {
      assert prefix + Dots(path) == prefix;
    }
  }

  // ----- reference keys -----

  function Suffix(kind: Kind): string {
    match kind
    case Env => "_from_env"
    case File => "_from_file"
    case StdIn => "_from_stdin"
  }

  predicate EndsWith(key: string, suffix: string) {
    |suffix| <= |key| && key[|key| - |suffix|..] == suffix
  }

  function KindOf(key: string): Option<Kind> {
    if EndsWith(key, Suffix(Env)) then Some(Env)
    else if EndsWith(key, Suffix(File)) then Some(File)
    else if EndsWith(key, Suffix(StdIn)) then Some(StdIn)
    else None
  }

  function FieldOf(key: string, kind: Kind): string
    requires EndsWith(key, Suffix(kind))
  {
    key[..|key| - |Suffix(kind)|]
  }

  lemma EndsDiffer(key: string, a: Kind, b: Kind)
    requires EndsWith(key, Suffix(a)) && EndsWith(key, Suffix(b))
    ensures a == b
  {
    assert key[|key| - 1] == Suffix(a)[|Suffix(a)| - 1];
    assert key[|key| - 1] == Suffix(b)[|Suffix(b)| - 1];
  }

  lemma ReferenceKey(field: string, kind: Kind)
    ensures KindOf(field + Suffix(kind)) == Some(kind)
    ensures FieldOf(field + Suffix(kind), kind) == field
  {
    var key := field + Suffix(kind);
    assert EndsWith(key, Suffix(kind));
    forall other | EndsWith(key, Suffix(other))
      ensures other == kind
    {
      EndsDiffer(key, kind, other);
    }
  }

  lemma SplitKey(key: string)
    requires KindOf(key).Some?
    ensures key == FieldOf(key, KindOf(key).value) + Suffix(KindOf(key).value)
  {
  }

  // The field a reference key stands for.
  function Named(key: string): Option<string> {
    if KindOf(key).None? then None else Some(FieldOf(key, KindOf(key).value))
  }

  // A reference key counts only when the field it stands for is secret here.
  function Candidate(c: Context, prefix: string, key: string): Option<string> {
    var field := Named(key);
    if field.Some? && Dotted(prefix, field.value) in c.secret then field else None
  }

  function AddOnce(fields: seq<string>, field: Option<string>): seq<string> {
    if field.Some? && field.value !in fields then fields + [field.value] else fields
  }

  // The fields a dictionary declares by reference, in the order of its keys.
  function Declared(c: Context, entries: seq<Entry>, prefix: string): seq<string> {
    if entries == [] then []
    else AddOnce(Declared(c, entries[..|entries| - 1], prefix), Candidate(c, prefix, entries[|entries| - 1].key))
  }

  predicate IsReferenceKey(declared: seq<string>, key: string) {
    exists field, kind :: field in declared && key == field + Suffix(kind)
  }

  // ----- what a reference yields -----

  function RightStrip(s: string): string {
    if s != "" && (s[|s| - 1] == '\r' || s[|s| - 1] == '\n') then RightStrip(s[..|s| - 1]) else s
  }

  predicate IsLineBreak(c: char) {
    c == '\r' || c == '\n'
  }

  /** What a file or a line of input is cut to: its longest prefix that does not end in a line break. */
  lemma {:induction false} RightStripMeaning(s: string)
    ensures var r := RightStrip(s);
            && r <= s
            && (r != "" ==> !IsLineBreak(r[|r| - 1]))
            && (forall k :: |r| <= k < |s| ==> IsLineBreak(s[k]))
  {
    if s != "" && IsLineBreak(s[|s| - 1]) {
      RightStripMeaning(s[..|s| - 1]);
      assert forall k :: 0 <= k < |s| - 1 ==> s[..|s| - 1][k] == s[k];
    }
  }

  function NextLine(stdin: Lines): string {
    if stdin == [] then "" else stdin[0]
  }

  function Drop(stdin: Lines, n: nat): Lines {
    if n <= |stdin| then stdin[n..] else []
  }

  function Line(stdin: Lines, n: nat): string {
    if n < |stdin| then stdin[n] else ""
  }

  function Selected(config: seq<Entry>, field: string): seq<Kind> {
    (if Get(config, field + Suffix(Env)).Some? then [Env] else [])
    + (if Get(config, field + Suffix(File)).Some? then [File] else [])
    + (if Get(config, field + Suffix(StdIn)).Some? then [StdIn] else [])
  }

  function ReadFrom(c: Context, kind: Kind, reference: Value, stdin: Lines): Result<(string, Lines), string> {
    match kind
    case Env =>
      if !reference.Text? || reference.s == "" then Err("must name a variable")
      else if reference.s !in c.env then Err("environment variable is not set")
      else Ok((c.env[reference.s], stdin))
    case File =>
      if !reference.Text? then Err("must be a path")
      else if reference.s !in c.files then Err("file is not readable")
      else Ok((RightStrip(c.files[reference.s]), stdin))
    case StdIn =>
      if reference != Flag(true) then Err("must be true")
      else Ok((RightStrip(NextLine(stdin)), Drop(stdin, 1)))
  }

  function ReadReference(c: Context, field: string, config: seq<Entry>, stdin: Lines)
    : Result<(Option<string>, Lines), string>
  {
    var selected := Selected(config, field);
    if |selected| > 1 then Err("must use exactly one secret source")
    else if selected == [] then Ok((None, stdin))
    else
      match ReadFrom(c, selected[0], Get(config, field + Suffix(selected[0])).value, stdin)
      case Ok((secret, left)) => Ok((Some(secret), left))
      case Err(e) => Err(e)
  }

  // ----- the walk -----

  function WalkSection(c: Context, entries: seq<Entry>, prefix: string, stdin: Lines): Walked
    decreases entries, 1
  {
    var declared := Declared(c, entries, prefix);
    match WalkEntries(c, entries, declared, prefix, stdin)
    case Err(e) => Err(e)
    case Ok((kept, left)) =>
      match ReadAll(c, declared, entries, left)
      case Err(e) => Err(e)
      case Ok((secrets, rest)) => Ok((kept + secrets, rest))
  }

  // The entries that are not references, nested sections resolved.
  function WalkEntries(c: Context, entries: seq<Entry>, declared: seq<string>, prefix: string, stdin: Lines): Walked
    decreases entries, 0
  {
    if entries == [] then Ok(([], stdin))
    else
      var e := entries[0];
      if IsReferenceKey(declared, e.key) then WalkEntries(c, entries[1..], declared, prefix, stdin)
      else if Dotted(prefix, e.key) in c.secret then Err("plaintext secret field is forbidden")
      else if e.value.Dict? then
        match WalkSection(c, e.value.entries, Dotted(prefix, e.key), stdin)
        case Err(x) => Err(x)
        case Ok((inner, left)) => Prepend(Entry(e.key, Dict(inner)), WalkEntries(c, entries[1..], declared, prefix, left))
      else Prepend(e, WalkEntries(c, entries[1..], declared, prefix, stdin))
  }

  function Prepend(e: Entry, w: Walked): Walked {
    match w
    case Ok((out, rest)) => Ok(([e] + out, rest))
    case Err(x) => Err(x)
  }

  function ReadAll(c: Context, fields: seq<string>, config: seq<Entry>, stdin: Lines): Walked {
    if fields == [] then Ok(([], stdin))
    else
      match ReadReference(c, fields[0], config, stdin)
      case Err(e) => Err(e)
      case Ok((None, left)) =>
        if Get(config, fields[0]).Some? then Err("plaintext secret field is forbidden")
        else ReadAll(c, fields[1..], config, left)
      case Ok((Some(secret), left)) => Prepend(Entry(fields[0], Text(secret)), ReadAll(c, fields[1..], config, left))
  }

  // ----- facts about dictionaries -----

  lemma {:induction false} GetAppend(a: seq<Entry>, b: seq<Entry>, key: string)
    ensures Get(a + b, key) == if Get(a, key).Some? then Get(a, key) else Get(b, key)
  {
    if a == [] {
      assert a + b == b;
    } else {
      GetAppend(a[1..], b, key);
      assert (a + b)[1..] == a[1..] + b;
    }
  }

  lemma {:induction false} GetIndex(entries: seq<Entry>, key: string)
    ensures Get(entries, key).Some? <==> exists i :: 0 <= i < |entries| && entries[i].key == key
    ensures Get(entries, key).Some? ==> exists i :: 0 <= i < |entries| && entries[i] == Entry(key, Get(entries, key).value)
  {
    if entries != [] {
      GetIndex(entries[1..], key);
      forall i | 0 < i < |entries|
        ensures entries[1..][i - 1] == entries[i]
      {
      }
      if entries[0].key == key {
        assert entries[0] == Entry(key, Get(entries, key).value);
      } else if Get(entries, key).Some? {
        var i :| 0 <= i < |entries[1..]| && entries[1..][i] == Entry(key, Get(entries, key).value);
        assert entries[i + 1] == entries[1..][i];
      }
    }
  }

  lemma {:induction false} GetAt(entries: seq<Entry>, i: nat)
    requires DistinctKeys(entries) && i < |entries|
    ensures Get(entries, entries[i].key) == Some(entries[i].value)
  {
    if i > 0 {
      GetAt(entries[1..], i - 1);
    }
  }

  lemma {:induction false} PutFresh(entries: seq<Entry>, key: string, value: Value)
    requires Get(entries, key).None?
    ensures Put(entries, key, value) == entries + [Entry(key, value)]
  {
    if entries != [] {
      PutFresh(entries[1..], key, value);
      assert entries == [entries[0]] + entries[1..];
    }
  }

  // No key is both among the entries kept and among those still to come.
  ghost predicate FreshKeys(kept: seq<Entry>, coming: seq<Entry>) {
    forall i :: 0 <= i < |coming| ==> Get(kept, coming[i].key).None?
  }

  lemma FreshTail(kept: seq<Entry>, value: seq<Entry>, n: nat)
    requires DistinctKeys(value) && n < |value| && FreshKeys(kept, value[n..])
    ensures Get(kept, value[n].key).None?
    ensures FreshKeys(kept, value[n + 1..])
    ensures forall item :: FreshKeys(kept + [Entry(value[n].key, item)], value[n + 1..])
  {
    assert value[n..][0] == value[n];
    var coming := value[n + 1..];
    forall i | 0 <= i < |coming|
      ensures Get(kept, coming[i].key).None?
      ensures forall item :: Get(kept + [Entry(value[n].key, item)], coming[i].key).None?
    {
      assert value[n..][i + 1] == coming[i] && coming[i] == value[n + 1 + i];
      forall item
        ensures Get(kept + [Entry(value[n].key, item)], coming[i].key).None?
      {
        GetAppend(kept, [Entry(value[n].key, item)], coming[i].key);
      }
    }
  }

  function PrependAll(kept: seq<Entry>, w: Walked): Walked {
    match w
    case Ok((out, rest)) => Ok((kept + out, rest))
    case Err(x) => Err(x)
  }

  lemma PrependNone(w: Walked)
    ensures PrependAll([], w) == w
  {
    if w.Ok? {
      assert [] + w.value.0 == w.value.0;
    }
  }

  lemma PrependStep(kept: seq<Entry>, e: Entry, w: Walked)
    ensures PrependAll(kept, Prepend(e, w)) == PrependAll(kept + [e], w)
  {
    if w.Ok? {
      assert kept + ([e] + w.value.0) == kept + [e] + w.value.0;
    }
  }

  // ----- facts about declared references -----

  ghost predicate IsDeclared(c: Context, entries: seq<Entry>, prefix: string, field: string) {
    Dotted(prefix, field) in c.secret && HasReference(entries, field)
  }

  ghost predicate HasReference(entries: seq<Entry>, field: string) {
    exists kind :: Get(entries, field + Suffix(kind)).Some?
  }

  predicate DistinctFields(fields: seq<string>) {
    forall i, j :: 0 <= i < j < |fields| ==> fields[i] != fields[j]
  }

  lemma AddOnceMeaning(fields: seq<string>, added: Option<string>, field: string)
    ensures field in AddOnce(fields, added) <==> field in fields || added == Some(field)
    ensures DistinctFields(fields) ==> DistinctFields(AddOnce(fields, added))
  {
  }

  // Some key of the dictionary refers to the field.
  ghost predicate Refers(c: Context, prefix: string, entries: seq<Entry>, field: string, i: nat) {
    i < |entries| && Candidate(c, prefix, entries[i].key) == Some(field)
  }

  lemma RefersSnoc(c: Context, prefix: string, entries: seq<Entry>, field: string, n: nat)
    requires |entries| == n + 1
    ensures (exists i: nat :: Refers(c, prefix, entries, field, i)) <==>
            (exists i: nat :: Refers(c, prefix, entries[..n], field, i)) || Refers(c, prefix, entries, field, n)
  {
    forall i: nat | i < n
      ensures Refers(c, prefix, entries[..n], field, i) == Refers(c, prefix, entries, field, i)
    {
      SameReference(c, prefix, entries[..n], entries, field, i);
    }
  }

  lemma SameReference(c: Context, prefix: string, some: seq<Entry>, more: seq<Entry>, field: string, i: nat)
    requires i < |some| <= |more| && some[i] == more[i]
    ensures Refers(c, prefix, some, field, i) == Refers(c, prefix, more, field, i)
  {
  }

  lemma {:induction false} DeclaredRefers(c: Context, entries: seq<Entry>, prefix: string, field: string)
    ensures field in Declared(c, entries, prefix) <==> exists i: nat :: Refers(c, prefix, entries, field, i)
  {
    if entries != [] {
      var n := |entries| - 1;
      DeclaredRefers(c, entries[..n], prefix, field);
      RefersSnoc(c, prefix, entries, field, n);
      AddOnceMeaning(Declared(c, entries[..n], prefix), Candidate(c, prefix, entries[n].key), field);
    }
  }

  lemma DeclaredMeaning(c: Context, entries: seq<Entry>, prefix: string, field: string)
    ensures field in Declared(c, entries, prefix) <==> IsDeclared(c, entries, prefix, field)
  {
    DeclaredRefers(c, entries, prefix, field);
    if i: nat :| Refers(c, prefix, entries, field, i) {
      var kind := KindOf(entries[i].key).value;
      SplitKey(entries[i].key);
      GetIndex(entries, field + Suffix(kind));
    }
    if kind :| Get(entries, field + Suffix(kind)).Some? {
      ReferenceKey(field, kind);
      GetIndex(entries, field + Suffix(kind));
      var i :| 0 <= i < |entries| && entries[i].key == field + Suffix(kind);
      assert IsDeclared(c, entries, prefix, field) ==> Refers(c, prefix, entries, field, i);
    }
  }

  lemma {:induction false} DeclaredDistinct(c: Context, entries: seq<Entry>, prefix: string)
    ensures DistinctFields(Declared(c, entries, prefix))
  {
    if entries != [] {
      var n := |entries| - 1;
      DeclaredDistinct(c, entries[..n], prefix);
      AddOnceMeaning(Declared(c, entries[..n], prefix), Candidate(c, prefix, entries[n].key), "");
    }
  }

  lemma {:induction false} WalkedKeys(c: Context, entries: seq<Entry>, declared: seq<string>, prefix: string, stdin: Lines)
    requires WalkEntries(c, entries, declared, prefix, stdin).Ok?
    ensures forall e :: e in WalkEntries(c, entries, declared, prefix, stdin).value.0 ==> Dotted(prefix, e.key) !in c.secret
    decreases entries
  {
    if entries != [] {
      var e := entries[0];
      if IsReferenceKey(declared, e.key) {
        WalkedKeys(c, entries[1..], declared, prefix, stdin);
      } else if e.value.Dict? {
        var left := WalkSection(c, e.value.entries, Dotted(prefix, e.key), stdin).value.1;
        WalkedKeys(c, entries[1..], declared, prefix, left);
      } else {
        WalkedKeys(c, entries[1..], declared, prefix, stdin);
      }
    }
  }

  // A field read from a reference never overwrites an entry that was kept.
  lemma KeptKeys(c: Context, entries: seq<Entry>, declared: seq<string>, prefix: string, stdin: Lines)
    requires declared == Declared(c, entries, prefix)
    requires WalkEntries(c, entries, declared, prefix, stdin).Ok?
    ensures forall f :: f in declared ==> Get(WalkEntries(c, entries, declared, prefix, stdin).value.0, f).None?
  {
    WalkedKeys(c, entries, declared, prefix, stdin);
    var kept := WalkEntries(c, entries, declared, prefix, stdin).value.0;
    forall f | f in declared
      ensures Get(kept, f).None?
    {
      DeclaredMeaning(c, entries, prefix, f);
      GetIndex(kept, f);
    }
  }

  // ----- the resolver -----

  class SecretResolver {
    const context: Context
    var stdin: Lines

    constructor (context: Context, stdin: Lines)
      ensures this.context == context && this.stdin == stdin
    {
      this.context := context;
      this.stdin := stdin;
    }

    method ReadSecretReference(field: string, config: seq<Entry>) returns (result: Result<Option<string>, string>)
      modifies this
      ensures match ReadReference(context, field, config, old(stdin))
              case Ok((secret, left)) => result == Ok(secret) && stdin == left
              case Err(e) => result == Err(e)
    {
      var selected := Selected(config, field);
      if |selected| > 1 {
        return Err("must use exactly one secret source");
      }
      if selected == [] {
        return Ok(None);
      }
      var reference := Get(config, field + Suffix(selected[0])).value;
      match selected[0] {
        case Env =>
          if !reference.Text? || reference.s == "" {
            return Err("must name a variable");
          }
          if reference.s !in context.env {
            return Err("environment variable is not set");
          }
          return Ok(Some(context.env[reference.s]));
        case File =>
          if !reference.Text? {
            return Err("must be a path");
          }
          if reference.s !in context.files {
            return Err("file is not readable");
          }
          return Ok(Some(RightStrip(context.files[reference.s])));
        case StdIn =>
          if reference != Flag(true) {
            return Err("must be true");
          }
          var line := NextLine(stdin);
          stdin := Drop(stdin, 1);
          return Ok(Some(RightStrip(line)));
      }
    }

    method DeclaredReferences(value: seq<Entry>, prefix: string) returns (declared: seq<string>)
      ensures declared == Declared(context, value, prefix)
    {
      declared := [];
      for n := 0 to |value|
        invariant declared == Declared(context, value[..n], prefix)
      {
        assert value[..n + 1][..n] == value[..n];
        var field := Candidate(context, prefix, value[n].key);
        if field.Some? && field.value !in declared {
          declared := declared + [field.value];
        }
      }
      assert value[..|value|] == value;
    }

    method Walk(value: seq<Entry>, prefix: string) returns (result: Result<seq<Entry>, string>)
      requires IsTree(value)
      modifies this
      ensures match WalkSection(context, value, prefix, old(stdin))
              case Ok((out, rest)) => result == Ok(out) && stdin == rest
              case Err(e) => result == Err(e)
      decreases value, 1
    {
      var declared := DeclaredReferences(value, prefix);
      var kept := Sections(value, declared, prefix);
      if kept.Err? {
        return kept;
      }
      KeptKeys(context, value, declared, prefix, old(stdin));
      DeclaredDistinct(context, value, prefix);
      result := Secrets(kept.value, value, declared);
    }

    // The third pass.
    method Secrets(kept: seq<Entry>, value: seq<Entry>, declared: seq<string>) returns (result: Result<seq<Entry>, string>)
      requires DistinctFields(declared)
      requires forall f :: f in declared ==> Get(kept, f).None?
      modifies this
      ensures match ReadAll(context, declared, value, old(stdin))
              case Ok((secrets, rest)) => result == Ok(kept + secrets) && stdin == rest
              case Err(e) => result == Err(e)
    {
      var resolved := kept;
      assert declared[0..] == declared;
      assert PrependAll(kept, ReadAll(context, declared, value, stdin)) ==
             PrependAll(resolved, ReadAll(context, declared[0..], value, stdin));
      for n := 0 to |declared|
        invariant forall m :: n <= m < |declared| ==> Get(resolved, declared[m]).None?
        invariant PrependAll(kept, ReadAll(context, declared, value, old(stdin))) ==
                  PrependAll(resolved, ReadAll(context, declared[n..], value, stdin))
      {
        var field := declared[n];
        assert declared[n..][0] == field && declared[n..][1..] == declared[n + 1..];
        var secret := ReadSecretReference(field, value);
        if secret.Err? {
          return Err(secret.error);
        }
        if secret.value.None? {
          if Get(value, field).Some? {
            return Err("plaintext secret field is forbidden");
          }
        } else {
          var entry := Entry(field, Text(secret.value.value));
          PutFresh(resolved, field, entry.value);
          PrependStep(resolved, entry, ReadAll(context, declared[n + 1..], value, stdin));
          forall m | n < m < |declared|
            ensures Get(resolved + [entry], declared[m]).None?
          {
            GetAppend(resolved, [entry], declared[m]);
          }
          resolved := Put(resolved, field, entry.value);
        }
      }
      assert declared[|declared|..] == [] && resolved + [] == resolved;
      result := Ok(resolved);
    }

    // The second pass.
    method Sections(value: seq<Entry>, declared: seq<string>, prefix: string) returns (result: Result<seq<Entry>, string>)
      requires IsTree(value)
      modifies this
      ensures match WalkEntries(context, value, declared, prefix, old(stdin))
              case Ok((out, rest)) => result == Ok(out) && stdin == rest
              case Err(e) => result == Err(e)
      decreases value, 0
    {
      var kept: seq<Entry> := [];
      assert value[0..] == value;
      PrependNone(WalkEntries(context, value, declared, prefix, stdin));
      for n := 0 to |value|
        invariant FreshKeys(kept, value[n..])
        invariant WalkEntries(context, value, declared, prefix, old(stdin)) ==
                  PrependAll(kept, WalkEntries(context, value[n..], declared, prefix, stdin))
      {
        var e := value[n];
        assert value[n..][0] == e && value[n..][1..] == value[n + 1..];
        FreshTail(kept, value, n);
        if IsReferenceKey(declared, e.key) {
          continue;
        }
        if Dotted(prefix, e.key) in context.secret {
          return Err("plaintext secret field is forbidden");
        }
        PutFresh(kept, e.key, e.value);
        if e.value.Dict? {
          var inner := Walk(e.value.entries, Dotted(prefix, e.key));
          if inner.Err? {
            return inner;
          }
          PutFresh(kept, e.key, Dict(inner.value));
          PrependStep(kept, Entry(e.key, Dict(inner.value)), WalkEntries(context, value[n + 1..], declared, prefix, stdin));
          kept := Put(kept, e.key, Dict(inner.value));
        } else {
          PrependStep(kept, e, WalkEntries(context, value[n + 1..], declared, prefix, stdin));
          kept := Put(kept, e.key, e.value);
        }
      }
      assert value[|value|..] == [] && kept + [] == kept;
      result := Ok(kept);
    }
  }

  // ----- what a resolved declaration holds -----

  // A key that stands for a declared field of this dictionary.
  ghost predicate IsReference(c: Context, entries: seq<Entry>, prefix: string, key: string) {
    exists field, kind :: IsDeclared(c, entries, prefix, field) && key == field + Suffix(kind)
  }

  ghost predicate OneSource(entries: seq<Entry>, field: string, kind: Kind) {
    && Get(entries, field + Suffix(kind)).Some?
    && forall other :: Get(entries, field + Suffix(other)).Some? ==> other == kind
  }

  // The reference can be followed; standard input always can.
  ghost predicate Readable(c: Context, kind: Kind, reference: Value) {
    match kind
    case Env => reference.Text? && reference.s != "" && reference.s in c.env
    case File => reference.Text? && reference.s in c.files
    case StdIn => reference == Flag(true)
  }

  ghost predicate Yields(c: Context, kind: Kind, reference: Value, secret: string) {
    && Readable(c, kind, reference)
    && (kind == Env ==> secret == c.env[reference.s])
    && (kind == File ==> secret == RightStrip(c.files[reference.s]))
  }

  ghost predicate FromOneReference(c: Context, entries: seq<Entry>, field: string, item: Option<Value>) {
    && item.Some? && item.value.Text?
    && exists kind :: OneSource(entries, field, kind)
                      && Yields(c, kind, Get(entries, field + Suffix(kind)).value, item.value.s)
  }

  ghost predicate IsDict(item: Option<Value>) {
    item.Some? && item.value.Dict?
  }

  // Leaves are equal, dictionaries stay dictionaries, missing keys stay missing.
  ghost predicate SameItem(before: Option<Value>, after: Option<Value>) {
    if IsDict(before) then IsDict(after) else before == after
  }

  ghost predicate KeyResolved(c: Context, entries: seq<Entry>, out: seq<Entry>, prefix: string, key: string) {
    && (IsReference(c, entries, prefix, key) ==> !IsDict(Get(entries, key)))
    && (Dotted(prefix, key) in c.secret && Get(entries, key).Some? ==> IsReference(c, entries, prefix, key))
    && if IsDeclared(c, entries, prefix, key) then FromOneReference(c, entries, key, Get(out, key))
       else if IsReference(c, entries, prefix, key) then Get(out, key).None?
       else SameItem(Get(entries, key), Get(out, key)) && (Dotted(prefix, key) in c.secret ==> Get(out, key).None?)
  }

  ghost predicate AllResolved(c: Context, entries: seq<Entry>, out: seq<Entry>, prefix: string) {
    forall key :: KeyResolved(c, entries, out, prefix, key)
  }

  lemma ReferenceKeys(c: Context, entries: seq<Entry>, prefix: string, key: string)
    ensures IsReferenceKey(Declared(c, entries, prefix), key) <==> IsReference(c, entries, prefix, key)
  {
    forall field
      ensures field in Declared(c, entries, prefix) <==> IsDeclared(c, entries, prefix, field)
    {
      DeclaredMeaning(c, entries, prefix, field);
    }
  }

  lemma SelectedMeaning(config: seq<Entry>, field: string)
    ensures Selected(config, field) == [] <==> forall kind :: Get(config, field + Suffix(kind)).None?
    ensures forall kind :: Selected(config, field) == [kind] <==> OneSource(config, field, kind)
  {
    var (env, file, line) := (field + Suffix(Env), field + Suffix(File), field + Suffix(StdIn));
    assert Get(config, env).Some? == (Env in Selected(config, field));
    assert Get(config, file).Some? == (File in Selected(config, field));
    assert Get(config, line).Some? == (StdIn in Selected(config, field));
  }

  lemma ReadMeaning(c: Context, field: string, config: seq<Entry>, stdin: Lines)
    requires HasReference(config, field)
    ensures ReadReference(c, field, config, stdin).Ok? <==>
            exists kind :: OneSource(config, field, kind) && Readable(c, kind, Get(config, field + Suffix(kind)).value)
    ensures ReadReference(c, field, config, stdin).Ok? ==>
              var secret := ReadReference(c, field, config, stdin).value.0;
              secret.Some? && FromOneReference(c, config, field, Some(Text(secret.value)))
  {
    SelectedMeaning(config, field);
    if |Selected(config, field)| == 1 {
      var kind := Selected(config, field)[0];
      assert Selected(config, field) == [kind];
    }
  }

  lemma {:induction false} ReadAllGet(c: Context, fields: seq<string>, config: seq<Entry>, stdin: Lines, f: string)
    requires forall g :: g in fields ==> HasReference(config, g)
    requires ReadAll(c, fields, config, stdin).Ok?
    ensures var secrets := ReadAll(c, fields, config, stdin).value.0;
            if f in fields then FromOneReference(c, config, f, Get(secrets, f)) else Get(secrets, f).None?
  {
    if fields != [] {
      var first, rest := fields[0], fields[1..];
      assert HasReference(config, first);
      ReadMeaning(c, first, config, stdin);
      var (secret, left) := ReadReference(c, first, config, stdin).value;
      ReadAllGet(c, rest, config, left, f);
      ReadAllStep(c, fields, config, stdin, secret.value, left);
      assert f in fields <==> f == first || f in rest;
    }
  }

  lemma ReadAllStep(c: Context, fields: seq<string>, config: seq<Entry>, stdin: Lines, secret: string, left: Lines)
    requires fields != [] && ReadReference(c, fields[0], config, stdin) == Ok((Some(secret), left))
    requires ReadAll(c, fields, config, stdin).Ok?
    ensures ReadAll(c, fields[1..], config, left).Ok?
    ensures ReadAll(c, fields, config, stdin).value.1 == ReadAll(c, fields[1..], config, left).value.1
    ensures ReadAll(c, fields, config, stdin).value.0 ==
            [Entry(fields[0], Text(secret))] + ReadAll(c, fields[1..], config, left).value.0
    ensures forall f :: Get(ReadAll(c, fields, config, stdin).value.0, f) ==
                        if f == fields[0] then Some(Text(secret)) else Get(ReadAll(c, fields[1..], config, left).value.0, f)
  {
    var all, rest := ReadAll(c, fields, config, stdin).value.0, ReadAll(c, fields[1..], config, left).value.0;
    assert all == [Entry(fields[0], Text(secret))] + rest;
    assert all[1..] == rest;
  }

  // What the second pass does to one key; `at` is the input left when it reaches a nested section.
  ghost predicate KeptItem(c: Context, before: Option<Value>, after: Option<Value>, path: string, at: Lines) {
    && (before.Some? ==> path !in c.secret)
    && if IsDict(before) then
         && WalkSection(c, before.value.entries, path, at).Ok?
         && after == Some(Dict(WalkSection(c, before.value.entries, path, at).value.0))
       else before == after
  }

  lemma {:induction false} WalkedGet(c: Context, entries: seq<Entry>, declared: seq<string>, prefix: string, stdin: Lines,
                                     key: string) returns (at: Lines)
    requires WalkEntries(c, entries, declared, prefix, stdin).Ok?
    ensures var kept := WalkEntries(c, entries, declared, prefix, stdin).value.0;
            if IsReferenceKey(declared, key) then Get(kept, key).None?
            else KeptItem(c, Get(entries, key), Get(kept, key), Dotted(prefix, key), at)
    decreases entries
  {
    at := stdin;
    if entries != [] {
      var e, rest := entries[0], entries[1..];
      if IsReferenceKey(declared, e.key) {
        at := WalkedGet(c, rest, declared, prefix, stdin, key);
      } else {
        var left := if e.value.Dict? then WalkSection(c, e.value.entries, Dotted(prefix, e.key), stdin).value.1 else stdin;
        var kept, tail := WalkEntries(c, entries, declared, prefix, stdin).value.0, WalkEntries(c, rest, declared, prefix, left).value.0;
        assert kept[1..] == tail;
        if e.key != key {
          at := WalkedGet(c, rest, declared, prefix, left, key);
        }
      }
    }
  }

  lemma ReferenceIsNoDict(c: Context, entries: seq<Entry>, prefix: string, stdin: Lines, key: string)
    requires WalkSection(c, entries, prefix, stdin).Ok? && IsReference(c, entries, prefix, key)
    ensures !IsDict(Get(entries, key))
  {
    var declared := Declared(c, entries, prefix);
    var left := WalkEntries(c, entries, declared, prefix, stdin).value.1;
    var field, kind :| IsDeclared(c, entries, prefix, field) && key == field + Suffix(kind);
    DeclaredAreReferred(c, entries, prefix);
    DeclaredMeaning(c, entries, prefix, field);
    ReadAllGet(c, declared, entries, left, field);
  }

  lemma DeclaredAreReferred(c: Context, entries: seq<Entry>, prefix: string)
    ensures forall f :: f in Declared(c, entries, prefix) ==> HasReference(entries, f)
  {
    forall f | f in Declared(c, entries, prefix)
      ensures HasReference(entries, f)
    {
      DeclaredMeaning(c, entries, prefix, f);
    }
  }

  lemma WalkResolves(c: Context, entries: seq<Entry>, prefix: string, stdin: Lines, key: string) returns (at: Lines)
    requires WalkSection(c, entries, prefix, stdin).Ok?
    ensures var out := WalkSection(c, entries, prefix, stdin).value.0;
            && KeyResolved(c, entries, out, prefix, key)
            && (!IsReference(c, entries, prefix, key) && !IsDeclared(c, entries, prefix, key) ==>
                  KeptItem(c, Get(entries, key), Get(out, key), Dotted(prefix, key), at))
  {
    var declared := Declared(c, entries, prefix);
    var (kept, left) := WalkEntries(c, entries, declared, prefix, stdin).value;
    at := WalkedGet(c, entries, declared, prefix, stdin, key);
    ReferenceKeys(c, entries, prefix, key);
    DeclaredMeaning(c, entries, prefix, key);
    DeclaredAreReferred(c, entries, prefix);
    ReadAllGet(c, declared, entries, left, key);
    KeptKeys(c, entries, declared, prefix, stdin);
    GetAppend(kept, ReadAll(c, declared, entries, left).value.0, key);
    if IsReference(c, entries, prefix, key) {
      ReferenceIsNoDict(c, entries, prefix, stdin, key);
    }
  }

  /** A resolved declaration, section by section: it has exactly the sections of the original; in each,
      a declared field holds the text its one reference yields, no other reference key is left, no other
      value stands at a secret path, and everything else is as it was. */
  lemma {:induction false} SectionResolved(c: Context, entries: seq<Entry>, prefix: string, stdin: Lines, path: seq<string>)
    requires WalkSection(c, entries, prefix, stdin).Ok?
    ensures var out := WalkSection(c, entries, prefix, stdin).value.0;
            && (Section(entries, path).Some? <==> Section(out, path).Some?)
            && (Section(entries, path).Some? ==>
                  AllResolved(c, Section(entries, path).value, Section(out, path).value, PrefixOf(prefix, path)))
    decreases |path|
  {
    if path == [] {
      forall key
        ensures KeyResolved(c, entries, WalkSection(c, entries, prefix, stdin).value.0, prefix, key)
      {
        var _ := WalkResolves(c, entries, prefix, stdin, key);
      }
    } else {
      var key := path[0];
      var at := WalkResolves(c, entries, prefix, stdin, key);
      NestedIffNested(c, entries, prefix, stdin, key, at);
      if IsDict(Get(entries, key)) {
        SectionResolved(c, Get(entries, key).value.entries, Dotted(prefix, key), at, path[1..]);
      }
    }
  }

  lemma NestedIffNested(c: Context, entries: seq<Entry>, prefix: string, stdin: Lines, key: string, at: Lines)
    requires WalkSection(c, entries, prefix, stdin).Ok?
    requires var out := WalkSection(c, entries, prefix, stdin).value.0;
             && KeyResolved(c, entries, out, prefix, key)
             && (!IsReference(c, entries, prefix, key) && !IsDeclared(c, entries, prefix, key) ==>
                   KeptItem(c, Get(entries, key), Get(out, key), Dotted(prefix, key), at))
    ensures var out := WalkSection(c, entries, prefix, stdin).value.0;
            && (IsDict(Get(entries, key)) <==> IsDict(Get(out, key)))
            && (IsDict(Get(entries, key)) ==> KeptItem(c, Get(entries, key), Get(out, key), Dotted(prefix, key), at))
  {
    var declared := Declared(c, entries, prefix);
    DeclaredMeaning(c, entries, prefix, key);
    ReferenceKeys(c, entries, prefix, key);
    if IsDeclared(c, entries, prefix, key) && !IsReference(c, entries, prefix, key) {
      var _ := WalkedGet(c, entries, declared, prefix, stdin, key);
    }
  }

  // ----- when resolving succeeds -----

  // No plaintext at a secret path, and every declared field has one reference that can be followed.
  ghost predicate SectionOk(c: Context, entries: seq<Entry>, prefix: string) {
    && (forall key :: Get(entries, key).Some? && Dotted(prefix, key) in c.secret ==> IsReference(c, entries, prefix, key))
    && (forall f :: IsDeclared(c, entries, prefix, f) ==> HasReadable(c, entries, f))
  }

  ghost predicate HasReadable(c: Context, entries: seq<Entry>, field: string) {
    exists kind :: OneSource(entries, field, kind) && Readable(c, kind, Get(entries, field + Suffix(kind)).value)
  }

  ghost predicate AllOk(c: Context, entries: seq<Entry>, prefix: string) {
    && SectionOk(c, entries, prefix)
    && forall i :: 0 <= i < |entries| && entries[i].value.Dict? ==>
                     AllOk(c, entries[i].value.entries, Dotted(prefix, entries[i].key))
  }

  ghost predicate OkAt(c: Context, entries: seq<Entry>, prefix: string, path: seq<string>) {
    Section(entries, path).Some? ==> SectionOk(c, Section(entries, path).value, PrefixOf(prefix, path))
  }

  lemma {:induction false} AllOkFromPaths(c: Context, entries: seq<Entry>, prefix: string)
    requires IsTree(entries) && forall path :: OkAt(c, entries, prefix, path)
    ensures AllOk(c, entries, prefix)
    decreases entries
  {
    assert OkAt(c, entries, prefix, []);
    forall i | 0 <= i < |entries| && entries[i].value.Dict?
      ensures AllOk(c, entries[i].value.entries, Dotted(prefix, entries[i].key))
    {
      var key, inner := entries[i].key, entries[i].value.entries;
      GetAt(entries, i);
      forall path
        ensures OkAt(c, inner, Dotted(prefix, key), path)
      {
        assert OkAt(c, entries, prefix, [key] + path);
        assert ([key] + path)[1..] == path;
      }
      AllOkFromPaths(c, inner, Dotted(prefix, key));
    }
  }

  ghost predicate EntryOk(c: Context, declared: seq<string>, prefix: string, e: Entry) {
    && (IsReferenceKey(declared, e.key) || Dotted(prefix, e.key) !in c.secret)
    && (e.value.Dict? ==> AllOk(c, e.value.entries, Dotted(prefix, e.key)))
  }

  lemma {:induction false} WalkSucceeds(c: Context, entries: seq<Entry>, prefix: string, stdin: Lines)
    requires AllOk(c, entries, prefix)
    ensures WalkSection(c, entries, prefix, stdin).Ok?
    decreases entries, 1
  {
    var declared := Declared(c, entries, prefix);
    forall i | 0 <= i < |entries|
      ensures EntryOk(c, declared, prefix, entries[i])
    {
      ReferenceKeys(c, entries, prefix, entries[i].key);
      GetIndex(entries, entries[i].key);
    }
    EntriesSucceed(c, entries, declared, prefix, stdin);
    DeclaredAreReferred(c, entries, prefix);
    forall f | f in declared
      ensures HasReadable(c, entries, f)
    {
      DeclaredMeaning(c, entries, prefix, f);
    }
    ReadsSucceed(c, declared, entries, WalkEntries(c, entries, declared, prefix, stdin).value.1);
  }

  lemma {:induction false} EntriesSucceed(c: Context, entries: seq<Entry>, declared: seq<string>, prefix: string, stdin: Lines)
    requires forall i :: 0 <= i < |entries| ==> EntryOk(c, declared, prefix, entries[i])
    ensures WalkEntries(c, entries, declared, prefix, stdin).Ok?
    decreases entries, 0
  {
    if entries != [] {
      var e, rest := entries[0], entries[1..];
      assert EntryOk(c, declared, prefix, e);
      forall i | 0 <= i < |rest|
        ensures EntryOk(c, declared, prefix, rest[i])
      {
        assert rest[i] == entries[i + 1];
      }
      if !IsReferenceKey(declared, e.key) && e.value.Dict? {
        WalkSucceeds(c, e.value.entries, Dotted(prefix, e.key), stdin);
        EntriesSucceed(c, rest, declared, prefix, WalkSection(c, e.value.entries, Dotted(prefix, e.key), stdin).value.1);
      } else {
        EntriesSucceed(c, rest, declared, prefix, stdin);
      }
    }
  }

  lemma {:induction false} ReadsSucceed(c: Context, fields: seq<string>, config: seq<Entry>, stdin: Lines)
    requires forall f :: f in fields ==> HasReference(config, f) && HasReadable(c, config, f)
    ensures ReadAll(c, fields, config, stdin).Ok?
  {
    if fields != [] {
      assert HasReference(config, fields[0]) && HasReadable(c, config, fields[0]);
      ReadMeaning(c, fields[0], config, stdin);
      ReadsSucceed(c, fields[1..], config, ReadReference(c, fields[0], config, stdin).value.1);
    }
  }

  /** Resolving succeeds exactly when every section holds no plaintext at a secret path and gives each
      declared field one reference that can be followed, whatever standard input holds. */
  lemma SucceedsIff(c: Context, entries: seq<Entry>, prefix: string, stdin: Lines)
    requires IsTree(entries)
    ensures WalkSection(c, entries, prefix, stdin).Ok? <==> forall path :: OkAt(c, entries, prefix, path)
  {
    if WalkSection(c, entries, prefix, stdin).Ok? {
      forall path
        ensures OkAt(c, entries, prefix, path)
      {
        SectionResolved(c, entries, prefix, stdin, path);
        if Section(entries, path).Some? {
          ResolvedIsOk(c, Section(entries, path).value,
                       Section(WalkSection(c, entries, prefix, stdin).value.0, path).value, PrefixOf(prefix, path));
        }
      }
    }
    if forall path :: OkAt(c, entries, prefix, path) {
      AllOkFromPaths(c, entries, prefix);
      WalkSucceeds(c, entries, prefix, stdin);
    }
  }

  lemma ResolvedIsOk(c: Context, entries: seq<Entry>, out: seq<Entry>, prefix: string)
    requires AllResolved(c, entries, out, prefix)
    ensures SectionOk(c, entries, prefix)
  {
    forall f | IsDeclared(c, entries, prefix, f)
      ensures HasReadable(c, entries, f)
    {
      assert KeyResolved(c, entries, out, prefix, f);
    }
    forall key | Get(entries, key).Some? && Dotted(prefix, key) in c.secret
      ensures IsReference(c, entries, prefix, key)
    {
      assert KeyResolved(c, entries, out, prefix, key);
    }
  }

  // ----- the order in which standard input is read -----

  // A field and the keys that lead to its section.
  type Place = (seq<string>, string)

  function Under(key: string, places: seq<Place>): (r: seq<Place>)
    ensures |r| == |places| && forall i :: 0 <= i < |r| ==> r[i] == ([key] + places[i].0, places[i].1)
  {
    seq(|places|, i requires 0 <= i < |places| => ([key] + places[i].0, places[i].1))
  }

  // The fields read from standard input, in order: nested sections first, then the section's own.
  function StdinPlaces(c: Context, entries: seq<Entry>, prefix: string): seq<Place>
    decreases entries, 1
  {
    var declared := Declared(c, entries, prefix);
    NestedPlaces(c, entries, declared, prefix) + OwnPlaces(declared, entries)
  }

  function NestedPlaces(c: Context, entries: seq<Entry>, declared: seq<string>, prefix: string): seq<Place>
    decreases entries, 0
  {
    if entries == [] then []
    else
      var e := entries[0];
      var later := NestedPlaces(c, entries[1..], declared, prefix);
      if IsReferenceKey(declared, e.key) || !e.value.Dict? then later
      else Under(e.key, StdinPlaces(c, e.value.entries, Dotted(prefix, e.key))) + later
  }

  function OwnPlaces(fields: seq<string>, config: seq<Entry>): seq<Place> {
    if fields == [] then []
    else if Get(config, fields[0] + Suffix(StdIn)).Some? then [([], fields[0])] + OwnPlaces(fields[1..], config)
    else OwnPlaces(fields[1..], config)
  }

  function At(out: seq<Entry>, place: Place): Option<Value> {
    match Section(out, place.0)
    case Some(inner) => Get(inner, place.1)
    case None => None
  }

  // The j-th place holds the j-th line.
  ghost predicate InOrder(out: seq<Entry>, places: seq<Place>, stdin: Lines) {
    forall j: nat :: j < |places| ==> At(out, places[j]) == Some(Text(RightStrip(Line(stdin, j))))
  }

  lemma InOrderConcat(out: seq<Entry>, a: seq<Place>, b: seq<Place>, stdin: Lines)
    requires InOrder(out, a, stdin) && InOrder(out, b, Drop(stdin, |a|))
    ensures InOrder(out, a + b, stdin)
    ensures Drop(Drop(stdin, |a|), |b|) == Drop(stdin, |a + b|)
  {
    forall j: nat | j < |a + b|
      ensures At(out, (a + b)[j]) == Some(Text(RightStrip(Line(stdin, j))))
    {
      if j >= |a| {
        assert (a + b)[j] == b[j - |a|];
        assert Line(Drop(stdin, |a|), j - |a|) == Line(stdin, j);
      }
    }
  }

  lemma AtHead(key: string, inner: seq<Entry>, tail: seq<Entry>, places: seq<Place>, stdin: Lines)
    requires InOrder(inner, places, stdin)
    ensures InOrder([Entry(key, Dict(inner))] + tail, Under(key, places), stdin)
  {
    var out := [Entry(key, Dict(inner))] + tail;
    forall j: nat | j < |places|
      ensures At(out, Under(key, places)[j]) == At(inner, places[j])
    {
      assert ([key] + places[j].0)[1..] == places[j].0;
    }
  }

  // Every place lies in a nested section of the dictionary.
  ghost predicate Nested(entries: seq<Entry>, places: seq<Place>) {
    forall j: nat :: j < |places| ==> places[j].0 != [] && Get(entries, places[j].0[0]).Some?
  }

  lemma AtTail(e: Entry, tail: seq<Entry>, places: seq<Place>, stdin: Lines)
    requires InOrder(tail, places, stdin)
    requires forall j: nat :: j < |places| ==> places[j].0 != [] && places[j].0[0] != e.key
    ensures InOrder([e] + tail, places, stdin)
  {
    var out := [e] + tail;
    assert out[1..] == tail;
    forall j: nat | j < |places|
      ensures At(out, places[j]) == At(tail, places[j])
    {
      assert Get(out, places[j].0[0]) == Get(tail, places[j].0[0]);
    }
  }

  lemma {:induction false} NestedPlacesNested(c: Context, entries: seq<Entry>, declared: seq<string>, prefix: string)
    ensures Nested(entries, NestedPlaces(c, entries, declared, prefix))
    decreases |entries|
  {
    if entries != [] {
      var e := entries[0];
      NestedPlacesNested(c, entries[1..], declared, prefix);
      var later, places := NestedPlaces(c, entries[1..], declared, prefix), NestedPlaces(c, entries, declared, prefix);
      forall j: nat | j < |places|
        ensures places[j].0 != [] && Get(entries, places[j].0[0]).Some?
      {
        var before := |places| - |later|;
        if j < before {
          assert places[j].0[0] == e.key;
        } else {
          assert places[j] == later[j - before];
        }
      }
    }
  }

  lemma {:induction false} EntriesInOrder(c: Context, entries: seq<Entry>, declared: seq<string>, prefix: string, stdin: Lines)
    requires IsTree(entries) && WalkEntries(c, entries, declared, prefix, stdin).Ok?
    ensures var (kept, left) := WalkEntries(c, entries, declared, prefix, stdin).value;
            var places := NestedPlaces(c, entries, declared, prefix);
            left == Drop(stdin, |places|) && InOrder(kept, places, stdin)
    decreases entries, 0
  {
    if entries != [] {
      var e, rest := entries[0], entries[1..];
      TreeTail(entries);
      var later := NestedPlaces(c, rest, declared, prefix);
      LaterKeys(c, entries, declared, prefix);
      if IsReferenceKey(declared, e.key) {
        EntriesInOrder(c, rest, declared, prefix, stdin);
      } else if e.value.Dict? {
        var inner, path := e.value.entries, Dotted(prefix, e.key);
        var (out, at) := WalkSection(c, inner, path, stdin).value;
        var places := StdinPlaces(c, inner, path);
        WalkInOrder(c, inner, path, stdin);
        EntriesInOrder(c, rest, declared, prefix, at);
        var tail := WalkEntries(c, rest, declared, prefix, at).value.0;
        AtHead(e.key, out, tail, places, stdin);
        AtTail(Entry(e.key, Dict(out)), tail, later, at);
        InOrderConcat([Entry(e.key, Dict(out))] + tail, Under(e.key, places), later, stdin);
      } else {
        EntriesInOrder(c, rest, declared, prefix, stdin);
        AtTail(e, WalkEntries(c, rest, declared, prefix, stdin).value.0, later, stdin);
      }
    } else {
      assert Drop(stdin, 0) == stdin;
    }
  }

  lemma TreeTail(entries: seq<Entry>)
    requires IsTree(entries) && entries != []
    ensures IsTree(entries[1..])
    ensures entries[0].value.Dict? ==> IsTree(entries[0].value.entries)
  {
    var rest := entries[1..];
    forall i | 0 <= i < |rest|
      ensures rest[i] == entries[i + 1]
    {
    }
  }

  lemma LaterKeys(c: Context, entries: seq<Entry>, declared: seq<string>, prefix: string)
    requires IsTree(entries) && entries != []
    ensures forall j: nat :: j < |NestedPlaces(c, entries[1..], declared, prefix)| ==>
              var path := NestedPlaces(c, entries[1..], declared, prefix)[j].0;
              path != [] && path[0] != entries[0].key
  {
    var rest := entries[1..];
    var later := NestedPlaces(c, rest, declared, prefix);
    NestedPlacesNested(c, rest, declared, prefix);
    forall j: nat | j < |later|
      ensures later[j].0 != [] && later[j].0[0] != entries[0].key
    {
      GetIndex(rest, later[j].0[0]);
      var i :| 0 <= i < |rest| && rest[i].key == later[j].0[0];
      assert entries[i + 1] == rest[i];
    }
  }

  lemma ReadsOneLine(c: Context, field: string, config: seq<Entry>, stdin: Lines)
    requires HasReference(config, field) && ReadReference(c, field, config, stdin).Ok?
    ensures var (secret, left) := ReadReference(c, field, config, stdin).value;
            && secret.Some?
            && if Get(config, field + Suffix(StdIn)).Some? then
                 secret == Some(RightStrip(Line(stdin, 0))) && left == Drop(stdin, 1)
               else left == stdin
  {
    SelectedMeaning(config, field);
    var kind := Selected(config, field)[0];
    assert Selected(config, field) == [kind];
  }

  lemma {:induction false} OwnInOrder(c: Context, fields: seq<string>, config: seq<Entry>, stdin: Lines)
    requires DistinctFields(fields) && forall f :: f in fields ==> HasReference(config, f)
    requires ReadAll(c, fields, config, stdin).Ok?
    ensures var (secrets, left) := ReadAll(c, fields, config, stdin).value;
            var places := OwnPlaces(fields, config);
            && left == Drop(stdin, |places|)
            && InOrder(secrets, places, stdin)
            && forall j: nat :: j < |places| ==> places[j].0 == [] && places[j].1 in fields
  {
    if fields != [] {
      var first, rest := fields[0], fields[1..];
      assert HasReference(config, first);
      ReadsOneLine(c, first, config, stdin);
      var (secret, left) := ReadReference(c, first, config, stdin).value;
      ReadAllStep(c, fields, config, stdin, secret.value, left);
      OwnInOrder(c, rest, config, left);
      var secrets, tail := ReadAll(c, fields, config, stdin).value.0, ReadAll(c, rest, config, left).value.0;
      var later := OwnPlaces(rest, config);
      OwnTail(secrets, tail, fields, later, left);
      if Get(config, first + Suffix(StdIn)).Some? {
        InOrderConcat(secrets, [([], first)], later, stdin);
      }
    } else {
      assert Drop(stdin, 0) == stdin;
    }
  }

  lemma OwnTail(secrets: seq<Entry>, tail: seq<Entry>, fields: seq<string>, places: seq<Place>, stdin: Lines)
    requires DistinctFields(fields) && fields != [] && InOrder(tail, places, stdin)
    requires forall j: nat :: j < |places| ==> places[j].0 == [] && places[j].1 in fields[1..]
    requires forall f :: f != fields[0] ==> Get(secrets, f) == Get(tail, f)
    ensures InOrder(secrets, places, stdin)
  {
    forall j: nat | j < |places|
      ensures At(secrets, places[j]) == At(tail, places[j])
    {
      var i :| 0 <= i < |fields[1..]| && fields[1..][i] == places[j].1;
      assert fields[i + 1] == places[j].1;
    }
  }

  lemma KeptStays(kept: seq<Entry>, secrets: seq<Entry>, places: seq<Place>, stdin: Lines)
    requires InOrder(kept, places, stdin) && forall j: nat :: j < |places| ==> places[j].0 != []
    ensures InOrder(kept + secrets, places, stdin)
  {
    forall j: nat | j < |places|
      ensures At(kept + secrets, places[j]) == At(kept, places[j])
    {
      assert At(kept, places[j]).Some?;
      GetAppend(kept, secrets, places[j].0[0]);
    }
  }

  lemma SecretsStay(kept: seq<Entry>, secrets: seq<Entry>, places: seq<Place>, stdin: Lines)
    requires InOrder(secrets, places, stdin)
    requires forall j: nat :: j < |places| ==> places[j].0 == [] && Get(kept, places[j].1).None?
    ensures InOrder(kept + secrets, places, stdin)
  {
    forall j: nat | j < |places|
      ensures At(kept + secrets, places[j]) == At(secrets, places[j])
    {
      GetAppend(kept, secrets, places[j].1);
    }
  }

  /** Standard input is read once for each standard-input reference, nested sections before the
      references of their parent: the j-th of these fields holds the j-th line, and the lines after
      them are left unread. */
  lemma {:induction false} WalkInOrder(c: Context, entries: seq<Entry>, prefix: string, stdin: Lines)
    requires IsTree(entries) && WalkSection(c, entries, prefix, stdin).Ok?
    ensures var (out, left) := WalkSection(c, entries, prefix, stdin).value;
            var places := StdinPlaces(c, entries, prefix);
            left == Drop(stdin, |places|) && InOrder(out, places, stdin)
    decreases entries, 1
  {
    var declared := Declared(c, entries, prefix);
    var (kept, at) := WalkEntries(c, entries, declared, prefix, stdin).value;
    var (secrets, left) := ReadAll(c, declared, entries, at).value;
    var nested, own := NestedPlaces(c, entries, declared, prefix), OwnPlaces(declared, entries);
    EntriesInOrder(c, entries, declared, prefix, stdin);
    NestedPlacesNested(c, entries, declared, prefix);
    KeptStays(kept, secrets, nested, stdin);
    DeclaredAreReferred(c, entries, prefix);
    DeclaredDistinct(c, entries, prefix);
    OwnInOrder(c, declared, entries, at);
    KeptKeys(c, entries, declared, prefix, stdin);
    SecretsStay(kept, secrets, own, at);
    InOrderConcat(kept + secrets, nested, own, stdin);
  }

  // ----- a reference key that is a secret field itself -----

  // Secret fields f and f_from_env, each given by an environment reference.
  function TwoFields(f: string, secret: string, other: string): Context {
    Context({f, f + Suffix(Env)}, map["V" := secret, "W" := other], map[])
  }

  function TwoReferences(f: string): seq<Entry> {
    [Entry(f + Suffix(Env), Text("V")), Entry(f + Suffix(Env) + Suffix(Env), Text("W"))]
  }

  lemma TwoGet(f: string, key: string)
    ensures var outer, inner := f + Suffix(Env), f + Suffix(Env) + Suffix(Env);
            && Get(TwoReferences(f), key) ==
               (if key == outer then Some(Text("V")) else if key == inner then Some(Text("W")) else None)
            && f != outer && f != inner && outer != inner
    ensures IsTree(TwoReferences(f))
  {
    var entries := TwoReferences(f);
    assert |f| < |entries[0].key| < |entries[1].key|;
    GetTwo(entries[0], entries[1], key);
  }

  lemma GetTwo(a: Entry, b: Entry, key: string)
    ensures Get([a, b], key) == if a.key == key then Some(a.value) else if b.key == key then Some(b.value) else None
  {
    assert [a, b][1..] == [b] && [b][1..] == [];
    assert Get([b], key) == if b.key == key then Some(b.value) else None;
  }

  lemma TwoKeys(f: string, g: string, kind: Kind)
    requires g == f || g == f + Suffix(Env)
    ensures Get(TwoReferences(f), g + Suffix(kind)) ==
            if kind != Env then None else if g == f then Some(Text("V")) else Some(Text("W"))
  {
    TwoGet(f, g + Suffix(kind));
    ReferenceKey(f, Env);
    ReferenceKey(f + Suffix(Env), Env);
    ReferenceKey(g, kind);
  }

  lemma TwoFieldsAreReadable(f: string, secret: string, other: string, g: string)
    requires g == f || g == f + Suffix(Env)
    ensures var c, entries := TwoFields(f, secret, other), TwoReferences(f);
            && IsDeclared(c, entries, "", g) && HasReadable(c, entries, g)
            && forall item :: FromOneReference(c, entries, g, item) ==>
                 item == Some(Text(if g == f then secret else other))
  {
    var c, entries := TwoFields(f, secret, other), TwoReferences(f);
    forall kind
      ensures Get(entries, g + Suffix(kind)) ==
              if kind != Env then None else if g == f then Some(Text("V")) else Some(Text("W"))
    {
      TwoKeys(f, g, kind);
    }
    assert "V" != "W";
    assert OneSource(entries, g, Env) && Readable(c, Env, Get(entries, g + Suffix(Env)).value);
  }

  lemma TwoFieldsAreOk(f: string, secret: string, other: string, path: seq<string>)
    ensures OkAt(TwoFields(f, secret, other), TwoReferences(f), "", path)
  {
    if path == [] {
      TopIsOk(f, secret, other);
    } else {
      TwoGet(f, path[0]);
    }
  }

  lemma TopIsOk(f: string, secret: string, other: string)
    ensures SectionOk(TwoFields(f, secret, other), TwoReferences(f), "")
  {
    var c, entries, inner := TwoFields(f, secret, other), TwoReferences(f), f + Suffix(Env);
    TwoFieldsAreReadable(f, secret, other, f);
    TwoFieldsAreReadable(f, secret, other, inner);
    forall key | Get(entries, key).Some? && Dotted("", key) in c.secret
      ensures IsReference(c, entries, "", key)
    {
      TwoGet(f, key);
      assert IsDeclared(c, entries, "", f) && key == f + Suffix(Env);
    }
    forall g | IsDeclared(c, entries, "", g)
      ensures HasReadable(c, entries, g)
    {
      assert Dotted("", g) == g;
    }
  }

  /** A field `x` and a field `x_from_env` that are both secret and both given by reference: the result
      keeps the key `x_from_env`, holding the secret that its own reference yields. */
  lemma ReferenceKeyCanStay(secret: string, other: string)
    ensures var c := Context({"x", "x_from_env"}, map["V" := secret, "W" := other], map[]);
            var entries := [Entry("x_from_env", Text("V")), Entry("x_from_env_from_env", Text("W"))];
            && IsReference(c, entries, "", "x_from_env")
            && WalkSection(c, entries, "", []).Ok?
            && Get(WalkSection(c, entries, "", []).value.0, "x_from_env") == Some(Text(other))
            && Get(WalkSection(c, entries, "", []).value.0, "x") == Some(Text(secret))
  {
    assert "x" + Suffix(Env) == "x_from_env";
    assert "x_from_env" + Suffix(Env) == "x_from_env_from_env";
    BothStay("x", secret, other);
  }

  lemma BothStay(f: string, secret: string, other: string)
    ensures var c, entries, inner := TwoFields(f, secret, other), TwoReferences(f), f + Suffix(Env);
            && IsReference(c, entries, "", inner)
            && WalkSection(c, entries, "", []).Ok?
            && Get(WalkSection(c, entries, "", []).value.0, inner) == Some(Text(other))
            && Get(WalkSection(c, entries, "", []).value.0, f) == Some(Text(secret))
  {
    var c, entries, inner := TwoFields(f, secret, other), TwoReferences(f), f + Suffix(Env);
    TwoGet(f, f);
    TwoFieldsAreReadable(f, secret, other, f);
    TwoFieldsAreReadable(f, secret, other, inner);
    forall path
      ensures OkAt(c, entries, "", path)
    {
      TwoFieldsAreOk(f, secret, other, path);
    }
    SucceedsIff(c, entries, "", []);
    SectionResolved(c, entries, "", [], []);
    var out := WalkSection(c, entries, "", []).value.0;
    assert KeyResolved(c, entries, out, "", f) && KeyResolved(c, entries, out, "", inner);
  }
}
