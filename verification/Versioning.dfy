/**
 Reading and rewriting release versions in text files (scripts/release/versioning.py).

 A file is its sequence of lines.  A location's pattern is fixed lines, then one line made of a fixed
 prefix, a version of digits and dots, and a fixed suffix; digits are ASCII.
 */
module Versioning {
  import opened Common

  type Text = seq<string>

  // The text files that hold the release version.
  datatype Path =
    | PyProject | Chart | InternalPipeline | CanonicalDockerSkill | CanonicalSourceSkill
    | ClaudeDockerSkill | ClaudeSourceSkill | Runtime | PythonLock | Dockerfile | Compose
    | ComposeEnvironment | ComposeExternalMysql | ComposeExternalPostgres | EnvironmentGenerator | HelmValues

  // ----- versions -----

  predicate IsDigit(c: char) {
    '0' <= c <= '9'
  }

  predicate IsNumeral(s: string) {
    s != "" && forall i :: 0 <= i < |s| ==> IsDigit(s[i])
  }

  // No leading zero.
  predicate IsCanonical(s: string) {
    IsNumeral(s) && (s == "0" || s[0] != '0')
  }

  function SplitDots(s: string): (parts: seq<string>)
    ensures parts != []
  {
    if s == "" then [""]
    else
      var rest := SplitDots(s[1..]);
      if s[0] == '.' then [""] + rest else [[s[0]] + rest[0]] + rest[1..]
  }

  // What the patterns of the locations accept, and what `VERSION` accepts.
  predicate IsDotted(v: string) {
    var parts := SplitDots(v);
    |parts| == 3 && IsNumeral(parts[0]) && IsNumeral(parts[1]) && IsNumeral(parts[2])
  }

  predicate IsVersion(v: string) {
    var parts := SplitDots(v);
    |parts| == 3 && IsCanonical(parts[0]) && IsCanonical(parts[1]) && IsCanonical(parts[2])
  }

  function NatOf(s: string): nat
    requires forall i :: 0 <= i < |s| ==> IsDigit(s[i])
  {
    if s == "" then 0
    else
      assert IsDigit(s[|s| - 1]);
      10 * NatOf(s[..|s| - 1]) + (s[|s| - 1] as int - '0' as int)
  }

  function Decimal(n: nat): string {
    if n < 10 then [('0' as int + n) as char] else Decimal(n / 10) + [('0' as int + n % 10) as char]
  }

  function Render(major: nat, minor: nat, patch: nat): string {
    Decimal(major) + "." + Decimal(minor) + "." + Decimal(patch)
  }

  lemma {:induction false} DecimalIsCanonical(n: nat)
    ensures IsCanonical(Decimal(n)) && NatOf(Decimal(n)) == n
    ensures 0 < n ==> Decimal(n)[0] != '0'
  {
    if n < 10 {
      assert Decimal(n)[..0] == "";
    } else {
      DecimalIsCanonical(n / 10);
      assert Decimal(n)[..|Decimal(n)| - 1] == Decimal(n / 10);
    }
  }

  lemma {:induction false} CanonicalIsDecimal(s: string)
    requires IsCanonical(s)
    ensures Decimal(NatOf(s)) == s
    ensures s != "0" ==> 0 < NatOf(s)
  {
    if |s| == 1 {
      assert s[..0] == "";
    } else {
      var shorter := s[..|s| - 1];
      assert shorter[0] != '0';
      CanonicalIsDecimal(shorter);
      assert NatOf(s) / 10 == NatOf(shorter);
    }
  }

  lemma {:induction false} SplitJoined(part: string, rest: string)
    requires forall i :: 0 <= i < |part| ==> part[i] != '.'
    ensures SplitDots(part + "." + rest) == [part] + SplitDots(rest)
    ensures SplitDots(part) == [part]
  {
    if part == "" {
      assert "" + "." + rest == "." + rest;
    } else {
      SplitJoined(part[1..], rest);
      assert (part + "." + rest)[1..] == part[1..] + "." + rest;
      assert part == [part[0]] + part[1..];
    }
  }

  function JoinDots(parts: seq<string>): string
    requires parts != []
  {
    if |parts| == 1 then parts[0] else parts[0] + "." + JoinDots(parts[1..])
  }

  lemma {:induction false} JoinSplit(s: string)
    ensures JoinDots(SplitDots(s)) == s
  {
    if s != "" {
      JoinSplit(s[1..]);
      JoinCons(s[0], SplitDots(s[1..]));
      assert s == [s[0]] + s[1..];
    }
  }

  lemma JoinCons(c: char, rest: seq<string>)
    requires rest != []
    ensures JoinDots([""] + rest) == "." + JoinDots(rest)
    ensures JoinDots([[c] + rest[0]] + rest[1..]) == [c] + JoinDots(rest)
  {
    JoinEmpty(rest);
    JoinLonger(c, rest[0], rest[1..]);
    assert rest == [rest[0]] + rest[1..];
  }

  lemma JoinLonger(c: char, head: string, tail: seq<string>)
    ensures JoinDots([[c] + head] + tail) == [c] + JoinDots([head] + tail)
  {
    assert ([[c] + head] + tail)[1..] == tail && ([head] + tail)[1..] == tail;
    if tail != [] {
      ConsAppend(c, head, JoinDots(tail));
    }
  }

  lemma ConsAppend(c: char, head: string, tail: string)
    ensures [c] + head + "." + tail == [c] + (head + "." + tail)
  {
  }

  lemma JoinEmpty(rest: seq<string>)
    requires rest != []
    ensures JoinDots([""] + rest) == "." + JoinDots(rest)
  {
    assert ([""] + rest)[1..] == rest;
    assert "" + "." + JoinDots(rest) == "." + JoinDots(rest);
  }

  lemma VersionIsTriple(v: string)
    requires IsVersion(v)
    ensures exists major: nat, minor: nat, patch: nat :: v == Render(major, minor, patch)
  {
    var parts := SplitDots(v);
    JoinSplit(v);
    JoinThree(parts);
    CanonicalIsDecimal(parts[0]);
    CanonicalIsDecimal(parts[1]);
    CanonicalIsDecimal(parts[2]);
    assert v == Render(NatOf(parts[0]), NatOf(parts[1]), NatOf(parts[2]));
  }

  lemma JoinThree(parts: seq<string>)
    requires |parts| == 3
    ensures JoinDots(parts) == parts[0] + "." + parts[1] + "." + parts[2]
  {
    var rest := parts[1..];
    assert rest[1..] == [parts[2]];
    assert JoinDots(rest) == parts[1] + "." + parts[2];
    assert parts[0] + "." + JoinDots(rest) == parts[0] + "." + parts[1] + "." + parts[2];
  }

  lemma TripleIsVersion(major: nat, minor: nat, patch: nat)
    ensures IsVersion(Render(major, minor, patch))
  {
    DecimalIsCanonical(major);
    DecimalIsCanonical(minor);
    DecimalIsCanonical(patch);
    SplitTriple(Decimal(major), Decimal(minor), Decimal(patch));
  }

  lemma SplitTriple(a: string, b: string, c: string)
    requires IsNumeral(a) && IsNumeral(b) && IsNumeral(c)
    ensures SplitDots(a + "." + b + "." + c) == [a, b, c]
  {
    SplitJoined(a, b + "." + c);
    SplitJoined(b, c);
    SplitJoined(c, "");
    Regroup(a + ".", b, ".", c);
  }

  /** The versions `VERSION` accepts are exactly the renderings of three naturals, so they follow
      section 2 of Semantic Versioning 2.0.0; the looser location patterns accept all of them. */
  lemma VersionsAreTriples(v: string)
    ensures IsVersion(v) <==> exists major: nat, minor: nat, patch: nat :: v == Render(major, minor, patch)
    ensures IsVersion(v) ==> IsDotted(v)
  {
    if IsVersion(v) {
      VersionIsTriple(v);
    }
    forall major: nat, minor: nat, patch: nat | v == Render(major, minor, patch)
      ensures IsVersion(v)
    {
      TripleIsVersion(major, minor, patch);
    }
  }

  // ----- patterns -----

  datatype Pattern = Pattern(lead: seq<string>, prefix: string, suffix: string)

  function LineOf(p: Pattern, v: string): string {
    p.prefix + v + p.suffix
  }

  // The version a line holds under the pattern.
  function MatchLine(p: Pattern, line: string): Option<string> {
    var n := |line| - |p.suffix|;
    if |p.prefix| <= n && line[..|p.prefix|] == p.prefix && line[n..] == p.suffix && IsDotted(line[|p.prefix|..n])
    then Some(line[|p.prefix|..n])
    else None
  }

  lemma MatchLineMeaning(p: Pattern, line: string, v: string)
    ensures MatchLine(p, line) == Some(v) <==> line == LineOf(p, v) && IsDotted(v)
  {
    if line == LineOf(p, v) {
      assert line[|p.prefix|..|line| - |p.suffix|] == v;
      assert line[..|p.prefix|] == p.prefix && line[|line| - |p.suffix|..] == p.suffix;
    }
    if MatchLine(p, line) == Some(v) {
      assert line == line[..|p.prefix|] + v + line[|line| - |p.suffix|..];
    }
  }

  function MatchAt(p: Pattern, text: Text, i: nat): Option<string>
    requires i < |text|
  {
    if |p.lead| <= i && text[i - |p.lead|..i] == p.lead then MatchLine(p, text[i]) else None
  }

  // What the pattern finds on each line.
  function Matches(p: Pattern, text: Text): (m: seq<Option<string>>)
    ensures |m| == |text| && forall i: nat :: i < |text| ==> m[i] == MatchAt(p, text, i)
  {
    seq(|text|, i requires 0 <= i < |text| => MatchAt(p, text, i))
  }

  function Values(m: seq<Option<string>>): seq<string> {
    if m == [] then [] else (if m[0].Some? then [m[0].value] else []) + Values(m[1..])
  }

  function FirstSome(m: seq<Option<string>>): (i: nat)
    ensures Values(m) != [] ==> i < |m|
  {
    if m == [] || m[0].Some? then 0 else 1 + FirstSome(m[1..])
  }

  function FindAll(p: Pattern, text: Text): seq<string> {
    Values(Matches(p, text))
  }

  // Line i holds version v and no other line matches.
  ghost predicate OnlySome(m: seq<Option<string>>, i: nat, v: string) {
    i < |m| && m[i] == Some(v) && forall j: nat :: j < |m| && j != i ==> m[j].None?
  }

  ghost predicate Only(p: Pattern, text: Text, i: nat, v: string) {
    OnlySome(Matches(p, text), i, v)
  }

  lemma {:induction false} ValuesEmpty(m: seq<Option<string>>)
    ensures Values(m) == [] <==> forall j: nat :: j < |m| ==> m[j].None?
  {
    if m != [] {
      ValuesEmpty(m[1..]);
      forall j: nat | 0 < j < |m|
        ensures m[1..][j - 1] == m[j]
      {
      }
    }
  }

  lemma {:induction false} ValuesFind(m: seq<Option<string>>, v: string) returns (i: nat)
    requires Values(m) == [v]
    ensures OnlySome(m, i, v)
  {
    if m[0].Some? {
      assert Values(m)[0] == m[0].value;
      ValuesEmpty(m[1..]);
      forall j: nat | 0 < j < |m|
        ensures m[j].None?
      {
        assert m[1..][j - 1] == m[j];
      }
      i := 0;
    } else {
      var k := ValuesFind(m[1..], v);
      i := k + 1;
      forall j: nat | 0 < j < |m|
        ensures m[1..][j - 1] == m[j]
      {
      }
    }
  }

  lemma {:induction false} ValuesOfOnly(m: seq<Option<string>>, i: nat, v: string)
    requires OnlySome(m, i, v)
    ensures Values(m) == [v] && FirstSome(m) == i
  {
    if i == 0 {
      ValuesEmpty(m[1..]);
    } else {
      assert OnlySome(m[1..], i - 1, v);
      ValuesOfOnly(m[1..], i - 1, v);
    }
  }

  lemma FindAllIsOnly(p: Pattern, text: Text, v: string)
    ensures FindAll(p, text) == [v] <==> exists i: nat :: Only(p, text, i, v)
  {
    if FindAll(p, text) == [v] {
      var i := ValuesFind(Matches(p, text), v);
      assert Only(p, text, i, v);
    }
    if i: nat :| Only(p, text, i, v) {
      ValuesOfOnly(Matches(p, text), i, v);
    }
  }

  function ReplaceOne(text: Text, p: Pattern, old_: string, new_: string): Result<Text, string> {
    if FindAll(p, text) != [old_] then Err("does not contain exactly one expected version")
    else Ok(text[FirstSome(Matches(p, text)) := LineOf(p, new_)])
  }

  // The version line is told apart from the fixed lines above it.
  ghost predicate WellFormed(p: Pattern) {
    forall l :: l in p.lead ==> MatchLine(p, l).None?
  }

  lemma ReplaceOneMeaning(text: Text, p: Pattern, old_: string, new_: string)
    ensures ReplaceOne(text, p, old_, new_).Ok? <==> exists i: nat :: Only(p, text, i, old_)
    ensures forall i: nat :: Only(p, text, i, old_) ==> ReplaceOne(text, p, old_, new_) == Ok(text[i := LineOf(p, new_)])
  {
    FindAllIsOnly(p, text, old_);
    forall i: nat | Only(p, text, i, old_)
      ensures ReplaceOne(text, p, old_, new_) == Ok(text[i := LineOf(p, new_)])
    {
      ValuesOfOnly(Matches(p, text), i, old_);
    }
  }

  lemma OnlyAfter(p: Pattern, text: Text, i: nat, old_: string, new_: string)
    requires WellFormed(p) && IsDotted(new_) && Only(p, text, i, old_)
    ensures Only(p, text[i := LineOf(p, new_)], i, new_)
  {
    var text' := text[i := LineOf(p, new_)];
    MatchLineMeaning(p, text[i], old_);
    MatchLineMeaning(p, text'[i], new_);
    forall j: nat | j < |text|
      ensures MatchAt(p, text', j) == if j == i then Some(new_) else MatchAt(p, text, j)
    {
      assert MatchAt(p, text, i) == Some(old_);
      SameLead(p, p, text, i, new_, j);
    }
  }

  // Rewriting a line that matches q does not make or break the fixed lines of p.
  lemma SameLead(p: Pattern, q: Pattern, text: Text, i: nat, new_: string, j: nat)
    requires i < |text| && j < |text| && IsDotted(new_) && MatchLine(q, text[i]).Some?
    requires forall l :: l in p.lead ==> MatchLine(q, l).None?
    ensures |p.lead| <= j ==>
              (text[i := LineOf(q, new_)][j - |p.lead|..j] == p.lead <==> text[j - |p.lead|..j] == p.lead)
  {
    MatchLineMeaning(q, LineOf(q, new_), new_);
    var from := j - |p.lead|;
    var text' := text[i := LineOf(q, new_)];
    if 0 <= from <= i < j {
      LeadHasNoMatch(p, q, text, from, i, j);
      LeadHasNoMatch(p, q, text', from, i, j);
    } else if 0 <= from {
      assert text'[from..j] == text[from..j];
    }
  }

  lemma LeadHasNoMatch(p: Pattern, q: Pattern, text: Text, from: nat, i: nat, j: nat)
    requires from <= i < j <= |text| && j - from == |p.lead| && MatchLine(q, text[i]).Some?
    requires forall l :: l in p.lead ==> MatchLine(q, l).None?
    ensures text[from..j] != p.lead
  {
    assert text[from..j][i - from] == text[i];
    assert p.lead[i - from] in p.lead;
  }

  /** Replacing the one version of a file changes nothing but that version, leaves exactly the new
      version, and replacing it back gives the old text. */
  lemma ReplaceRoundTrip(text: Text, p: Pattern, old_: string, new_: string)
    requires WellFormed(p) && IsDotted(new_)
    requires ReplaceOne(text, p, old_, new_).Ok?
    ensures var text' := ReplaceOne(text, p, old_, new_).value;
            && |text'| == |text|
            && FindAll(p, text') == [new_]
            && ReplaceOne(text', p, new_, old_) == Ok(text)
            && exists i: nat :: i < |text| && text[i] == LineOf(p, old_) && text' == text[i := LineOf(p, new_)]
  {
    ReplaceOneMeaning(text, p, old_, new_);
    var i: nat :| Only(p, text, i, old_);
    var text' := text[i := LineOf(p, new_)];
    OnlyAfter(p, text, i, old_, new_);
    FindAllIsOnly(p, text', new_);
    ReplaceOneMeaning(text', p, new_, old_);
    MatchLineMeaning(p, text[i], old_);
    assert text'[i := LineOf(p, old_)] == text;
  }

  // The two patterns never speak about the same line.
  ghost predicate Independent(p: Pattern, q: Pattern) {
    && (forall line :: MatchLine(p, line).None? || MatchLine(q, line).None?)
    && (forall l :: l in p.lead ==> MatchLine(q, l).None?)
    && (forall l :: l in q.lead ==> MatchLine(p, l).None?)
  }

  lemma OnlyElsewhere(p: Pattern, q: Pattern, text: Text, i: nat, new_: string, k: nat, v: string)
    requires Independent(p, q) && i < |text| && MatchLine(p, text[i]).Some? && IsDotted(new_)
    ensures Only(q, text[i := LineOf(p, new_)], k, v) <==> Only(q, text, k, v)
  {
    var text' := text[i := LineOf(p, new_)];
    MatchLineMeaning(p, text'[i], new_);
    forall j: nat | j < |text|
      ensures MatchAt(q, text', j) == MatchAt(q, text, j)
    {
      SameLead(q, p, text, i, new_, j);
    }
  }

  lemma ReplaceAt(text: Text, p: Pattern, i: nat, old_: string, new_: string)
    requires Only(p, text, i, old_)
    ensures ReplaceOne(text, p, old_, new_) == Ok(text[i := LineOf(p, new_)])
    ensures MatchLine(p, text[i]).Some?
  {
    ReplaceOneMeaning(text, p, old_, new_);
    assert MatchAt(p, text, i) == Some(old_);
  }

  lemma ReplacedWhere(text: Text, p: Pattern, old_: string, new_: string) returns (i: nat)
    requires ReplaceOne(text, p, old_, new_).Ok?
    ensures Only(p, text, i, old_)
  {
    ReplaceOneMeaning(text, p, old_, new_);
    i :| Only(p, text, i, old_);
  }

  lemma DifferentLines(text: Text, p: Pattern, q: Pattern, i: nat, k: nat, old_: string)
    requires Independent(p, q) && Only(p, text, i, old_) && Only(q, text, k, old_)
    ensures i != k && MatchLine(p, text[i]).Some? && MatchLine(q, text[k]).Some?
  {
    assert MatchAt(p, text, i) == Some(old_) && MatchAt(q, text, k) == Some(old_);
  }

  // Two edits of different lines, each possible after the other.
  lemma ReplaceSwap(text: Text, p: Pattern, q: Pattern, i: nat, k: nat, old_: string, new_: string)
    requires i < |text| && k < |text| && i != k
    requires Only(q, text[i := LineOf(p, new_)], k, old_) && Only(p, text[k := LineOf(q, new_)], i, old_)
    ensures ReplaceOne(text[k := LineOf(q, new_)], p, old_, new_) == ReplaceOne(text[i := LineOf(p, new_)], q, old_, new_)
    ensures ReplaceOne(text[i := LineOf(p, new_)], q, old_, new_).Ok?
  {
    var viaP, viaQ := text[i := LineOf(p, new_)], text[k := LineOf(q, new_)];
    ReplaceAt(viaP, q, k, old_, new_);
    ReplaceAt(viaQ, p, i, old_, new_);
    SwapUpdates(text, i, k, LineOf(p, new_), LineOf(q, new_));
  }

  lemma SwapUpdates<T>(s: seq<T>, i: nat, k: nat, a: T, b: T)
    requires i < |s| && k < |s| && i != k
    ensures s[i := a][k := b] == s[k := b][i := a]
  {
  }

  /** Two edits of one file by independent patterns compose in either order: the second succeeds
      after the first exactly when it would have succeeded before it, with the same final file. */
  lemma ReplaceCommutes(text: Text, p: Pattern, q: Pattern, old_: string, new_: string)
    requires Independent(p, q) && IsDotted(new_)
    requires ReplaceOne(text, p, old_, new_).Ok?
    ensures var viaP := ReplaceOne(text, p, old_, new_).value;
            && (ReplaceOne(viaP, q, old_, new_).Ok? <==> ReplaceOne(text, q, old_, new_).Ok?)
            && (ReplaceOne(text, q, old_, new_).Ok? ==>
                  ReplaceOne(ReplaceOne(text, q, old_, new_).value, p, old_, new_) == ReplaceOne(viaP, q, old_, new_))
  {
    var i := ReplacedWhere(text, p, old_, new_);
    ReplaceAt(text, p, i, old_, new_);
    var viaP := text[i := LineOf(p, new_)];
    if ReplaceOne(text, q, old_, new_).Ok? {
      var k := ReplacedWhere(text, q, old_, new_);
      ReplaceAt(text, q, k, old_, new_);
      DifferentLines(text, p, q, i, k, old_);
      OnlyElsewhere(p, q, text, i, new_, k, old_);
      OnlyElsewhere(q, p, text, k, new_, i, old_);
      ReplaceSwap(text, p, q, i, k, old_, new_);
    } else if ReplaceOne(viaP, q, old_, new_).Ok? {
      var k := ReplacedWhere(viaP, q, old_, new_);
      OnlyElsewhere(p, q, text, i, new_, k, old_);
      ReplaceAt(text, q, k, old_, new_);
    }
  }

  // ----- planning a change of version -----

  datatype Location = Location(path: Path, pattern: Pattern, optional: bool)

  type Files = map<Path, Text>

  // One location; an optional file may be missing.
  function PlanOne(files: Files, l: Location, old_: string, new_: string): Result<Files, string> {
    if l.path !in files then if l.optional then Ok(files) else Err("missing file")
    else
      match ReplaceOne(files[l.path], l.pattern, old_, new_)
      case Ok(text) => Ok(files[l.path := text])
      case Err(e) => Err(e)
  }

  // The files once every location has been rewritten, in order.
  function PlanAll(files: Files, locations: seq<Location>, old_: string, new_: string): Result<Files, string> {
    if locations == [] then Ok(files)
    else
      match PlanOne(files, locations[0], old_, new_)
      case Ok(next) => PlanAll(next, locations[1..], old_, new_)
      case Err(e) => Err(e)
  }

  /** Plans without writing: the result holds the new text of every file a location names. */
  method PlannedReplacements(files: Files, locations: seq<Location>, old_: string, new_: string)
    returns (result: Result<Files, string>)
    ensures !IsVersion(old_) || !IsVersion(new_) ==> result.Err?
    ensures IsVersion(old_) && IsVersion(new_) ==>
              match PlanAll(files, locations, old_, new_)
              case Ok(after) => result.Ok? && files + result.value == after
                                && result.value.Keys == Touched(files, locations)
              case Err(_) => result.Err?
  {
    if !IsVersion(old_) || !IsVersion(new_) {
      return Err("version must use MAJOR.MINOR.PATCH");
    }
    var replacements: Files := map[];
    assert files + replacements == files && locations[0..] == locations;
    for n := 0 to |locations|
      invariant replacements.Keys == Touched(files, locations[..n])
      invariant PlanAll(files, locations, old_, new_) == PlanAll(files + replacements, locations[n..], old_, new_)
    {
      PlanStep(files, replacements, locations, n, old_, new_);
      var planned := PlanLocation(files, replacements, locations[n], old_, new_);
      if planned.Err? {
        return Err(planned.error);
      }
      replacements := planned.value;
    }
    assert locations[..|locations|] == locations;
    result := Ok(replacements);
  }

  // One location, with the replacements planned so far.
  method PlanLocation(files: Files, replacements: Files, l: Location, old_: string, new_: string)
    returns (result: Result<Files, string>)
    requires replacements.Keys <= files.Keys
    ensures match PlanOne(files + replacements, l, old_, new_)
            case Ok(next) => result.Ok? && files + result.value == next
                             && result.value.Keys == replacements.Keys + (if l.path in files then {l.path} else {})
            case Err(_) => result.Err?
  {
    if l.path !in files {
      return if l.optional then Ok(replacements) else Err("missing file");
    }
    var content := if l.path in replacements then replacements[l.path] else files[l.path];
    var replaced := ReplaceOne(content, l.pattern, old_, new_);
    if replaced.Err? {
      return Err(replaced.error);
    }
    MapPut(files, replacements, l.path, replaced.value);
    result := Ok(replacements[l.path := replaced.value]);
  }

  // The existing files that the locations name.
  function Touched(files: Files, locations: seq<Location>): set<Path> {
    set l | l in locations && l.path in files :: l.path
  }

  lemma MapPut(files: Files, more: Files, path: Path, text: Text)
    ensures (files + more)[path := text] == files + more[path := text]
  {
  }

  lemma PlanStep(files: Files, replacements: Files, locations: seq<Location>, n: nat, old_: string, new_: string)
    requires n < |locations| && replacements.Keys == Touched(files, locations[..n])
    ensures var l := locations[n];
            && Touched(files, locations[..n + 1]) == Touched(files, locations[..n]) + (if l.path in files then {l.path} else {})
            && (files + replacements).Keys == files.Keys
            && PlanAll(files + replacements, locations[n..], old_, new_) ==
               match PlanOne(files + replacements, l, old_, new_) {
                 case Ok(next) => PlanAll(next, locations[n + 1..], old_, new_)
                 case Err(e) => Err(e)
               }
  {
    assert locations[n..][1..] == locations[n + 1..];
    assert locations[..n + 1] == locations[..n] + [locations[n]];
  }

  // Every pattern is well formed, and locations in one file speak about different lines.
  ghost predicate LocationsOk(locations: seq<Location>) {
    && (forall l :: l in locations ==> WellFormed(l.pattern))
    && (forall i, j :: 0 <= i < j < |locations| && locations[i].path == locations[j].path ==>
          Independent(locations[i].pattern, locations[j].pattern))
  }

  lemma LocationsTail(locations: seq<Location>)
    requires LocationsOk(locations) && locations != []
    ensures LocationsOk(locations[1..]) && WellFormed(locations[0].pattern)
    ensures forall l :: l in locations[1..] && l.path == locations[0].path ==> Independent(locations[0].pattern, l.pattern)
  {
    var rest := locations[1..];
    forall l | l in rest && l.path == locations[0].path
      ensures Independent(locations[0].pattern, l.pattern)
    {
      var j :| 0 <= j < |rest| && rest[j] == l;
      assert locations[j + 1] == l;
    }
    forall i, j | 0 <= i < j < |rest| && rest[i].path == rest[j].path
      ensures Independent(rest[i].pattern, rest[j].pattern)
    {
      assert locations[i + 1] == rest[i] && locations[j + 1] == rest[j];
    }
    assert locations[0] in locations;
  }

  lemma PlanOneRoundTrip(files: Files, l: Location, old_: string, new_: string)
    requires WellFormed(l.pattern) && IsDotted(new_) && PlanOne(files, l, old_, new_).Ok?
    ensures PlanOne(PlanOne(files, l, old_, new_).value, l, new_, old_) == Ok(files)
    ensures PlanOne(files, l, old_, new_).value.Keys == files.Keys
  {
    if l.path in files {
      ReplaceRoundTrip(files[l.path], l.pattern, old_, new_);
      var after := PlanOne(files, l, old_, new_).value;
      assert after[l.path := files[l.path]] == files;
    }
  }

  lemma MapSwap(files: Files, a: Path, b: Path, ta: Text, tb: Text)
    requires a != b
    ensures files[a := ta][b := tb] == files[b := tb][a := ta]
  {
  }

  lemma MapPutTwice(files: Files, a: Path, first: Text, second: Text)
    ensures files[a := first][a := second] == files[a := second]
  {
  }

  lemma PlanOneCommutesInFile(files: Files, next: Files, l: Location, m: Location, old_: string, new_: string)
    requires IsDotted(new_) && l.path == m.path && l.path in files && Independent(l.pattern, m.pattern)
    requires PlanOne(files, l, old_, new_) == Ok(next)
    ensures PlanOne(next, m, old_, new_).Ok? ==>
              && PlanOne(files, m, old_, new_).Ok?
              && PlanOne(PlanOne(files, m, old_, new_).value, l, old_, new_) == PlanOne(next, m, old_, new_)
  {
    var text := files[l.path];
    ReplaceCommutes(text, l.pattern, m.pattern, old_, new_);
    var viaL := ReplaceOne(text, l.pattern, old_, new_).value;
    if ReplaceOne(viaL, m.pattern, old_, new_).Ok? {
      var viaM := ReplaceOne(text, m.pattern, old_, new_).value;
      var both := ReplaceOne(viaL, m.pattern, old_, new_).value;
      MapPutTwice(files, l.path, viaL, both);
      MapPutTwice(files, l.path, viaM, both);
    }
  }

  lemma PlanOneCommutes(files: Files, next: Files, l: Location, m: Location, old_: string, new_: string)
    requires IsDotted(new_) && (l.path == m.path ==> Independent(l.pattern, m.pattern))
    requires PlanOne(files, l, old_, new_) == Ok(next)
    requires PlanOne(next, m, old_, new_).Ok?
    ensures PlanOne(files, m, old_, new_).Ok?
    ensures PlanOne(PlanOne(files, m, old_, new_).value, l, old_, new_) == PlanOne(next, m, old_, new_)
  {
    if l.path in files && m.path in files {
      if l.path == m.path {
        PlanOneCommutesInFile(files, next, l, m, old_, new_);
      } else {
        MapSwap(files, l.path, m.path,
                ReplaceOne(files[l.path], l.pattern, old_, new_).value,
                ReplaceOne(files[m.path], m.pattern, old_, new_).value);
      }
    }
  }

  // A location can be rewritten after the others instead of before them.
  lemma {:induction false} PlanOneLast(files: Files, l: Location, rest: seq<Location>, old_: string, new_: string)
    requires IsDotted(new_)
    requires forall m :: m in rest && m.path == l.path ==> Independent(l.pattern, m.pattern)
    requires PlanOne(files, l, old_, new_).Ok? && PlanAll(PlanOne(files, l, old_, new_).value, rest, old_, new_).Ok?
    ensures PlanAll(files, rest, old_, new_).Ok?
    ensures PlanOne(PlanAll(files, rest, old_, new_).value, l, old_, new_) ==
            PlanAll(PlanOne(files, l, old_, new_).value, rest, old_, new_)
    decreases |rest|
  {
    if rest != [] {
      assert rest[0] in rest;
      PlanOneCommutes(files, PlanOne(files, l, old_, new_).value, l, rest[0], old_, new_);
      PlanOneLast(PlanOne(files, rest[0], old_, new_).value, l, rest[1..], old_, new_);
    }
  }

  /** Planning a new version and planning the old one again restores every text file exactly, however
      many locations share a file. */
  lemma {:induction false} PlanRoundTrip(files: Files, locations: seq<Location>, old_: string, new_: string)
    requires LocationsOk(locations) && IsDotted(old_) && IsDotted(new_)
    requires PlanAll(files, locations, old_, new_).Ok?
    ensures PlanAll(PlanAll(files, locations, old_, new_).value, locations, new_, old_) == Ok(files)
    decreases |locations|
  {
    if locations != [] {
      var l, rest := locations[0], locations[1..];
      LocationsTail(locations);
      PlanOneLast(files, l, rest, old_, new_);
      var others := PlanAll(files, rest, old_, new_).value;
      PlanOneRoundTrip(others, l, old_, new_);
      PlanRoundTrip(files, rest, old_, new_);
    }
  }

  lemma PlanOneElsewhere(files: Files, l: Location, m: Location, old_: string, new_: string)
    requires IsDotted(new_) && (l.path == m.path ==> Independent(m.pattern, l.pattern))
    requires PlanOne(files, m, old_, new_).Ok? && l.path in files
    requires FindAll(l.pattern, files[l.path]) == [new_]
    ensures FindAll(l.pattern, PlanOne(files, m, old_, new_).value[l.path]) == [new_]
  {
    if m.path in files && l.path == m.path {
      var text := files[l.path];
      ReplaceOneMeaning(text, m.pattern, old_, new_);
      var i: nat :| Only(m.pattern, text, i, old_);
      FindAllIsOnly(l.pattern, text, new_);
      var k: nat :| Only(l.pattern, text, k, new_);
      OnlyElsewhere(m.pattern, l.pattern, text, i, new_, k, new_);
      FindAllIsOnly(l.pattern, text[i := LineOf(m.pattern, new_)], new_);
    }
  }

  lemma {:induction false} PlanKeeps(files: Files, l: Location, rest: seq<Location>, old_: string, new_: string)
    requires IsDotted(new_)
    requires forall m :: m in rest && m.path == l.path ==> Independent(l.pattern, m.pattern)
    requires l.path in files && FindAll(l.pattern, files[l.path]) == [new_]
    requires PlanAll(files, rest, old_, new_).Ok?
    ensures var after := PlanAll(files, rest, old_, new_).value;
            after.Keys == files.Keys && FindAll(l.pattern, after[l.path]) == [new_]
    decreases |rest|
  {
    if rest != [] {
      assert rest[0] in rest;
      PlanOneElsewhere(files, l, rest[0], old_, new_);
      PlanKeeps(PlanOne(files, rest[0], old_, new_).value, l, rest[1..], old_, new_);
    }
  }

  /** After the planned replacements every location whose file exists holds exactly one version, the
      new one. */
  lemma {:induction false} PlanReadsNew(files: Files, locations: seq<Location>, old_: string, new_: string)
    requires LocationsOk(locations) && IsDotted(new_)
    requires PlanAll(files, locations, old_, new_).Ok?
    ensures var after := PlanAll(files, locations, old_, new_).value;
            after.Keys == files.Keys
            && forall l :: l in locations && l.path in files ==> FindAll(l.pattern, after[l.path]) == [new_]
    decreases |locations|
  {
    if locations != [] {
      var l, rest := locations[0], locations[1..];
      LocationsTail(locations);
      PlanOneRoundTrip(files, l, old_, new_);
      var next := PlanOne(files, l, old_, new_).value;
      PlanReadsNew(next, rest, old_, new_);
      if l.path in files {
        ReplaceRoundTrip(files[l.path], l.pattern, old_, new_);
        PlanKeeps(next, l, rest, old_, new_);
      }
      assert locations == [l] + rest;
    }
  }

  // ----- the chart, which is read more loosely than it is rewritten -----

  const CHART_VERSION := Pattern([], "version: ", "")
  const CHART_APP_VERSION := Pattern([], "appVersion: \"", "\"")

  predicate IsSpace(c: char) {
    c == ' ' || c == '\t' || c == '\r'
  }

  predicate IsQuote(c: char) {
    c == '"' || c == '\''
  }

  function DropSpaces(s: string): string {
    if s != "" && IsSpace(s[0]) then DropSpaces(s[1..]) else s
  }

  function DropQuotes(s: string): string {
    var left := if s != "" && IsQuote(s[0]) then s[1..] else s;
    if left != "" && IsQuote(left[|left| - 1]) then left[..|left| - 1] else left
  }

  predicate IsBare(value: string) {
    value != "" && forall i :: 0 <= i < |value| ==> !IsSpace(value[i]) && !IsQuote(value[i])
  }

  // The value a line of Chart.yaml gives to a key: spaces and quotes around it are optional.
  function LooseValue(key: string, line: string): Option<string> {
    if |line| <= |key| || line[..|key|] != key || line[|key|] != ':' then None
    else
      var value := DropQuotes(DropSpaces(line[|key| + 1..]));
      if IsBare(value) then Some(value) else None
  }

  // The last line that gives the key a value decides.
  function ChartValue(key: string, text: Text): Option<string> {
    if text == [] then None
    else
      var last := LooseValue(key, text[|text| - 1]);
      if last.Some? then last else ChartValue(key, text[..|text| - 1])
  }

  // The line is the key, a colon, any spaces, and the value, with or without a quote on either side.
  ghost predicate IsLoose(key: string, line: string, spaces: string, opening: string, value: string, closing: string) {
    && line == key + ":" + (spaces + (opening + value + closing))
    && (forall i :: 0 <= i < |spaces| ==> spaces[i] in {' ', '\t', '\r'})
    && opening in {"", "\"", "'"} && closing in {"", "\"", "'"}
    && value != "" && forall i :: 0 <= i < |value| ==> value[i] !in {' ', '\t', '\r', '"', '\''}
  }

  lemma {:induction false} SpacesAreDropped(spaces: string, rest: string)
    requires forall i :: 0 <= i < |spaces| ==> IsSpace(spaces[i])
    requires rest != "" && !IsSpace(rest[0])
    ensures DropSpaces(spaces + rest) == rest
  {
    if spaces == "" {
      assert spaces + rest == rest;
    } else {
      SpacesAreDropped(spaces[1..], rest);
      assert (spaces + rest)[1..] == spaces[1..] + rest;
    }
  }

  lemma {:induction false} SpacesInFront(s: string) returns (spaces: string)
    ensures s == spaces + DropSpaces(s) && forall i :: 0 <= i < |spaces| ==> IsSpace(spaces[i])
  {
    spaces := "";
    if s != "" && IsSpace(s[0]) {
      var more := SpacesInFront(s[1..]);
      spaces := [s[0]] + more;
      assert s == [s[0]] + s[1..];
    }
  }

  lemma QuotesAround(s: string) returns (opening: string, closing: string)
    ensures s == opening + DropQuotes(s) + closing
    ensures (opening == "" || opening == "\"" || opening == "'") && (closing == "" || closing == "\"" || closing == "'")
  {
    opening := if s != "" && IsQuote(s[0]) then s[..1] else "";
    var left := s[|opening|..];
    closing := if left != "" && IsQuote(left[|left| - 1]) then left[|left| - 1..] else "";
    assert left == DropQuotes(s) + closing && s == opening + left;
    assert s == opening + DropQuotes(s) + closing;
  }

  lemma QuotesAreDropped(opening: string, value: string, closing: string)
    requires (opening == "" || opening == "\"" || opening == "'") && (closing == "" || closing == "\"" || closing == "'")
    requires IsBare(value)
    ensures DropQuotes(opening + value + closing) == value
    ensures (opening + value + closing) != "" && !IsSpace((opening + value + closing)[0])
  {
    var s := opening + value + closing;
    assert s[|opening|..] == value + closing;
    assert (value + closing)[..|value|] == value;
  }

  /** What a line of the chart gives to a key, told from the form of the line. */
  lemma LooseMeaning(key: string, line: string, value: string)
    ensures LooseValue(key, line) == Some(value) <==>
            exists spaces, opening, closing :: IsLoose(key, line, spaces, opening, value, closing)
  {
    if LooseValue(key, line) == Some(value) {
      var rest := line[|key| + 1..];
      var spaces := SpacesInFront(rest);
      var opening, closing := QuotesAround(DropSpaces(rest));
      assert line == line[..|key|] + [line[|key|]] + rest;
      assert IsLoose(key, line, spaces, opening, value, closing);
    }
    if spaces, opening, closing :| IsLoose(key, line, spaces, opening, value, closing) {
      QuotesAreDropped(opening, value, closing);
      SpacesAreDropped(spaces, opening + value + closing);
      LooseOf(key, line, spaces + (opening + value + closing));
    }
  }

  // Line i gives the key the value, and no later line gives it one.
  ghost predicate GivesLast(key: string, text: Text, i: nat, value: string) {
    && i < |text| && LooseValue(key, text[i]) == Some(value)
    && forall j :: i < j < |text| ==> LooseValue(key, text[j]).None?
  }

  lemma GivesLastBefore(key: string, text: Text, i: nat, value: string)
    requires text != [] && LooseValue(key, text[|text| - 1]).None?
    ensures GivesLast(key, text, i, value) <==> GivesLast(key, text[..|text| - 1], i, value)
  {
    var n := |text| - 1;
    forall j | 0 <= j < n
      ensures text[..n][j] == text[j]
    {
    }
  }

  /** The chart's value of a key is that of the last line that gives it one. */
  lemma {:induction false} ChartValueMeaning(key: string, text: Text, value: string)
    ensures ChartValue(key, text) == Some(value) <==> exists i: nat :: GivesLast(key, text, i, value)
  {
    if text != [] {
      var n := |text| - 1;
      if LooseValue(key, text[n]).None? {
        ChartValueMeaning(key, text[..n], value);
        forall i: nat
          ensures GivesLast(key, text, i, value) <==> GivesLast(key, text[..n], i, value)
        {
          GivesLastBefore(key, text, i, value);
        }
      } else {
        assert GivesLast(key, text, n, LooseValue(key, text[n]).value);
      }
    }
  }

  method ChartVersions(text: Text) returns (result: Result<(string, string), string>)
    ensures ChartValue("version", text).Some? && ChartValue("appVersion", text).Some? ==>
              result == Ok((ChartValue("version", text).value, ChartValue("appVersion", text).value))
    ensures ChartValue("version", text).None? || ChartValue("appVersion", text).None? ==> result.Err?
  {
    var values: map<string, string> := map[];
    for n := 0 to |text|
      invariant values.Keys <= {"version", "appVersion"}
      invariant forall key :: key in {"version", "appVersion"} ==>
                  ChartValue(key, text[..n]) == if key in values then Some(values[key]) else None
    {
      assert text[..n + 1][..n] == text[..n];
      var version := LooseValue("version", text[n]);
      var appVersion := LooseValue("appVersion", text[n]);
      if version.Some? {
        values := values["version" := version.value];
      }
      if appVersion.Some? {
        values := values["appVersion" := appVersion.value];
      }
    }
    assert text[..|text|] == text;
    if "version" in values && "appVersion" in values {
      result := Ok((values["version"], values["appVersion"]));
    } else {
      result := Err("Chart.yaml must define version and appVersion");
    }
  }

  lemma DottedChars(v: string)
    requires IsDotted(v)
    ensures IsBare(v)
    ensures forall i :: 0 <= i < |v| ==> v[i] == '.' || IsDigit(v[i])
  {
    JoinSplit(v);
    JoinThree(SplitDots(v));
  }

  lemma LooseOf(key: string, line: string, value: string)
    requires line == key + ":" + value
    ensures LooseValue(key, line) ==
            (var v := DropQuotes(DropSpaces(value)); if IsBare(v) then Some(v) else None)
  {
    assert line[..|key|] == key && line[|key|] == ':' && line[|key| + 1..] == value;
  }

  lemma DropsOneSpace(s: string)
    requires s != "" && !IsSpace(s[0])
    ensures DropSpaces(" " + s) == s
  {
    assert (" " + s)[1..] == s;
  }

  lemma DropsQuotes(v: string, quote: string)
    requires IsBare(v) && |quote| == 1 && IsQuote(quote[0])
    ensures DropQuotes(v) == v && DropQuotes(quote + v + quote) == v
  {
    assert (quote + v + quote)[1..] == v + quote && (v + quote)[..|v|] == v;
  }

  lemma PlainIsLoose(key: string, v: string)
    requires IsDotted(v)
    ensures LooseValue(key, key + ":" + (" " + v)) == Some(v)
  {
    DottedChars(v);
    LooseOf(key, key + ":" + (" " + v), " " + v);
    DropsOneSpace(v);
    DropsQuotes(v, "'");
  }

  lemma QuotedIsLoose(key: string, v: string, quote: string)
    requires IsDotted(v) && |quote| == 1 && IsQuote(quote[0])
    ensures LooseValue(key, key + ":" + (" " + (quote + v + quote))) == Some(v)
  {
    DottedChars(v);
    var quoted := quote + v + quote;
    LooseOf(key, key + ":" + (" " + quoted), " " + quoted);
    DropsOneSpace(quoted);
    DropsQuotes(v, quote);
  }

  lemma ConcatAgain(a: string, b: string, c: string, d: string, v: string)
    requires a == b + c + d
    ensures a + v == b + c + (d + v)
  {
  }

  lemma StrictVersionIsLoose(v: string)
    requires IsDotted(v)
    ensures LooseValue("version", LineOf(CHART_VERSION, v)) == Some(v)
  {
    PlainIsLoose("version", v);
    ConcatAgain("version: ", "version", ":", " ", v);
    assert LineOf(CHART_VERSION, v) == "version: " + v;
  }

  lemma StrictAppVersionIsLoose(v: string)
    requires IsDotted(v)
    ensures LooseValue("appVersion", LineOf(CHART_APP_VERSION, v)) == Some(v)
  {
    QuotedIsLoose("appVersion", v, "\"");
    ConcatAgain("appVersion: ", "appVersion", ":", " ", "\"" + v + "\"");
    AppVersionLine(v);
  }

  lemma AppVersionLine(v: string)
    ensures LineOf(CHART_APP_VERSION, v) == "appVersion: " + ("\"" + v + "\"")
  {
    Regroup("appVersion: ", "\"", v, "\"");
    assert "appVersion: " + "\"" == "appVersion: \"";
  }

  lemma Regroup(a: string, b: string, c: string, d: string)
    ensures (a + b) + c + d == a + (b + c + d)
  {
  }

  lemma MatchStarts(p: Pattern, line: string)
    requires MatchLine(p, line).Some? && p.prefix != ""
    ensures line != "" && line[0] == p.prefix[0]
  {
    assert line[..|p.prefix|][0] == line[0];
  }

  /** The two edits of Chart.yaml speak about different lines, so they compose in either order. */
  lemma ChartEditsIndependent()
    ensures Independent(CHART_VERSION, CHART_APP_VERSION)
    ensures WellFormed(CHART_VERSION) && WellFormed(CHART_APP_VERSION)
  {
    forall line | MatchLine(CHART_VERSION, line).Some?
      ensures MatchLine(CHART_APP_VERSION, line).None?
    {
      MatchStarts(CHART_VERSION, line);
      if MatchLine(CHART_APP_VERSION, line).Some? {
        MatchStarts(CHART_APP_VERSION, line);
      }
    }
  }

  // No line after i gives the key a value.
  predicate LastFor(key: string, text: Text, i: nat) {
    forall j :: i < j < |text| ==> LooseValue(key, text[j]).None?
  }

  lemma {:induction false} ChartValueAt(key: string, text: Text, i: nat)
    requires i < |text| && LastFor(key, text, i) && LooseValue(key, text[i]).Some?
    ensures ChartValue(key, text) == LooseValue(key, text[i])
  {
    if i < |text| - 1 {
      ChartValueAt(key, text[..|text| - 1], i);
    }
  }

  lemma {:induction false} ChartValueIgnores(key: string, text: Text, i: nat, line: string)
    requires i < |text| && !LastFor(key, text, i)
    ensures ChartValue(key, text[i := line]) == ChartValue(key, text)
  {
    var n := |text| - 1;
    var j :| i < j < |text| && LooseValue(key, text[j]).Some?;
    var text' := text[i := line];
    assert text'[n] == text[n];
    if j == n || LooseValue(key, text[n]).Some? {
      assert ChartValue(key, text') == LooseValue(key, text[n]);
    } else {
      assert text[..n][j] == text[j];
      ChartValueIgnores(key, text[..n], i, line);
      assert text'[..n] == text[..n][i := line];
    }
  }

  /** A bump rewrites the strictly written line but reads the chart back loosely.  After a chart that
      read as the old version was rewritten, it reads as the new one exactly when no later line of
      the file gives the key a value too. */
  lemma ChartReadsNew(text: Text, key: string, p: Pattern, i: nat, old_: string, new_: string)
    requires (key == "version" && p == CHART_VERSION) || (key == "appVersion" && p == CHART_APP_VERSION)
    requires IsDotted(old_) && IsDotted(new_) && old_ != new_
    requires Only(p, text, i, old_) && ChartValue(key, text) == Some(old_)
    ensures ReplaceOne(text, p, old_, new_).Ok?
    ensures ChartValue(key, ReplaceOne(text, p, old_, new_).value) == Some(new_) <==> LastFor(key, text, i)
  {
    ReplaceAt(text, p, i, old_, new_);
    if key == "version" {
      StrictVersionIsLoose(new_);
    } else {
      StrictAppVersionIsLoose(new_);
    }
    if LastFor(key, text, i) {
      ChartValueAt(key, text[i := LineOf(p, new_)], i);
    } else {
      ChartValueIgnores(key, text, i, LineOf(p, new_));
    }
  }

  lemma SecondQuote(value: string, quoted: string)
    requires LineOf(CHART_VERSION, value) == "version" + ":" + (" " + quoted)
    ensures value == quoted
  {
    ConcatAgain("version: ", "version", ":", " ", quoted);
    assert ("version: " + quoted)[9..] == quoted && ("version: " + value)[9..] == value;
    assert LineOf(CHART_VERSION, value) == "version: " + value;
  }

  // A line whose value is quoted is not one that a bump rewrites.
  lemma QuotedIsNotStrict(v: string)
    ensures MatchLine(CHART_VERSION, "version" + ":" + (" " + ("'" + v + "'"))).None?
  {
    var line := "version" + ":" + (" " + ("'" + v + "'"));
    if MatchLine(CHART_VERSION, line).Some? {
      var value := MatchLine(CHART_VERSION, line).value;
      MatchLineMeaning(CHART_VERSION, line, value);
      DottedChars(value);
      SecondQuote(value, "'" + v + "'");
    }
  }

  /** A chart with a strict and a later quoted version line: the plan succeeds, and the file it
      plans still reads as the old version, whatever the two versions are. */
  lemma ChartCanDisagree(old_: string, new_: string)
    requires IsDotted(old_) && IsDotted(new_) && old_ != new_
    ensures var text := [LineOf(CHART_VERSION, old_), "version" + ":" + (" " + ("'" + old_ + "'"))];
            && ChartValue("version", text) == Some(old_)
            && ReplaceOne(text, CHART_VERSION, old_, new_).Ok?
            && ChartValue("version", ReplaceOne(text, CHART_VERSION, old_, new_).value) == Some(old_)
  {
    var text := [LineOf(CHART_VERSION, old_), "version" + ":" + (" " + ("'" + old_ + "'"))];
    QuotedIsLoose("version", old_, "'");
    QuotedIsNotStrict(old_);
    MatchLineMeaning(CHART_VERSION, text[0], old_);
    assert Only(CHART_VERSION, text, 0, old_);
    ChartValueAt("version", text, 1);
    ReplaceAt(text, CHART_VERSION, 0, old_, new_);
    assert !LastFor("version", text, 0);
    ChartValueIgnores("version", text, 0, LineOf(CHART_VERSION, new_));
  }

  // ----- the locations of this repository -----

  const IMAGE := "ghcr.io/aliyun/alibabacloud-polardb-tool-agentic-server:"
  const PACKAGE := "\"alibabacloud-polardb-tool-agentic-server\""
  const PAS_VERSION := Pattern([], "PAS_VERSION=\"${PAS_VERSION:-", "}\"")
  const COMPOSE_IMAGE := Pattern([], "  image: ${PAS_IMAGE:-" + IMAGE, "}")
  const PYTHON_LOCK := Pattern(["[[package]]", "name = " + PACKAGE], "version = \"", "\"")

  const LOCATIONS := [
    Location(PyProject, Pattern([], "version = \"", "\""), false),
    Location(Chart, CHART_VERSION, false),
    Location(Chart, CHART_APP_VERSION, false),
    Location(InternalPipeline, Pattern([], "  IMAGE_TAG: ", ""), true),
    Location(CanonicalDockerSkill, PAS_VERSION, false),
    Location(CanonicalSourceSkill, PAS_VERSION, false),
    Location(ClaudeDockerSkill, PAS_VERSION, false),
    Location(ClaudeSourceSkill, PAS_VERSION, false),
    Location(Runtime, Pattern([], "__version__ = \"", "\""), false),
    Location(PythonLock, PYTHON_LOCK, false),
    Location(Dockerfile, Pattern([], "ARG VERSION=", ""), false),
    Location(Compose, COMPOSE_IMAGE, false),
    Location(ComposeEnvironment, Pattern([], "PAS_IMAGE=" + IMAGE, ""), false),
    Location(ComposeExternalMysql, COMPOSE_IMAGE, false),
    Location(ComposeExternalPostgres, COMPOSE_IMAGE, false),
    Location(EnvironmentGenerator, Pattern([], "DEFAULT_PAS_IMAGE=" + IMAGE, ""), false),
    Location(HelmValues, Pattern([], "  tag: \"", "\""), false)
  ]

  function Place(path: Path): nat {
    match path
    case PyProject => 0
    case Chart => 1
    case InternalPipeline => 3
    case CanonicalDockerSkill => 4
    case CanonicalSourceSkill => 5
    case ClaudeDockerSkill => 6
    case ClaudeSourceSkill => 7
    case Runtime => 8
    case PythonLock => 9
    case Dockerfile => 10
    case Compose => 11
    case ComposeEnvironment => 12
    case ComposeExternalMysql => 13
    case ComposeExternalPostgres => 14
    case EnvironmentGenerator => 15
    case HelmValues => 16
  }

  // Only the two Chart.yaml locations share a file, and only the lock file has fixed lines.
  ghost predicate Placed(locations: seq<Location>) {
    && |locations| >= 3
    && locations[1].pattern == CHART_VERSION && locations[2].pattern == CHART_APP_VERSION
    && (forall i: nat :: i < |locations| ==> Place(locations[i].path) == if i == 2 then 1 else i)
    && (forall i: nat :: i < |locations| ==> locations[i].pattern.lead == [] || locations[i].pattern == PYTHON_LOCK)
  }

  lemma EachHasItsPlace()
    ensures forall i: nat :: i < |LOCATIONS| ==> Place(LOCATIONS[i].path) == if i == 2 then 1 else i
  {
  }

  lemma LocationsArePlaced()
    ensures Placed(LOCATIONS)
  {
    EachHasItsPlace();
  }

  lemma PythonLockOk()
    ensures WellFormed(PYTHON_LOCK)
  {
    forall l | l in PYTHON_LOCK.lead
      ensures MatchLine(PYTHON_LOCK, l).None?
    {
      assert "name = "[0] == 'n' && "[[package]]"[0] == '[';
      assert l == "[[package]]" || l == "name = " + PACKAGE;
      if MatchLine(PYTHON_LOCK, l).Some? {
        MatchStarts(PYTHON_LOCK, l);
      }
    }
  }

  lemma PlacedIsOk(locations: seq<Location>)
    requires Placed(locations)
    ensures LocationsOk(locations)
  {
    PythonLockOk();
    ChartEditsIndependent();
    forall i: nat, j: nat | i < j < |locations| && locations[i].path == locations[j].path
      ensures Independent(locations[i].pattern, locations[j].pattern)
    {
      assert Place(locations[i].path) == Place(locations[j].path);
    }
  }

  /** A bump of this repository's text files: whenever planning succeeds, every location whose file
      exists reads as the new version, and planning the old version back gives every file exactly. */
  lemma BumpAndBack(files: Files, old_: string, new_: string)
    requires IsVersion(old_) && IsVersion(new_)
    ensures PlanAll(files, LOCATIONS, old_, new_).Ok? ==>
              var after := PlanAll(files, LOCATIONS, old_, new_).value;
              && PlanAll(after, LOCATIONS, new_, old_) == Ok(files)
              && after.Keys == files.Keys
              && forall l :: l in LOCATIONS && l.path in files ==> FindAll(l.pattern, after[l.path]) == [new_]
  {
    LocationsArePlaced();
    PlacedIsOk(LOCATIONS);
    VersionsAreTriples(old_);
    VersionsAreTriples(new_);
    PlanThereAndBack(files, LOCATIONS, old_, new_);
  }

  lemma PlanThereAndBack(files: Files, locations: seq<Location>, old_: string, new_: string)
    requires LocationsOk(locations) && IsDotted(old_) && IsDotted(new_)
    ensures PlanAll(files, locations, old_, new_).Ok? ==>
              var after := PlanAll(files, locations, old_, new_).value;
              && PlanAll(after, locations, new_, old_) == Ok(files)
              && after.Keys == files.Keys
              && forall l :: l in locations && l.path in files ==> FindAll(l.pattern, after[l.path]) == [new_]
  {
    if PlanAll(files, locations, old_, new_).Ok? {
      PlanRoundTrip(files, locations, old_, new_);
      PlanReadsNew(files, locations, old_, new_);
    }
  }
}
