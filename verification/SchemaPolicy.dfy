/**
 The migration-policy visitor of scripts/ci/check_schema_policy.py: a depth-first walk over
 `upgrade()` that follows calls into helper functions through alias chains.

 `Visitor` is the imperative visitor.  Its result is proved equal to `Reported`, which speaks
 only about reachability, so it does not depend on the order in which nodes are visited.
 */
module SchemaPolicy {
  import opened Common

  // A syntax tree.  `Other` stands for every node without a rule of its own.
  datatype Node =
    | Call(line: int, func: Node, args: seq<Node>, keywords: seq<Node>)
    | Keyword(arg: Option<string>, value: Node)   // `**mapping` arguments have no name
    | Name(id: string)
    | Attribute(target: Node, attr: string)
    | Text(text: string)
    | Bool(flag: bool)
    | Other(children: seq<Node>)

  type Violation = (int, string)

  // rawSql(sql): the reason of the first prohibited SQL pattern that occurs in sql, if any.
  datatype Policy = Policy(
    helpers: map<string, Node>,
    aliases: map<string, string>,
    external: set<string>,
    prohibited: map<string, string>,
    rawSql: string -> Option<string>)

  const DYNAMIC_CALLS := {"getattr", "setattr", "eval", "exec", "__import__"}

  function CallName(func: Node): Option<string> {
    match func
    case Attribute(_, attr) => Some(attr)
    case Name(id) => Some(id)
    case _ => None
  }

  function Root(func: Node): Node {
    if func.Attribute? then Root(func.target) else func
  }

  function FindKeyword(keywords: seq<Node>, name: string): Option<Node> {
    if keywords == [] then None
    else if keywords[0].Keyword? && keywords[0].arg == Some(name) then Some(keywords[0].value)
    else FindKeyword(keywords[1..], name)
  }

  predicate IsBool(node: Option<Node>, flag: bool) {
    node == Some(Bool(flag))
  }

  // ----- alias chains -----

  // The n-th name of the alias chain that starts at `name`.
  function Chain(aliases: map<string, string>, name: string, n: nat): Option<string> {
    if n == 0 then Some(name)
    else
      var previous := Chain(aliases, name, n - 1);
      if previous.Some? && previous.value in aliases then Some(aliases[previous.value]) else None
  }

  function ResolveFrom(aliases: map<string, string>, name: string, seen: set<string>): string
    decreases aliases.Keys - seen
  {
    if name in aliases && name !in seen
    then ResolveFrom(aliases, aliases[name], seen + {name})
    else name
  }

  function Resolve(aliases: map<string, string>, name: string): string {
    ResolveFrom(aliases, name, {})
  }

  method ResolveAlias(aliases: map<string, string>, start: Option<string>) returns (name: Option<string>)
    ensures start.None? ==> name.None?
    ensures start.Some? ==> name == Some(Resolve(aliases, start.value))
  {
    name := start;
    var seen: set<string> := {};
    while name.Some? && name.value in aliases && name.value !in seen
      invariant name.Some? == start.Some?
      invariant start.Some? ==> ResolveFrom(aliases, name.value, seen) == Resolve(aliases, start.value)
      decreases aliases.Keys - seen
    {
      seen := seen + {name.value};
      name := Some(aliases[name.value]);
    }
  }

  // x is among the first n names of the chain.
  ghost predicate InChain(aliases: map<string, string>, start: string, n: nat, x: string) {
    exists i: nat :: i < n && Chain(aliases, start, i) == Some(x)
  }

  ghost predicate DistinctChain(aliases: map<string, string>, start: string, n: nat) {
    forall i: nat, j: nat :: i < j < n ==> Chain(aliases, start, i) != Chain(aliases, start, j)
  }

  lemma {:induction false} ResolveFromChain(aliases: map<string, string>, start: string, name: string,
                                            seen: set<string>, n: nat)
    returns (m: nat)
    requires Chain(aliases, start, n) == Some(name)
    requires forall x :: x in seen <==> InChain(aliases, start, n, x)
    requires DistinctChain(aliases, start, n)
    ensures Chain(aliases, start, m) == Some(ResolveFrom(aliases, name, seen))
    ensures DistinctChain(aliases, start, m)
    ensures ResolveFrom(aliases, name, seen) !in aliases || InChain(aliases, start, m, ResolveFrom(aliases, name, seen))
    decreases aliases.Keys - seen
  {
    m := n;
    if name in aliases && name !in seen {
      assert Chain(aliases, start, n + 1) == Some(aliases[name]);
      forall x
        ensures x in seen + {name} <==> InChain(aliases, start, n + 1, x)
      {
        if InChain(aliases, start, n + 1, x) {
          var i: nat :| i < n + 1 && Chain(aliases, start, i) == Some(x);
          assert i < n ==> InChain(aliases, start, n, x);
        }
      }
      assert !InChain(aliases, start, n, name);
      m := ResolveFromChain(aliases, start, aliases[name], seen + {name}, n + 1);
    }
  }

  /** Alias resolution follows the chain to its end, or, on a cycle, stops at the first name it
      meets a second time. */
  lemma ResolveFollowsChain(aliases: map<string, string>, name: string) returns (m: nat)
    ensures Chain(aliases, name, m) == Some(Resolve(aliases, name))
    ensures DistinctChain(aliases, name, m)
    ensures Resolve(aliases, name) !in aliases || InChain(aliases, name, m, Resolve(aliases, name))
  {
    m := ResolveFromChain(aliases, name, name, {}, 0);
  }

  // ----- the rules at one call -----

  function ResolvedName(p: Policy, func: Node): Option<string> {
    var name := CallName(func);
    if name.None? then None else Some(Resolve(p.aliases, name.value))
  }

  function When(condition: bool, line: int, reason: string): set<Violation> {
    if condition then {(line, reason)} else {}
  }

  function SqlViolations(p: Policy, call: Node): set<Violation>
    requires call.Call?
  {
    if call.args == [] then {(call.line, "uninspectable dynamic SQL")}
    else
      var first := call.args[0];
      var argument := if first.Call? && CallName(first.func) == Some("text") && first.args != [] then first.args[0] else first;
      if !argument.Text? then {(call.line, "uninspectable dynamic SQL")}
      else
        var reason := p.rawSql(argument.text);
        if reason.Some? then {(call.line, reason.value)} else {}
  }

  function ColumnViolations(call: Node): set<Violation>
    requires call.Call?
  {
    if |call.args| < 2 || !call.args[1].Call? || CallName(call.args[1].func) != Some("Column") then {}
    else
      var column := call.args[1];
      When(IsBool(FindKeyword(column.keywords, "nullable"), false) && FindKeyword(column.keywords, "server_default").None?,
           column.line, "new non-null column without a database default")
  }

  // What a call is rejected for because of how it names its function.
  function NameViolations(p: Policy, call: Node): set<Violation>
    requires call.Call?
  {
    var name := ResolvedName(p, call.func);
    var root := Root(call.func);
    When((name.Some? && name.value in p.external) || (root.Name? && root.id in p.external),
         call.line, "uninspectable imported migration helper")
    + When(name.None? || name.value in DYNAMIC_CALLS, call.line, "uninspectable dynamic migration call")
  }

  // What a call is rejected for because of the operation it performs.
  function OperationViolations(p: Policy, call: Node): set<Violation>
    requires call.Call?
  {
    var name := ResolvedName(p, call.func);
    (if name.Some? && name.value in p.prohibited then {(call.line, p.prohibited[name.value])} else {})
    + (if name == Some("alter_column") then AlterViolations(call) else {})
    + When(name == Some("create_index") && FindKeyword(call.keywords, "unique").Some?
           && !IsBool(FindKeyword(call.keywords, "unique"), false), call.line, "new unique index")
    + (if name == Some("add_column") then ColumnViolations(call) else {})
    + (if name == Some("execute") then SqlViolations(p, call) else {})
  }

  function AlterViolations(call: Node): set<Violation>
    requires call.Call?
  {
    When(FindKeyword(call.keywords, "new_column_name").Some?, call.line, "renamed column")
    + When(FindKeyword(call.keywords, "type_").Some?, call.line, "changed column type")
    + When(FindKeyword(call.keywords, "server_default").Some?, call.line, "changed column default")
    + When(IsBool(FindKeyword(call.keywords, "nullable"), false), call.line, "tightened column nullability")
  }

  // Everything a call is rejected for by itself.
  function Local(p: Policy, call: Node): set<Violation>
    requires call.Call?
  {
    NameViolations(p, call) + OperationViolations(p, call)
  }

  // ----- what the visitor should report -----

  // The call nodes inside a node.
  function Calls(node: Node): set<Node>
    decreases node, 1
  {
    match node
    case Call(_, func, args, keywords) => {node} + Calls(func) + CallsOf(args) + CallsOf(keywords)
    case Keyword(_, value) => Calls(value)
    case Attribute(target, _) => Calls(target)
    case Other(children) => CallsOf(children)
    case _ => {}
  }

  function CallsOf(nodes: seq<Node>): set<Node>
    decreases nodes, 0
  {
    if nodes == [] then {} else Calls(nodes[0]) + CallsOf(nodes[1..])
  }

  // v is a violation of one of the calls.
  ghost predicate ViolatedBy(p: Policy, calls: set<Node>, v: Violation) {
    exists c :: c in calls && c.Call? && v in Local(p, c)
  }

  // One of the calls resolves to helper h.
  ghost predicate CalledFrom(p: Policy, calls: set<Node>, h: string) {
    h in p.helpers && exists c :: c in calls && c.Call? && ResolvedName(p, c.func) == Some(h)
  }

  ghost predicate IsCallPath(p: Policy, from: set<Node>, path: seq<string>) {
    && path != []
    && CalledFrom(p, from, path[0])
    && forall i :: 0 <= i < |path| - 1 ==> path[i] in p.helpers && CalledFrom(p, Calls(p.helpers[path[i]]), path[i + 1])
  }

  ghost predicate Reachable(p: Policy, from: set<Node>, h: string) {
    exists path :: IsCallPath(p, from, path) && path[|path| - 1] == h
  }

  ghost predicate Reported(p: Policy, from: set<Node>, v: Violation) {
    || ViolatedBy(p, from, v)
    || exists h :: h in p.helpers && Reachable(p, from, h) && ViolatedBy(p, Calls(p.helpers[h]), v)
  }

  // Every helper in `closed` calls only helpers in `visited`.
  ghost predicate ClosedUnder(p: Policy, closed: set<string>, visited: set<string>) {
    forall g, h :: g in closed && g in p.helpers && CalledFrom(p, Calls(p.helpers[g]), h) ==> h in visited
  }

  lemma ReachableStep(p: Policy, from: set<Node>, g: string, h: string)
    requires g in p.helpers && CalledFrom(p, from, g)
    requires Reachable(p, Calls(p.helpers[g]), h)
    ensures Reachable(p, from, h)
  {
    var path :| IsCallPath(p, Calls(p.helpers[g]), path) && path[|path| - 1] == h;
    var longer := [g] + path;
    forall i | 0 <= i < |longer| - 1
      ensures longer[i] in p.helpers && CalledFrom(p, Calls(p.helpers[longer[i]]), longer[i + 1])
    {
      if i > 0 {
        assert longer[i] == path[i - 1] && longer[i + 1] == path[i];
      }
    }
    assert IsCallPath(p, from, longer) && longer[|longer| - 1] == h;
  }

  lemma ReachableDirect(p: Policy, from: set<Node>, h: string)
    requires CalledFrom(p, from, h)
    ensures Reachable(p, from, h)
  {
    assert IsCallPath(p, from, [h]) && [h][|[h]| - 1] == h;
  }

  lemma ReachableMono(p: Policy, small: set<Node>, large: set<Node>, h: string)
    requires small <= large && Reachable(p, small, h)
    ensures Reachable(p, large, h)
  {
    var path :| IsCallPath(p, small, path) && path[|path| - 1] == h;
    assert IsCallPath(p, large, path);
  }

  lemma {:induction false} ClosedContainsPath(p: Policy, from: set<Node>, visited: set<string>, path: seq<string>)
    requires IsCallPath(p, from, path)
    requires ClosedUnder(p, visited, visited)
    requires forall h :: CalledFrom(p, from, h) ==> h in visited
    ensures path[|path| - 1] in visited
    decreases |path|
  {
    if |path| > 1 {
      var shorter := path[..|path| - 1];
      assert IsCallPath(p, from, shorter);
      ClosedContainsPath(p, from, visited, shorter);
      assert shorter[|shorter| - 1] == path[|path| - 2];
      assert CalledFrom(p, Calls(p.helpers[path[|path| - 2]]), path[|path| - 2 + 1]);
    }
  }

  // ----- one stretch of the walk -----

  // A stretch of the walk that started with the helpers v0 entered and the violations x0 found, ended
  // with v1 and x1, and looked at exactly the given calls and at the helpers it entered.
  ghost predicate Explored(p: Policy, calls: set<Node>, v0: set<string>, v1: set<string>,
                           x0: set<Violation>, x1: set<Violation>) {
    && v0 <= v1
    && (forall h :: CalledFrom(p, calls, h) ==> h in v1)
    && ClosedUnder(p, v1 - v0, v1)
    && (forall h :: h in v1 - v0 ==> h in p.helpers && Reachable(p, calls, h))
    && (forall v :: v in x1 <==>
          || v in x0
          || ViolatedBy(p, calls, v)
          || exists h :: h in v1 - v0 && h in p.helpers && ViolatedBy(p, Calls(p.helpers[h]), v))
  }

  lemma ExploredSeq(p: Policy, c1: set<Node>, c2: set<Node>, v0: set<string>, v1: set<string>, v2: set<string>,
                    x0: set<Violation>, x1: set<Violation>, x2: set<Violation>)
    requires Explored(p, c1, v0, v1, x0, x1) && Explored(p, c2, v1, v2, x1, x2)
    ensures Explored(p, c1 + c2, v0, v2, x0, x2)
  {
    forall h | h in v2 - v0
      ensures h in p.helpers && Reachable(p, c1 + c2, h)
    {
      if h in v1 {
        ReachableMono(p, c1, c1 + c2, h);
      } else {
        ReachableMono(p, c2, c1 + c2, h);
      }
    }
    forall h | CalledFrom(p, c1 + c2, h)
      ensures h in v2
    {
      assert CalledFrom(p, c1, h) || CalledFrom(p, c2, h);
    }
    forall v
      ensures ViolatedBy(p, c1 + c2, v) <==> ViolatedBy(p, c1, v) || ViolatedBy(p, c2, v)
    {
    }
  }

  // Entering helper h from a call that resolves to it, between the rules on names and on operations.
  lemma ExploredHelper(p: Policy, call: Node, h: string, v0: set<string>, v1: set<string>,
                       x0: set<Violation>, x1: set<Violation>)
    requires call.Call? && ResolvedName(p, call.func) == Some(h) && h in p.helpers && h !in v0
    requires Explored(p, Calls(p.helpers[h]), v0 + {h}, v1, x0 + NameViolations(p, call), x1)
    ensures Explored(p, {call}, v0, v1, x0, x1 + OperationViolations(p, call))
  {
    assert CalledFrom(p, {call}, h);
    forall g | g in v1 - v0
      ensures g in p.helpers && Reachable(p, {call}, g)
    {
      if g == h {
        ReachableDirect(p, {call}, h);
      } else {
        ReachableStep(p, {call}, h, g);
      }
    }
    ViolatedByOne(p, call);
  }

  lemma ViolatedByOne(p: Policy, call: Node)
    requires call.Call?
    ensures forall v :: ViolatedBy(p, {call}, v) <==> v in Local(p, call)
    ensures Local(p, call) == NameViolations(p, call) + OperationViolations(p, call)
  {
  }

  // A call that enters no helper.
  lemma ExploredCall(p: Policy, call: Node, v0: set<string>, x0: set<Violation>)
    requires call.Call?
    requires ResolvedName(p, call.func).Some? && ResolvedName(p, call.func).value in p.helpers ==>
               ResolvedName(p, call.func).value in v0
    ensures Explored(p, {call}, v0, v0, x0, x0 + Local(p, call))
  {
    forall v
      ensures ViolatedBy(p, {call}, v) <==> v in Local(p, call)
    {
    }
  }

  /** A walk that starts with nothing entered reports exactly what is reachable. */
  lemma ExploredIsReported(p: Policy, calls: set<Node>, v1: set<string>, x1: set<Violation>)
    requires Explored(p, calls, {}, v1, {}, x1)
    ensures forall h :: h in v1 <==> h in p.helpers && Reachable(p, calls, h)
    ensures forall v :: v in x1 <==> Reported(p, calls, v)
  {
    forall h | h in p.helpers && Reachable(p, calls, h)
      ensures h in v1
    {
      var path :| IsCallPath(p, calls, path) && path[|path| - 1] == h;
      ClosedContainsPath(p, calls, v1, path);
    }
  }

  // ----- the rules, told from the shape of a call -----

  // The call is written with this name, or as an attribute of this name.
  ghost predicate IsSpelt(func: Node, id: string) {
    func == Name(id) || (func.Attribute? && func.attr == id)
  }

  // The call names a function that its aliases resolve to n.
  ghost predicate IsCallTo(p: Policy, call: Node, n: string) {
    call.Call? && exists id :: IsSpelt(call.func, id) && Resolve(p.aliases, id) == n
  }

  // The dotted expression begins with the name.
  ghost predicate BeginsWith(func: Node, id: string) {
    func == Name(id) || (func.Attribute? && BeginsWith(func.target, id))
  }

  ghost predicate HasKeyword(keywords: seq<Node>, name: string) {
    exists i :: 0 <= i < |keywords| && keywords[i].Keyword? && keywords[i].arg == Some(name)
  }

  // The first keyword of that name has the value.
  ghost predicate Gives(keywords: seq<Node>, name: string, value: Node) {
    exists i :: 0 <= i < |keywords| && keywords[i] == Keyword(Some(name), value)
                && forall j :: 0 <= j < i ==> !(keywords[j].Keyword? && keywords[j].arg == Some(name))
  }

  // The literal SQL of a call of execute, given as it is or wrapped in text().
  ghost predicate IsSql(call: Node, sql: string) {
    && call.Call? && call.args != []
    && (call.args[0] == Text(sql)
        || (call.args[0].Call? && IsSpelt(call.args[0].func, "text")
            && call.args[0].args != [] && call.args[0].args[0] == Text(sql)))
  }

  // Rules about how the function is named.
  ghost predicate OffendsByName(p: Policy, call: Node, v: Violation) {
    && call.Call? && v.0 == call.line
    && (|| (v.1 == "uninspectable imported migration helper"
            && ((exists n :: IsCallTo(p, call, n) && n in p.external)
                || (exists id :: BeginsWith(call.func, id) && id in p.external)))
        || (v.1 == "uninspectable dynamic migration call"
            && ((!call.func.Name? && !call.func.Attribute?)
                || (exists n :: IsCallTo(p, call, n) && n in {"getattr", "setattr", "eval", "exec", "__import__"})))
        || (exists n :: IsCallTo(p, call, n) && n in p.prohibited && v.1 == p.prohibited[n]))
  }

  // Rules about the columns and indexes of a call.
  ghost predicate OffendsBySchema(p: Policy, call: Node, v: Violation) {
    && call.Call?
    && (|| (IsCallTo(p, call, "alter_column") && v.0 == call.line
            && (|| (v.1 == "renamed column" && HasKeyword(call.keywords, "new_column_name"))
                || (v.1 == "changed column type" && HasKeyword(call.keywords, "type_"))
                || (v.1 == "changed column default" && HasKeyword(call.keywords, "server_default"))
                || (v.1 == "tightened column nullability" && Gives(call.keywords, "nullable", Bool(false)))))
        || (IsCallTo(p, call, "create_index") && v == (call.line, "new unique index")
            && HasKeyword(call.keywords, "unique") && !Gives(call.keywords, "unique", Bool(false)))
        || (IsCallTo(p, call, "add_column") && |call.args| >= 2 && call.args[1].Call? && IsSpelt(call.args[1].func, "Column")
            && v == (call.args[1].line, "new non-null column without a database default")
            && Gives(call.args[1].keywords, "nullable", Bool(false)) && !HasKeyword(call.args[1].keywords, "server_default")))
  }

  // Rules about raw SQL.
  ghost predicate OffendsBySql(p: Policy, call: Node, v: Violation) {
    && call.Call? && IsCallTo(p, call, "execute") && v.0 == call.line
    && (|| (v.1 == "uninspectable dynamic SQL" && forall sql :: !IsSql(call, sql))
        || (exists sql :: IsSql(call, sql) && p.rawSql(sql) == Some(v.1)))
  }

  ghost predicate Offends(p: Policy, call: Node, v: Violation) {
    OffendsByName(p, call, v) || OffendsBySchema(p, call, v) || OffendsBySql(p, call, v)
  }

  lemma NameMeaning(p: Policy, call: Node)
    requires call.Call?
    ensures forall n :: IsCallTo(p, call, n) <==> ResolvedName(p, call.func) == Some(n)
    ensures forall id :: IsSpelt(call.func, id) <==> CallName(call.func) == Some(id)
    ensures ResolvedName(p, call.func).None? <==> !call.func.Name? && !call.func.Attribute?
  {
    if CallName(call.func).Some? {
      assert IsSpelt(call.func, CallName(call.func).value);
    }
  }

  lemma {:induction false} RootMeaning(func: Node, id: string)
    ensures BeginsWith(func, id) <==> Root(func) == Name(id)
  {
    if func.Attribute? {
      RootMeaning(func.target, id);
    }
  }

  lemma {:induction false} KeywordMeaning(keywords: seq<Node>, name: string, value: Node)
    ensures HasKeyword(keywords, name) <==> FindKeyword(keywords, name).Some?
    ensures Gives(keywords, name, value) <==> FindKeyword(keywords, name) == Some(value)
  {
    if keywords != [] {
      KeywordMeaning(keywords[1..], name, value);
      forall i | 0 < i < |keywords|
        ensures keywords[1..][i - 1] == keywords[i]
      {
      }
      if HasKeyword(keywords[1..], name) {
        var i :| 0 <= i < |keywords[1..]| && keywords[1..][i].Keyword? && keywords[1..][i].arg == Some(name);
        assert keywords[i + 1] == keywords[1..][i];
      }
      if Gives(keywords[1..], name, value) && !(keywords[0].Keyword? && keywords[0].arg == Some(name)) {
        var i :| 0 <= i < |keywords[1..]| && keywords[1..][i] == Keyword(Some(name), value)
                 && forall j :: 0 <= j < i ==> !(keywords[1..][j].Keyword? && keywords[1..][j].arg == Some(name));
        assert keywords[i + 1] == Keyword(Some(name), value);
      }
    }
  }

  lemma RejectedByName(p: Policy, call: Node, v: Violation)
    requires call.Call?
    ensures OffendsByName(p, call, v) <==>
            v in NameViolations(p, call)
            || (ResolvedName(p, call.func).Some? && ResolvedName(p, call.func).value in p.prohibited
                && v == (call.line, p.prohibited[ResolvedName(p, call.func).value]))
  {
    NameMeaning(p, call);
    forall id
      ensures BeginsWith(call.func, id) <==> Root(call.func) == Name(id)
    {
      RootMeaning(call.func, id);
    }
  }

  lemma AlterMeaning(call: Node, v: Violation)
    requires call.Call?
    ensures v in AlterViolations(call) <==>
            && v.0 == call.line
            && (|| (v.1 == "renamed column" && HasKeyword(call.keywords, "new_column_name"))
                || (v.1 == "changed column type" && HasKeyword(call.keywords, "type_"))
                || (v.1 == "changed column default" && HasKeyword(call.keywords, "server_default"))
                || (v.1 == "tightened column nullability" && Gives(call.keywords, "nullable", Bool(false))))
  {
    KeywordMeaning(call.keywords, "new_column_name", Bool(false));
    KeywordMeaning(call.keywords, "type_", Bool(false));
    KeywordMeaning(call.keywords, "server_default", Bool(false));
    KeywordMeaning(call.keywords, "nullable", Bool(false));
  }

  lemma ColumnMeaning(p: Policy, call: Node, v: Violation)
    requires call.Call?
    ensures v in ColumnViolations(call) <==>
            && |call.args| >= 2 && call.args[1].Call? && IsSpelt(call.args[1].func, "Column")
            && v == (call.args[1].line, "new non-null column without a database default")
            && Gives(call.args[1].keywords, "nullable", Bool(false)) && !HasKeyword(call.args[1].keywords, "server_default")
  {
    if |call.args| >= 2 && call.args[1].Call? {
      NameMeaning(p, call.args[1]);
      KeywordMeaning(call.args[1].keywords, "nullable", Bool(false));
      KeywordMeaning(call.args[1].keywords, "server_default", Bool(false));
    }
  }

  lemma SqlMeaning(p: Policy, call: Node, v: Violation)
    requires call.Call?
    ensures v in SqlViolations(p, call) <==>
            && v.0 == call.line
            && (|| (v.1 == "uninspectable dynamic SQL" && forall sql :: !IsSql(call, sql))
                || (exists sql :: IsSql(call, sql) && p.rawSql(sql) == Some(v.1)))
  {
    if call.args != [] && call.args[0].Call? {
      NameMeaning(p, call.args[0]);
    }
    if call.args != [] && call.args[0].Text? {
      assert IsSql(call, call.args[0].text);
    }
    if call.args != [] && call.args[0].Call? && call.args[0].args != [] && call.args[0].args[0].Text?
       && IsSpelt(call.args[0].func, "text") {
      assert IsSql(call, call.args[0].args[0].text);
    }
  }

  ghost predicate IsNewUniqueIndex(call: Node, v: Violation) {
    && call.Call? && v == (call.line, "new unique index")
    && HasKeyword(call.keywords, "unique") && !Gives(call.keywords, "unique", Bool(false))
  }

  lemma OperationParts(p: Policy, call: Node, v: Violation)
    requires call.Call?
    ensures v in OperationViolations(p, call) <==>
            || (ResolvedName(p, call.func).Some? && ResolvedName(p, call.func).value in p.prohibited
                && v == (call.line, p.prohibited[ResolvedName(p, call.func).value]))
            || (ResolvedName(p, call.func) == Some("alter_column") && v in AlterViolations(call))
            || (ResolvedName(p, call.func) == Some("create_index") && IsNewUniqueIndex(call, v))
            || (ResolvedName(p, call.func) == Some("add_column") && v in ColumnViolations(call))
            || (ResolvedName(p, call.func) == Some("execute") && v in SqlViolations(p, call))
  {
    KeywordMeaning(call.keywords, "unique", Bool(false));
  }

  lemma SchemaParts(p: Policy, call: Node, v: Violation)
    requires call.Call?
    ensures OffendsBySchema(p, call, v) <==>
            || (IsCallTo(p, call, "alter_column") && v in AlterViolations(call))
            || (IsCallTo(p, call, "create_index") && IsNewUniqueIndex(call, v))
            || (IsCallTo(p, call, "add_column") && v in ColumnViolations(call))
  {
    AlterMeaning(call, v);
    ColumnMeaning(p, call, v);
  }

  /** What a call is rejected for by itself, told from its shape and the name it resolves to. */
  lemma RejectedIffOffends(p: Policy, call: Node, v: Violation)
    requires call.Call?
    ensures v in Local(p, call) <==> Offends(p, call, v)
  {
    RejectedByName(p, call, v);
    OperationParts(p, call, v);
    SchemaParts(p, call, v);
    SqlMeaning(p, call, v);
    CallToMeaning(p, call, "alter_column");
    CallToMeaning(p, call, "create_index");
    CallToMeaning(p, call, "add_column");
    CallToMeaning(p, call, "execute");
  }

  lemma CallToMeaning(p: Policy, call: Node, n: string)
    requires call.Call?
    ensures IsCallTo(p, call, n) <==> ResolvedName(p, call.func) == Some(n)
  {
    NameMeaning(p, call);
  }

  // ----- the calls a walk looks at -----

  // b is written directly inside a.
  ghost predicate IsChild(a: Node, b: Node) {
    match a
    case Call(_, func, args, keywords) => b == func || b in args || b in keywords
    case Keyword(_, value) => b == value
    case Attribute(target, _) => b == target
    case Other(children) => b in children
    case _ => false
  }

  ghost predicate IsNesting(path: seq<Node>) {
    path != [] && forall i :: 0 <= i < |path| - 1 ==> IsChild(path[i], path[i + 1])
  }

  ghost predicate Inside(node: Node, c: Node) {
    exists path :: IsNesting(path) && path[0] == node && path[|path| - 1] == c
  }

  lemma {:induction false} CallsOfMember(nodes: seq<Node>, c: Node)
    ensures c in CallsOf(nodes) <==> exists i :: 0 <= i < |nodes| && c in Calls(nodes[i])
  {
    if nodes != [] {
      CallsOfMember(nodes[1..], c);
      if c in CallsOf(nodes[1..]) {
        var i :| 0 <= i < |nodes[1..]| && c in Calls(nodes[1..][i]);
        assert c in Calls(nodes[i + 1]);
      }
      if exists i :: 0 <= i < |nodes| && c in Calls(nodes[i]) {
        var i :| 0 <= i < |nodes| && c in Calls(nodes[i]);
        if i > 0 {
          assert nodes[i] == nodes[1..][i - 1];
        }
      }
    }
  }

  lemma CallsOfChild(a: Node, b: Node, c: Node)
    requires IsChild(a, b) && c in Calls(b)
    ensures c in Calls(a)
  {
    match a
    case Call(_, func, args, keywords) =>
      CallsOfMember(args, c);
      CallsOfMember(keywords, c);
    case Other(children) => CallsOfMember(children, c);
    case _ =>
  }

  lemma ChildOfCalls(a: Node, c: Node) returns (b: Node)
    requires c in Calls(a) && (c != a || !a.Call?)
    ensures IsChild(a, b) && c in Calls(b) && b < a
  {
    match a
    case Call(_, func, args, keywords) =>
      if c in Calls(func) {
        b := func;
      } else if c in CallsOf(args) {
        CallsOfMember(args, c);
        var i :| 0 <= i < |args| && c in Calls(args[i]);
        b := args[i];
      } else {
        CallsOfMember(keywords, c);
        var i :| 0 <= i < |keywords| && c in Calls(keywords[i]);
        b := keywords[i];
      }
    case Keyword(_, value) => b := value;
    case Attribute(target, _) => b := target;
    case Other(children) =>
      CallsOfMember(children, c);
      var i :| 0 <= i < |children| && c in Calls(children[i]);
      b := children[i];
  }

  lemma {:induction false} NestedCallIsFound(path: seq<Node>)
    requires IsNesting(path) && path[|path| - 1].Call?
    ensures path[|path| - 1] in Calls(path[0])
    decreases |path|
  {
    if |path| > 1 {
      NestedCallIsFound(path[1..]);
      CallsOfChild(path[0], path[1], path[|path| - 1]);
    }
  }

  lemma {:induction false} FoundCallIsNested(node: Node, c: Node)
    requires c in Calls(node)
    ensures c.Call? && Inside(node, c)
    decreases node
  {
    if c == node {
      CallsAreCalls(node, c);
      assert IsNesting([node]);
    } else {
      var b := ChildOfCalls(node, c);
      FoundCallIsNested(b, c);
      var path :| IsNesting(path) && path[0] == b && path[|path| - 1] == c;
      assert IsNesting([node] + path);
    }
  }

  lemma CallsAreCalls(node: Node, c: Node)
    requires c in Calls(node) && c == node
    ensures c.Call?
  {
    if !node.Call? {
      var b := ChildOfCalls(node, c);
      CallsAreSmaller(b, c);
    }
  }

  lemma {:induction false} CallsAreSmaller(node: Node, c: Node)
    requires c in Calls(node)
    ensures c == node || c < node
    decreases node
  {
    if c != node {
      var b := ChildOfCalls(node, c);
      CallsAreSmaller(b, c);
    }
  }

  /** The calls a walk of a node looks at are all the calls written inside it, at any depth. */
  lemma CallsAreInside(node: Node, c: Node)
    ensures c in Calls(node) <==> c.Call? && Inside(node, c)
  {
    if c in Calls(node) {
      FoundCallIsNested(node, c);
    }
    if c.Call? && Inside(node, c) {
      var path :| IsNesting(path) && path[0] == node && path[|path| - 1] == c;
      NestedCallIsFound(path);
    }
  }

  // c is among the calls, or in a helper that they reach.
  ghost predicate IsExamined(p: Policy, calls: set<Node>, c: Node) {
    c in calls || exists h :: h in p.helpers && Reachable(p, calls, h) && c in Calls(p.helpers[h])
  }

  lemma ReportedIffOffends(p: Policy, calls: set<Node>, v: Violation)
    ensures Reported(p, calls, v) <==> exists c :: IsExamined(p, calls, c) && Offends(p, c, v)
  {
    forall c: Node | c.Call?
      ensures v in Local(p, c) <==> Offends(p, c, v)
    {
      RejectedIffOffends(p, c, v);
    }
    if c :| IsExamined(p, calls, c) && Offends(p, c, v) {
      assert c.Call? && v in Local(p, c);
      if c !in calls {
        var h :| h in p.helpers && Reachable(p, calls, h) && c in Calls(p.helpers[h]);
        assert ViolatedBy(p, Calls(p.helpers[h]), v);
      }
    }
    if Reported(p, calls, v) {
      if ViolatedBy(p, calls, v) {
        var c :| c in calls && c.Call? && v in Local(p, c);
        assert IsExamined(p, calls, c) && Offends(p, c, v);
      } else {
        var h :| h in p.helpers && Reachable(p, calls, h) && ViolatedBy(p, Calls(p.helpers[h]), v);
        var c :| c in Calls(p.helpers[h]) && c.Call? && v in Local(p, c);
        assert IsExamined(p, calls, c) && Offends(p, c, v);
      }
    }
  }

  class UpgradePolicyVisitor {
    const p: Policy
    var violations: seq<Violation>
    var visitedHelpers: set<string>
    ghost var entered: seq<string>   // the helpers entered through a call, in order

    ghost predicate Valid()
      reads this
    {
      && visitedHelpers <= p.helpers.Keys
      && (forall h :: h in visitedHelpers <==> h in entered)
      && (forall i, j :: 0 <= i < j < |entered| ==> entered[i] != entered[j])
    }

    ghost function Found(): set<Violation>
      reads this
    {
      set v | v in violations
    }

    constructor (p: Policy)
      ensures this.p == p && Valid() && Found() == {} && visitedHelpers == {}
    {
      this.p := p;
      violations, visitedHelpers, entered := [], {}, [];
    }

    method Reject(line: int, reason: string)
      modifies this`violations
      ensures Found() == old(Found()) + {(line, reason)}
    {
      violations := violations + [(line, reason)];
    }

    method RejectName(call: Node, name: Option<string>)
      requires call.Call? && name == ResolvedName(p, call.func)
      modifies this`violations
      ensures Found() == old(Found()) + NameViolations(p, call)
    {
      var root := Root(call.func);
      if (name.Some? && name.value in p.external) || (root.Name? && root.id in p.external) {
        Reject(call.line, "uninspectable imported migration helper");
      }
      if name.None? || name.value in DYNAMIC_CALLS {
        Reject(call.line, "uninspectable dynamic migration call");
      }
    }

    method RejectAlter(call: Node)
      requires call.Call?
      modifies this`violations
      ensures Found() == old(Found()) + AlterViolations(call)
    {
      if FindKeyword(call.keywords, "new_column_name").Some? {
        Reject(call.line, "renamed column");
      }
      if FindKeyword(call.keywords, "type_").Some? {
        Reject(call.line, "changed column type");
      }
      if FindKeyword(call.keywords, "server_default").Some? {
        Reject(call.line, "changed column default");
      }
      if IsBool(FindKeyword(call.keywords, "nullable"), false) {
        Reject(call.line, "tightened column nullability");
      }
    }

    method RejectAddColumn(call: Node)
      requires call.Call?
      modifies this`violations
      ensures Found() == old(Found()) + ColumnViolations(call)
    {
      if |call.args| >= 2 {
        var column := call.args[1];
        if column.Call? && CallName(column.func) == Some("Column") {
          var nullable := FindKeyword(column.keywords, "nullable");
          var serverDefault := FindKeyword(column.keywords, "server_default");
          if IsBool(nullable, false) && serverDefault.None? {
            Reject(column.line, "new non-null column without a database default");
          }
        }
      }
    }

    method RejectExecute(call: Node)
      requires call.Call?
      modifies this`violations
      ensures Found() == old(Found()) + SqlViolations(p, call)
    {
      if call.args == [] {
        Reject(call.line, "uninspectable dynamic SQL");
      } else {
        var argument := call.args[0];
        if argument.Call? && CallName(argument.func) == Some("text") && argument.args != [] {
          argument := argument.args[0];
        }
        if !argument.Text? {
          Reject(call.line, "uninspectable dynamic SQL");
        } else {
          var reason := p.rawSql(argument.text);
          if reason.Some? {
            Reject(call.line, reason.value);
          }
        }
      }
    }

    method RejectOperation(call: Node, name: Option<string>)
      requires call.Call? && name == ResolvedName(p, call.func)
      modifies this`violations
      ensures Found() == old(Found()) + OperationViolations(p, call)
    {
      if name.Some? && name.value in p.prohibited {
        Reject(call.line, p.prohibited[name.value]);
      }
      if name == Some("alter_column") {
        RejectAlter(call);
      }
      if name == Some("create_index") && FindKeyword(call.keywords, "unique").Some?
         && !IsBool(FindKeyword(call.keywords, "unique"), false) {
        Reject(call.line, "new unique index");
      }
      if name == Some("add_column") {
        RejectAddColumn(call);
      }
      if name == Some("execute") {
        RejectExecute(call);
      }
    }

    // The part of `visit_Call` before `generic_visit`.
    method VisitCallee(call: Node)
      requires Valid() && call.Call?
      modifies this
      ensures Valid()
      ensures Explored(p, {call}, old(visitedHelpers), visitedHelpers, old(Found()), Found())
      decreases p.helpers.Keys - visitedHelpers, call, 0
    {
      ghost var v0, x0 := visitedHelpers, Found();
      var name := ResolveAlias(p.aliases, CallName(call.func));
      RejectName(call, name);
      if name.Some? && name.value in p.helpers && name.value !in visitedHelpers {
        visitedHelpers := visitedHelpers + {name.value};
        entered := entered + [name.value];
        Visit(p.helpers[name.value]);
        ExploredHelper(p, call, name.value, v0, visitedHelpers, x0, Found());
        RejectOperation(call, name);
      } else {
        RejectOperation(call, name);
        ExploredCall(p, call, v0, x0);
        assert Found() == x0 + Local(p, call);
      }
    }

    method Visit(node: Node)
      requires Valid()
      modifies this
      ensures Valid()
      ensures Explored(p, Calls(node), old(visitedHelpers), visitedHelpers, old(Found()), Found())
      decreases p.helpers.Keys - visitedHelpers, node, 1
    {
      match node
      case Call(_, func, args, keywords) =>
        ghost var v0, x0 := visitedHelpers, Found();
        VisitCallee(node);
        ghost var v1, x1 := visitedHelpers, Found();
        Visit(func);
        ghost var v2, x2 := visitedHelpers, Found();
        VisitAll(args);
        ghost var v3, x3 := visitedHelpers, Found();
        VisitAll(keywords);
        ExploredSeq(p, {node}, Calls(func), v0, v1, v2, x0, x1, x2);
        ExploredSeq(p, {node} + Calls(func), CallsOf(args), v0, v2, v3, x0, x2, x3);
        ExploredSeq(p, {node} + Calls(func) + CallsOf(args), CallsOf(keywords),
                    v0, v3, visitedHelpers, x0, x3, Found());
      case Keyword(_, value) => Visit(value);
      case Attribute(target, _) => Visit(target);
      case Other(children) => VisitAll(children);
      case _ =>
    }

    method VisitAll(nodes: seq<Node>)
      requires Valid()
      modifies this
      ensures Valid()
      ensures Explored(p, CallsOf(nodes), old(visitedHelpers), visitedHelpers, old(Found()), Found())
      decreases p.helpers.Keys - visitedHelpers, nodes, 0
    {
      if nodes != [] {
        ghost var v0, x0 := visitedHelpers, Found();
        Visit(nodes[0]);
        ghost var v1, x1 := visitedHelpers, Found();
        VisitAll(nodes[1..]);
        ExploredSeq(p, Calls(nodes[0]), CallsOf(nodes[1..]), v0, v1, visitedHelpers, x0, x1, Found());
      }
    }
  }

  // ----- what `check` builds before it starts the walk -----

  // A statement of the module body.
  datatype Statement = FunctionDef(name: string, node: Node) | Plain(node: Node)

  // The nodes of `ast.walk` that bind names, in its order.  A name is (name, asname).
  datatype Binder =
    | ImportFrom(fromModule: string, names: seq<(string, Option<string>)>)
    | Import(names: seq<(string, Option<string>)>)
    | Assign(targets: seq<string>, value: string)

  const TRUSTED := {"alembic", "sqlalchemy"}

  function TopPackage(dotted: string): string {
    if dotted == "" || dotted[0] == '.' then "" else [dotted[0]] + TopPackage(dotted[1..])
  }

  function Bound(name: (string, Option<string>), otherwise: string): string {
    if name.1.Some? then name.1.value else otherwise
  }

  // The i-th name a binder aliases, and what it stands for.
  function Aliased(b: Binder): seq<(string, string)> {
    match b
    case ImportFrom(_, names) => seq(|names|, i requires 0 <= i < |names| => (Bound(names[i], names[i].0), names[i].0))
    case Import(_) => []
    case Assign(targets, value) => seq(|targets|, i requires 0 <= i < |targets| => (targets[i], value))
  }

  // The names a binder makes external: nothing behind them can be inspected.
  function Externals(b: Binder): set<string> {
    match b
    case ImportFrom(m, names) =>
      if TopPackage(m) in TRUSTED then {}
      else (set n | n in names :: Bound(n, n.0)) + (set n | n in names :: n.0)
    case Import(names) => set n | n in names && TopPackage(n.0) !in TRUSTED :: Bound(n, TopPackage(n.0))
    case Assign(_, _) => {}
  }

  // ----- the names, told from the statements that bind them -----

  // top is the first component of the dotted name.
  ghost predicate IsTop(dotted: string, top: string) {
    '.' !in top && (dotted == top || top + "." <= dotted)
  }

  ghost predicate IsTrusted(dotted: string) {
    IsTop(dotted, "alembic") || IsTop(dotted, "sqlalchemy")
  }

  lemma {:induction false} TopPackageMeaning(dotted: string, top: string)
    ensures IsTop(dotted, top) <==> TopPackage(dotted) == top
    decreases dotted
  {
    if dotted != "" && dotted[0] != '.' {
      if top != "" {
        TopPackageMeaning(dotted[1..], top[1..]);
        assert top == [top[0]] + top[1..];
        assert dotted == [dotted[0]] + dotted[1..];
        if IsTop(dotted, top) {
          assert dotted != top ==> (top + ".")[1..] == top[1..] + "." && (top + ".")[1..] <= dotted[1..];
          assert top[0] == dotted[0];
        }
        if top[0] == dotted[0] && IsTop(dotted[1..], top[1..]) {
          assert dotted[1..] != top[1..] ==> top + "." == [top[0]] + (top[1..] + ".");
          assert top[0] != '.' && '.' !in top;
        }
      }
    } else if top != "" {
      assert top[0] == '.' ==> '.' in top;
      assert (top + ".")[0] == top[0];
    }
  }

  // A binder hides x: x comes from a package that is not trusted.
  ghost predicate Hides(b: Binder, x: string) {
    || (b.ImportFrom? && !IsTrusted(b.fromModule)
        && exists n :: n in b.names && (n.0 == x || n.1 == Some(x)))
    || (b.Import?
        && exists n :: n in b.names && !IsTrusted(n.0) && (if n.1.Some? then n.1.value == x else IsTop(n.0, x)))
  }

  lemma ExternalsMeaning(b: Binder, x: string)
    ensures x in Externals(b) <==> Hides(b, x)
  {
    forall dotted, top
      ensures IsTop(dotted, top) <==> TopPackage(dotted) == top
    {
      TopPackageMeaning(dotted, top);
    }
  }

  // The j-th name of the i-th binder is k, and it stands for v.
  ghost predicate BindsAt(walk: seq<Binder>, i: nat, j: nat, k: string, v: string) {
    && i < |walk|
    && match walk[i]
       case ImportFrom(_, names) => j < |names| && v == names[j].0 && (names[j].1 == Some(k) || (names[j].1.None? && k == v))
       case Import(_) => false
       case Assign(targets, value) => j < |targets| && k == targets[j] && v == value
  }

  predicate Earlier(i: nat, j: nat, n: nat, m: nat) {
    i < n || (i == n && j < m)
  }

  // k is bound at (i, j) and not again before (n, m).
  ghost predicate IsLastAt(walk: seq<Binder>, n: nat, m: nat, k: string, v: string, i: nat, j: nat) {
    && Earlier(i, j, n, m) && BindsAt(walk, i, j, k, v)
    && forall i': nat, j': nat, w :: BindsAt(walk, i', j', k, w) && Earlier(i, j, i', j') ==> !Earlier(i', j', n, m)
  }

  // Among the names bound before (n, m), the last binding of k gives it v.
  ghost predicate IsLastBinding(walk: seq<Binder>, n: nat, m: nat, k: string, v: string) {
    exists i: nat, j: nat :: IsLastAt(walk, n, m, k, v, i, j)
  }

  lemma AliasedMeaning(walk: seq<Binder>, i: nat, j: nat, k: string, v: string)
    requires i < |walk|
    ensures BindsAt(walk, i, j, k, v) <==> j < |Aliased(walk[i])| && Aliased(walk[i])[j] == (k, v)
  {
  }

  // Two ends with no binding of k between them see the same last binding.
  lemma SameLastBinding(walk: seq<Binder>, n: nat, m: nat, n': nat, m': nat, k: string, v: string)
    requires forall i: nat, j: nat, w :: BindsAt(walk, i, j, k, w) ==> (Earlier(i, j, n, m) <==> Earlier(i, j, n', m'))
    ensures IsLastBinding(walk, n, m, k, v) <==> IsLastBinding(walk, n', m', k, v)
  {
    if IsLastBinding(walk, n, m, k, v) {
      var i: nat, j: nat :| IsLastAt(walk, n, m, k, v, i, j);
      assert IsLastAt(walk, n', m', k, v, i, j);
    }
    if IsLastBinding(walk, n', m', k, v) {
      var i: nat, j: nat :| IsLastAt(walk, n', m', k, v, i, j);
      assert IsLastAt(walk, n, m, k, v, i, j);
    }
  }

  lemma BindAt(walk: seq<Binder>, n: nat, m: nat, key: string, value: string, k: string, v: string)
    requires BindsAt(walk, n, m, key, value)
    ensures IsLastBinding(walk, n, m + 1, k, v) <==> if k == key then v == value else IsLastBinding(walk, n, m, k, v)
  {
    if k == key {
      assert IsLastAt(walk, n, m + 1, k, value, n, m);
      if IsLastBinding(walk, n, m + 1, k, v) {
        var i: nat, j: nat :| IsLastAt(walk, n, m + 1, k, v, i, j);
        assert i == n && j == m;
      }
    } else {
      SameLastBinding(walk, n, m, n, m + 1, k, v);
    }
  }

  // Nothing is left of binder n once its first m names are bound.
  lemma BindAll(walk: seq<Binder>, n: nat, m: nat, k: string, v: string)
    requires n < |walk| && m == |Aliased(walk[n])|
    ensures IsLastBinding(walk, n + 1, 0, k, v) <==> IsLastBinding(walk, n, m, k, v)
  {
    SameLastBinding(walk, n, m, n + 1, 0, k, v);
  }

  ghost predicate BindsLast(aliases: map<string, string>, walk: seq<Binder>, n: nat, m: nat) {
    forall k, v :: (k in aliases && aliases[k] == v) <==> IsLastBinding(walk, n, m, k, v)
  }

  lemma BindsNext(aliases: map<string, string>, walk: seq<Binder>, n: nat, m: nat)
    requires n < |walk| && m < |Aliased(walk[n])| && BindsLast(aliases, walk, n, m)
    ensures BindsLast(aliases[Aliased(walk[n])[m].0 := Aliased(walk[n])[m].1], walk, n, m + 1)
  {
    var key, value, next := Aliased(walk[n])[m].0, Aliased(walk[n])[m].1, m + 1;
    AliasedMeaning(walk, n, m, key, value);
    forall k, v
      ensures (k in aliases[key := value] && aliases[key := value][k] == v) <==> IsLastBinding(walk, n, next, k, v)
    {
      BindAt(walk, n, m, key, value, k, v);
    }
  }

  lemma BindsAll(aliases: map<string, string>, walk: seq<Binder>, n: nat)
    requires n < |walk| && BindsLast(aliases, walk, n, |Aliased(walk[n])|)
    ensures BindsLast(aliases, walk, n + 1, 0)
  {
    var next := n + 1;
    forall k, v
      ensures (k in aliases && aliases[k] == v) <==> IsLastBinding(walk, next, 0, k, v)
    {
      BindAll(walk, n, |Aliased(walk[n])|, k, v);
    }
  }

  method CollectAliases(walk: seq<Binder>) returns (aliases: map<string, string>)
    ensures forall k, v :: (k in aliases && aliases[k] == v) <==> IsLastBinding(walk, |walk|, 0, k, v)
  {
    aliases := map[];
    for n := 0 to |walk|
      invariant BindsLast(aliases, walk, n, 0)
    {
      var pairs := Aliased(walk[n]);
      for m := 0 to |pairs|
        invariant BindsLast(aliases, walk, n, m)
      {
        BindsNext(aliases, walk, n, m);
        aliases := aliases[pairs[m].0 := pairs[m].1];
      }
      BindsAll(aliases, walk, n);
    }
  }

  method CollectNames(walk: seq<Binder>) returns (aliases: map<string, string>, external: set<string>)
    ensures forall k, v :: (k in aliases && aliases[k] == v) <==> IsLastBinding(walk, |walk|, 0, k, v)
    ensures forall x :: x in external <==> exists b :: b in walk && Hides(b, x)
  {
    aliases := CollectAliases(walk);
    external := {};
    for n := 0 to |walk|
      invariant forall x :: x in external <==> exists b :: b in walk[..n] && Hides(b, x)
    {
      assert walk[..n + 1] == walk[..n] + [walk[n]];
      forall x
        ensures x in Externals(walk[n]) <==> Hides(walk[n], x)
      {
        ExternalsMeaning(walk[n], x);
      }
      external := external + Externals(walk[n]);
    }
    assert walk[..|walk|] == walk;
  }

  function UpgradeNodes(body: seq<Statement>): seq<Node> {
    if body == [] then []
    else
      var last := body[|body| - 1];
      UpgradeNodes(body[..|body| - 1]) + if last.FunctionDef? && last.name == "upgrade" then [last.node] else []
  }

  function Nodes(body: seq<Statement>): seq<Node> {
    seq(|body|, i requires 0 <= i < |body| => body[i].node)
  }

  // `upgrade`, or the whole module when there is none.
  function Scopes(body: seq<Statement>): seq<Node> {
    if UpgradeNodes(body) != [] then UpgradeNodes(body) else [Other(Nodes(body))]
  }

  // helpers holds the helpers that the statements define.
  ghost predicate HoldsHelpers(helpers: map<string, Node>, body: seq<Statement>) {
    forall h, node :: (h in helpers && helpers[h] == node) <==> DefinesHelper(body, h, node)
  }

  lemma HoldsNext(helpers: map<string, Node>, body: seq<Statement>, last: Statement)
    requires HoldsHelpers(helpers, body)
    ensures HoldsHelpers(
              if last.FunctionDef? && last.name !in {"upgrade", "downgrade"} then helpers[last.name := last.node] else helpers,
              body + [last])
  {
    var after := if last.FunctionDef? && last.name !in {"upgrade", "downgrade"} then helpers[last.name := last.node] else helpers;
    forall h, node
      ensures (h in after && after[h] == node) <==> DefinesHelper(body + [last], h, node)
    {
      DefineNext(body, last, h, node);
    }
  }

  // The last function of that name defines the helper; `upgrade` and `downgrade` are no helpers.
  ghost predicate DefinesHelper(body: seq<Statement>, h: string, node: Node) {
    && h != "upgrade" && h != "downgrade"
    && exists i :: 0 <= i < |body| && body[i] == FunctionDef(h, node)
                   && forall j :: i < j < |body| ==> !(body[j].FunctionDef? && body[j].name == h)
  }

  lemma DefineNext(body: seq<Statement>, last: Statement, h: string, node: Node)
    ensures DefinesHelper(body + [last], h, node) <==>
              if last.FunctionDef? && last.name == h && h !in {"upgrade", "downgrade"} then node == last.node
              else DefinesHelper(body, h, node)
  {
    var longer := body + [last];
    assert longer[|body|] == last;
    forall i | 0 <= i < |body|
      ensures longer[i] == body[i]
    {
    }
    if DefinesHelper(body, h, node) && !(last.FunctionDef? && last.name == h) {
      var i :| 0 <= i < |body| && body[i] == FunctionDef(h, node)
               && forall j :: i < j < |body| ==> !(body[j].FunctionDef? && body[j].name == h);
      assert longer[i] == FunctionDef(h, node);
    }
    if DefinesHelper(longer, h, node) {
      var i :| 0 <= i < |longer| && longer[i] == FunctionDef(h, node)
               && forall j :: i < j < |longer| ==> !(longer[j].FunctionDef? && longer[j].name == h);
      assert i < |body| ==> body[i] == FunctionDef(h, node);
    }
  }

  method CollectHelpers(body: seq<Statement>) returns (helpers: map<string, Node>)
    ensures forall h, node :: (h in helpers && helpers[h] == node) <==> DefinesHelper(body, h, node)
  {
    helpers := map[];
    for n := 0 to |body|
      invariant HoldsHelpers(helpers, body[..n])
    {
      HoldsNext(helpers, body[..n], body[n]);
      assert body[..n + 1] == body[..n] + [body[n]];
      if body[n].FunctionDef? && body[n].name !in {"upgrade", "downgrade"} {
        helpers := helpers[body[n].name := body[n].node];
      }
    }
    assert body[..|body|] == body;
  }

  predicate IsUpgrade(statement: Statement) {
    statement.FunctionDef? && statement.name == "upgrade"
  }

  // c is a call that the check starts from: anywhere inside an `upgrade`, or, when there is none,
  // anywhere inside the module.
  ghost predicate InScope(body: seq<Statement>, c: Node) {
    && c.Call?
    && exists s :: s in body && Inside(s.node, c) && (IsUpgrade(s) || forall other :: other in body ==> !IsUpgrade(other))
  }

  lemma {:induction false} UpgradeNodesMember(body: seq<Statement>, node: Node)
    ensures node in UpgradeNodes(body) <==> exists s :: s in body && IsUpgrade(s) && s.node == node
  {
    if body != [] {
      UpgradeNodesMember(body[..|body| - 1], node);
      assert body == body[..|body| - 1] + [body[|body| - 1]];
    }
  }

  lemma NoUpgrade(body: seq<Statement>)
    ensures UpgradeNodes(body) == [] <==> forall s :: s in body ==> !IsUpgrade(s)
  {
    if UpgradeNodes(body) != [] {
      UpgradeNodesMember(body, UpgradeNodes(body)[0]);
    }
    if s :| s in body && IsUpgrade(s) {
      UpgradeNodesMember(body, s.node);
    }
  }

  lemma UpgradeScope(body: seq<Statement>, c: Node)
    ensures c in CallsOf(UpgradeNodes(body)) <==> exists s :: s in body && IsUpgrade(s) && c in Calls(s.node)
  {
    var nodes := UpgradeNodes(body);
    CallsOfMember(nodes, c);
    if c in CallsOf(nodes) {
      var i :| 0 <= i < |nodes| && c in Calls(nodes[i]);
      UpgradeNodesMember(body, nodes[i]);
    }
    if s :| s in body && IsUpgrade(s) && c in Calls(s.node) {
      UpgradeNodesMember(body, s.node);
    }
  }

  lemma ModuleScope(body: seq<Statement>, c: Node)
    ensures c in CallsOf([Other(Nodes(body))]) <==> exists s :: s in body && c in Calls(s.node)
  {
    var nodes := Nodes(body);
    assert CallsOf([Other(nodes)]) == CallsOf(nodes);
    CallsOfMember(nodes, c);
    if c in CallsOf(nodes) {
      var i :| 0 <= i < |nodes| && c in Calls(nodes[i]);
      assert body[i] in body;
    }
    if s :| s in body && c in Calls(s.node) {
      var i :| 0 <= i < |body| && body[i] == s;
      assert nodes[i] == s.node;
    }
  }

  /** The calls a check starts from, told from the statements of the module. */
  lemma ScopeMeaning(body: seq<Statement>, c: Node)
    ensures c in CallsOf(Scopes(body)) <==> InScope(body, c)
  {
    NoUpgrade(body);
    UpgradeScope(body, c);
    ModuleScope(body, c);
    forall s | s in body
      ensures c in Calls(s.node) <==> c.Call? && Inside(s.node, c)
    {
      CallsAreInside(s.node, c);
    }
  }

  /** The whole check.  A pair is reported exactly when some call offends that way, among the calls in
      scope and those of every helper reachable from them.  Each helper is entered at most once. */
  method Check(body: seq<Statement>, walk: seq<Binder>, prohibited: map<string, string>, rawSql: string -> Option<string>)
    returns (p: Policy, report: set<Violation>, ghost entered: seq<string>)
    ensures forall h, node :: (h in p.helpers && p.helpers[h] == node) <==> DefinesHelper(body, h, node)
    ensures forall k, v :: (k in p.aliases && p.aliases[k] == v) <==> IsLastBinding(walk, |walk|, 0, k, v)
    ensures forall x :: x in p.external <==> exists b :: b in walk && Hides(b, x)
    ensures p.prohibited == prohibited && p.rawSql == rawSql
    ensures forall c :: c in CallsOf(Scopes(body)) <==> InScope(body, c)
    ensures forall v :: v in report <==> exists c :: IsExamined(p, CallsOf(Scopes(body)), c) && Offends(p, c, v)
    ensures forall h :: h in entered <==> h in p.helpers && Reachable(p, CallsOf(Scopes(body)), h)
    ensures forall i, j :: 0 <= i < j < |entered| ==> entered[i] != entered[j]
  {
    var helpers := CollectHelpers(body);
    var aliases, external := CollectNames(walk);
    p := Policy(helpers, aliases, external, prohibited, rawSql);
    report, entered := RunVisitor(p, Scopes(body));
    forall c
      ensures c in CallsOf(Scopes(body)) <==> InScope(body, c)
    {
      ScopeMeaning(body, c);
    }
  }

  method RunVisitor(p: Policy, scopes: seq<Node>) returns (report: set<Violation>, ghost entered: seq<string>)
    ensures forall v :: v in report <==> exists c :: IsExamined(p, CallsOf(scopes), c) && Offends(p, c, v)
    ensures forall h :: h in entered <==> h in p.helpers && Reachable(p, CallsOf(scopes), h)
    ensures forall i, j :: 0 <= i < j < |entered| ==> entered[i] != entered[j]
  {
    var visitor := new UpgradePolicyVisitor(p);
    visitor.VisitAll(scopes);
    report := set v | v in visitor.violations;
    entered := visitor.entered;
    ExploredIsReported(p, CallsOf(scopes), visitor.visitedHelpers, report);
    forall v
      ensures Reported(p, CallsOf(scopes), v) <==> exists c :: IsExamined(p, CallsOf(scopes), c) && Offends(p, c, v)
    {
      ReportedIffOffends(p, CallsOf(scopes), v);
    }
  }

  /** A migration that drops a table in `upgrade` is reported for it, at the line of the call. */
  lemma DroppedTableIsReported(p: Policy, body: seq<Statement>, s: Statement, c: Node)
    requires s in body && s.FunctionDef? && s.name == "upgrade"
    requires c.Call? && Inside(s.node, c)
    requires c.func.Attribute? && c.func.attr == "drop_table" && "drop_table" !in p.aliases
    requires "drop_table" in p.prohibited && p.prohibited["drop_table"] == "dropped table"
    ensures Reported(p, CallsOf(Scopes(body)), (c.line, "dropped table"))
  {
    ScopeMeaning(body, c);
    assert IsSpelt(c.func, "drop_table");
    assert IsCallTo(p, c, "drop_table");
    assert OffendsByName(p, c, (c.line, "dropped table"));
    assert IsExamined(p, CallsOf(Scopes(body)), c);
    ReportedIffOffends(p, CallsOf(Scopes(body)), (c.line, "dropped table"));
  }

  /** Visiting the same nodes in another order, or some of them again, reports the same. */
  lemma OrderIndependent(p: Policy, nodes: seq<Node>, others: seq<Node>, v: Violation)
    requires forall n :: n in nodes <==> n in others
    ensures Reported(p, CallsOf(nodes), v) <==> Reported(p, CallsOf(others), v)
  {
    forall c
      ensures c in CallsOf(nodes) <==> c in CallsOf(others)
    {
      CallsOfMember(nodes, c);
      CallsOfMember(others, c);
      forall i | 0 <= i < |nodes|
        ensures exists j :: 0 <= j < |others| && others[j] == nodes[i]
      {
        assert nodes[i] in others;
      }
      forall i | 0 <= i < |others|
        ensures exists j :: 0 <= j < |nodes| && nodes[j] == others[i]
      {
        assert others[i] in nodes;
      }
    }
    assert CallsOf(nodes) == CallsOf(others);
  }
}
