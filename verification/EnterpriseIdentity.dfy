/**
 Enterprise identities of users, looked up in batches (server/api/enterprise_user_identity.py).

 The tables are sequences of rows in the order a query returns them.
 */
module EnterpriseIdentity {
  import opened Common

  // `key` is the provider and tenant that identity rows name.
  datatype Source = Source(id: string, key: string)
  datatype User = User(id: string, externalId: string, oidc: bool)
  datatype Identity = Identity(userId: string, provider: string, subject: string)

  datatype Tables = Tables(sources: seq<Source>, users: seq<User>, identities: seq<Identity>)

  // A provider key and a subject.
  type Key = (string, string)
  // A source id and a subject.
  type Pair = (string, string)

  datatype Failure = SourceNotFound | UserNotFound

  const BATCH := 500

  ghost predicate UniqueSources(t: Tables) {
    forall i, j :: 0 <= i < j < |t.sources| ==> t.sources[i].id != t.sources[j].id
  }

  ghost predicate UniqueUsers(t: Tables) {
    && (forall u, v :: u in t.users && v in t.users && u.id == v.id ==> u == v)
    && (forall u, v :: u in t.users && v in t.users && u.externalId == v.externalId ==> u == v)
  }

  ghost predicate UniqueRows(t: Tables) {
    forall r, s :: r in t.identities && s in t.identities && KeyOf(r) == KeyOf(s) ==> r == s
  }

  // The primary keys and unique columns of the three tables.
  ghost predicate Consistent(t: Tables) {
    UniqueSources(t) && UniqueUsers(t) && UniqueRows(t)
  }

  function KeyOf(row: Identity): Key {
    (row.provider, row.subject)
  }

  // ----- the order of the answers -----

  predicate Before(a: string, b: string) {
    b != "" && (a == "" || a[0] < b[0] || (a[0] == b[0] && Before(a[1..], b[1..])))
  }

  predicate PairBefore(a: Pair, b: Pair) {
    Before(a.0, b.0) || (a.0 == b.0 && Before(a.1, b.1))
  }

  lemma {:induction false} BeforeIsStrict(a: string, b: string)
    ensures !(Before(a, b) && Before(b, a)) && !Before(a, a)
    ensures Before(a, b) || Before(b, a) || a == b
  {
    if a != "" && b != "" {
      BeforeIsStrict(a[1..], b[1..]);
      assert a == [a[0]] + a[1..] && b == [b[0]] + b[1..];
    }
    if a != "" {
      BeforeIsStrict(a[1..], a[1..]);
    }
  }

  lemma {:induction false} BeforeChains(a: string, b: string, c: string)
    requires Before(a, b) && Before(b, c)
    ensures Before(a, c)
  {
    if a != "" && a[0] == b[0] == c[0] {
      BeforeChains(a[1..], b[1..], c[1..]);
    }
  }

  lemma PairBeforeIsStrict(a: Pair, b: Pair)
    ensures !(PairBefore(a, b) && PairBefore(b, a)) && !PairBefore(a, a)
    ensures PairBefore(a, b) || PairBefore(b, a) || a == b
  {
    BeforeIsStrict(a.0, b.0);
    BeforeIsStrict(a.1, b.1);
  }

  lemma PairBeforeChains(a: Pair, b: Pair, c: Pair)
    requires PairBefore(a, b) && PairBefore(b, c)
    ensures PairBefore(a, c)
  {
    BeforeIsStrict(a.0, a.0);
    BeforeIsStrict(b.0, b.0);
    if a.0 == b.0 == c.0 {
      BeforeChains(a.1, b.1, c.1);
    } else if a.0 != b.0 && b.0 != c.0 {
      BeforeChains(a.0, b.0, c.0);
    }
  }

  // Sorted, with no pair twice.
  ghost predicate StrictlySorted(s: seq<Pair>) {
    forall i, j :: 0 <= i < j < |s| ==> PairBefore(s[i], s[j])
  }

  function Elements<T>(s: seq<T>): set<T> {
    set x | x in s
  }

  method Insert(s: seq<Pair>, p: Pair) returns (r: seq<Pair>)
    requires StrictlySorted(s) && p !in s
    ensures StrictlySorted(r) && Elements(r) == Elements(s) + {p}
  {
    var i := 0;
    while i < |s| && PairBefore(s[i], p)
      invariant i <= |s| && forall j :: 0 <= j < i ==> PairBefore(s[j], p)
    {
      i := i + 1;
    }
    forall j | i <= j < |s|
      ensures PairBefore(p, s[j])
    {
      PairBeforeIsStrict(s[i], p);
      if i < j {
        PairBeforeChains(p, s[i], s[j]);
      }
    }
    r := s[..i] + [p] + s[i..];
    assert s == s[..i] + s[i..];
  }

  method Sorted(values: set<Pair>) returns (s: seq<Pair>)
    ensures StrictlySorted(s) && Elements(s) == values
  {
    s := [];
    var left := values;
    while left != {}
      invariant left <= values && StrictlySorted(s) && Elements(s) == values - left
      decreases |left|
    {
      var p :| p in left;
      assert p !in s;
      s := Insert(s, p);
      left := left - {p};
    }
  }

  /** A set has one such listing, so the answers below are determined by the sets of pairs. */
  lemma {:induction false} SortedIsUnique(a: seq<Pair>, b: seq<Pair>)
    requires StrictlySorted(a) && StrictlySorted(b) && Elements(a) == Elements(b)
    ensures a == b
  {
    NoElements(a);
    NoElements(b);
    if a != [] {
      SameFirst(a, b);
      TailElements(a);
      TailElements(b);
      SortedIsUnique(a[1..], b[1..]);
      assert a == [a[0]] + a[1..] && b == [b[0]] + b[1..];
    }
  }

  lemma NoElements(s: seq<Pair>)
    ensures s == [] <==> Elements(s) == {}
  {
    if s != [] {
      assert s[0] in Elements(s);
    }
  }

  lemma SameFirst(a: seq<Pair>, b: seq<Pair>)
    requires StrictlySorted(a) && StrictlySorted(b) && Elements(a) == Elements(b) && a != []
    ensures b != [] && a[0] == b[0]
  {
    assert a[0] in Elements(b);
    assert b[0] in Elements(a);
    PairBeforeIsStrict(a[0], b[0]);
  }

  lemma TailElements(a: seq<Pair>)
    requires StrictlySorted(a) && a != []
    ensures Elements(a[1..]) == Elements(a) - {a[0]}
  {
    forall x | x in a[1..]
      ensures x != a[0]
    {
      var i :| 0 <= i < |a[1..]| && a[1..][i] == x;
      assert a[i + 1] == x;
      PairBeforeIsStrict(a[0], x);
    }
    forall x | x in a && x != a[0]
      ensures x in a[1..]
    {
      var i :| 0 <= i < |a| && a[i] == x;
      assert a[1..][i - 1] == x;
    }
  }

  // ----- the definition, one user at a time -----

  // The source a provider key belongs to: a later source with the same key wins.
  function SourceOf(sources: seq<Source>, key: string): Option<string> {
    if sources == [] then None
    else if sources[|sources| - 1].key == key then Some(sources[|sources| - 1].id)
    else SourceOf(sources[..|sources| - 1], key)
  }

  // The provider keys in the order in which they first occur.
  function Providers(sources: seq<Source>): seq<string> {
    if sources == [] then []
    else
      var before, key := Providers(sources[..|sources| - 1]), sources[|sources| - 1].key;
      if key in before then before else before + [key]
  }

  predicate StartsWith(s: string, prefix: string) {
    |prefix| <= |s| && s[..|prefix|] == prefix
  }

  // The first provider whose key and a colon start the external id, and the rest of that id.
  function SplitExternalId(providers: seq<string>, externalId: string): Option<Key> {
    if providers == [] then None
    else
      var prefix := providers[0] + ":";
      if StartsWith(externalId, prefix) then Some((providers[0], externalId[|prefix|..]))
      else SplitExternalId(providers[1..], externalId)
  }

  function Canonical(t: Tables, u: User): Option<Key> {
    if u.oidc then SplitExternalId(Providers(t.sources), u.externalId) else None
  }

  predicate IsExplicit(rows: seq<Identity>, key: Key) {
    exists row :: row in rows && KeyOf(row) == key
  }

  function ExplicitPairs(t: Tables, rows: seq<Identity>, id: string): set<Pair> {
    set row | row in rows && row.userId == id && SourceOf(t.sources, row.provider).Some? ::
      (SourceOf(t.sources, row.provider).value, row.subject)
  }

  function CanonicalPairs(t: Tables, u: User): set<Pair> {
    var key := Canonical(t, u);
    if key.Some? && !IsExplicit(t.identities, key.value) && SourceOf(t.sources, key.value.0).Some?
    then {(SourceOf(t.sources, key.value.0).value, key.value.1)}
    else {}
  }

  // The rows of this user whose provider is known, and the identity its external id spells unless
  // some user holds that identity by a row.
  function PairsOf(t: Tables, u: User): set<Pair> {
    ExplicitPairs(t, t.identities, u.id) + CanonicalPairs(t, u)
  }

  // The pairs of an id, whether or not a user has it.
  ghost predicate IsAnswer(t: Tables, id: string, answer: seq<Pair>) {
    && StrictlySorted(answer)
    && (forall u :: u in t.users && u.id == id ==> Elements(answer) == PairsOf(t, u))
    && ((forall u :: u in t.users ==> u.id != id) ==> answer == [])
  }

  // ----- the definition, told from the tables -----

  // The last source with the key has the id.
  ghost predicate IsSourceFor(sources: seq<Source>, key: string, id: string) {
    exists i :: 0 <= i < |sources| && sources[i].key == key && sources[i].id == id
                && forall j :: i < j < |sources| ==> sources[j].key != key
  }

  ghost predicate Spells(externalId: string, key: string) {
    key + ":" <= externalId
  }

  // The external id is the key, a colon and the subject, and no earlier source has a key that fits.
  ghost predicate IsSplit(sources: seq<Source>, externalId: string, key: string, subject: string) {
    && externalId == key + ":" + subject
    && exists i :: 0 <= i < |sources| && sources[i].key == key
                   && forall j :: 0 <= j < i ==> !Spells(externalId, sources[j].key)
  }

  lemma {:induction false} SourceOfMeaning(sources: seq<Source>, key: string, id: string)
    ensures SourceOf(sources, key) == Some(id) <==> IsSourceFor(sources, key, id)
  {
    if sources != [] {
      var n := |sources| - 1;
      SourceOfMeaning(sources[..n], key, id);
      if sources[n].key != key && IsSourceFor(sources[..n], key, id) {
        var i :| 0 <= i < n && sources[..n][i].key == key && sources[..n][i].id == id
                 && forall j :: i < j < n ==> sources[..n][j].key != key;
        assert sources[i].key == key && sources[i].id == id;
      }
      if sources[n].key != key && IsSourceFor(sources, key, id) {
        var i :| 0 <= i < |sources| && sources[i].key == key && sources[i].id == id
                 && forall j :: i < j < |sources| ==> sources[j].key != key;
        assert sources[..n][i].key == key && sources[..n][i].id == id;
      }
    }
  }

  lemma {:induction false} SplitSnoc(providers: seq<string>, last: string, externalId: string)
    ensures var before := SplitExternalId(providers, externalId);
            SplitExternalId(providers + [last], externalId) ==
              if before.Some? then before
              else if Spells(externalId, last) then Some((last, externalId[|last| + 1..])) else None
    ensures forall p :: p in providers && Spells(externalId, p) ==> SplitExternalId(providers, externalId).Some?
  {
    if providers == [] {
      assert [last][1..] == [];
    } else {
      SplitSnoc(providers[1..], last, externalId);
      assert (providers + [last])[1..] == providers[1..] + [last];
    }
  }

  // The split of the sources but the last, when the last one is looked at too.
  lemma SplitNext(sources: seq<Source>, externalId: string, key: string, subject: string)
    requires sources != []
    ensures var n := |sources| - 1;
            IsSplit(sources, externalId, key, subject) <==>
            || IsSplit(sources[..n], externalId, key, subject)
            || (externalId == key + ":" + subject && sources[n].key == key
                && forall j :: 0 <= j < n ==> !Spells(externalId, sources[j].key))
  {
    var n := |sources| - 1;
    if IsSplit(sources, externalId, key, subject) {
      var i :| 0 <= i < |sources| && sources[i].key == key && forall j :: 0 <= j < i ==> !Spells(externalId, sources[j].key);
      assert i < n ==> sources[..n][i].key == key;
    }
    if IsSplit(sources[..n], externalId, key, subject) {
      var i :| 0 <= i < n && sources[..n][i].key == key && forall j :: 0 <= j < i ==> !Spells(externalId, sources[..n][j].key);
      assert sources[i].key == key;
      forall j | 0 <= j < i
        ensures !Spells(externalId, sources[j].key)
      {
        assert sources[..n][j] == sources[j];
      }
    }
  }

  lemma {:induction false} SplitNone(sources: seq<Source>, externalId: string)
    ensures SplitExternalId(Providers(sources), externalId).None? <==>
            forall j :: 0 <= j < |sources| ==> !Spells(externalId, sources[j].key)
  {
    if sources != [] {
      var n := |sources| - 1;
      SplitNone(sources[..n], externalId);
      SplitSnoc(Providers(sources[..n]), sources[n].key, externalId);
      assert forall j :: 0 <= j < n ==> sources[..n][j] == sources[j];
    }
  }

  lemma SpellsRest(externalId: string, key: string, subject: string)
    ensures Spells(externalId, key) && externalId[|key| + 1..] == subject <==> externalId == key + ":" + subject
  {
  }

  lemma {:induction false} SplitMeaning(sources: seq<Source>, externalId: string, key: string, subject: string)
    ensures SplitExternalId(Providers(sources), externalId) == Some((key, subject)) <==>
            IsSplit(sources, externalId, key, subject)
  {
    if sources != [] {
      var n := |sources| - 1;
      SplitMeaning(sources[..n], externalId, key, subject);
      SplitNone(sources[..n], externalId);
      SplitNext(sources, externalId, key, subject);
      SplitSnoc(Providers(sources[..n]), sources[n].key, externalId);
      SpellsRest(externalId, key, subject);
      assert forall j :: 0 <= j < n ==> sources[..n][j] == sources[j];
    }
  }

  /** What is listed for a user: the subjects of the user's own rows, under the last source with the key
      the row names; and, for an OIDC user, the subject that the external id spells after the key of the
      first source that fits, unless some row holds that key and subject. */
  lemma PairsMeaning(t: Tables, u: User, p: Pair)
    ensures p in PairsOf(t, u) <==>
            || (exists row :: row in t.identities && row.userId == u.id && row.subject == p.1 && IsSourceFor(t.sources, row.provider, p.0))
            || (u.oidc && exists key :: IsSplit(t.sources, u.externalId, key, p.1) && IsSourceFor(t.sources, key, p.0)
                                        && forall row :: row in t.identities ==> !(row.provider == key && row.subject == p.1))
  {
    forall key
      ensures SourceOf(t.sources, key) == Some(p.0) <==> IsSourceFor(t.sources, key, p.0)
      ensures SplitExternalId(Providers(t.sources), u.externalId) == Some((key, p.1)) <==>
              IsSplit(t.sources, u.externalId, key, p.1)
    {
      SourceOfMeaning(t.sources, key, p.0);
      SplitMeaning(t.sources, u.externalId, key, p.1);
    }
    ExplicitMeaning(t, u, p);
    CanonicalMeaning(t, u, p);
  }

  lemma ExplicitMeaning(t: Tables, u: User, p: Pair)
    ensures p in ExplicitPairs(t, t.identities, u.id) <==>
            exists row :: row in t.identities && row.userId == u.id && row.subject == p.1 && SourceOf(t.sources, row.provider) == Some(p.0)
  {
  }

  lemma CanonicalMeaning(t: Tables, u: User, p: Pair)
    ensures p in CanonicalPairs(t, u) <==>
            u.oidc && exists key :: SplitExternalId(Providers(t.sources), u.externalId) == Some((key, p.1))
                                    && SourceOf(t.sources, key) == Some(p.0)
                                    && forall row :: row in t.identities ==> !(row.provider == key && row.subject == p.1)
  {
    var split := Canonical(t, u);
    if split.Some? {
      assert IsExplicit(t.identities, split.value) <==>
             exists row :: row in t.identities && row.provider == split.value.0 && row.subject == split.value.1;
      assert split == Some((split.value.0, split.value.1));
    }
  }

  /** The order of the answers is the lexicographic one: a proper prefix first, else by the first
      character that differs. */
  lemma {:induction false} BeforeMeaning(a: string, b: string)
    ensures Before(a, b) <==> a < b || exists n :: 0 <= n < |a| && n < |b| && a[..n] == b[..n] && a[n] < b[n]
  {
    if a != "" && b != "" && a[0] == b[0] {
      BeforeMeaning(a[1..], b[1..]);
      assert a == [a[0]] + a[1..] && b == [b[0]] + b[1..];
      if n :| 0 <= n < |a| && n < |b| && a[..n] == b[..n] && a[n] < b[n] {
        assert a[1..][..n - 1] == a[..n][1..] && b[1..][..n - 1] == b[..n][1..];
        assert a[1..][n - 1] < b[1..][n - 1];
      }
      if n :| 0 <= n < |a[1..]| && n < |b[1..]| && a[1..][..n] == b[1..][..n] && a[1..][n] < b[1..][n] {
        assert a[..n + 1] == [a[0]] + a[1..][..n] && b[..n + 1] == [b[0]] + b[1..][..n];
        assert a[n + 1] < b[n + 1];
      }
    } else if a != "" && b != "" {
      assert a[..0] == b[..0];
      forall n | 0 < n < |a| && n < |b|
        ensures a[..n] != b[..n]
      {
        assert a[..n][0] == a[0] && b[..n][0] == b[0];
      }
    }
  }

  // ----- the lookup of a page of users -----

  function UsersIn(users: seq<User>, ids: set<string>): (r: seq<User>)
    ensures forall u :: u in r <==> u in users && u.id in ids
  {
    if users == [] then [] else (if users[0].id in ids then [users[0]] else []) + UsersIn(users[1..], ids)
  }

  function RowsFor(rows: seq<Identity>, ids: set<string>, keys: set<Key>): (r: seq<Identity>)
    ensures forall row :: row in r <==> row in rows && (row.userId in ids || KeyOf(row) in keys)
  {
    if rows == [] then []
    else (if rows[0].userId in ids || KeyOf(rows[0]) in keys then [rows[0]] else []) + RowsFor(rows[1..], ids, keys)
  }

  lemma {:induction false} SourceOfKey(sources: seq<Source>, key: string)
    ensures SourceOf(sources, key).Some? <==> key in Providers(sources)
    ensures SourceOf(sources, key).Some? ==> exists s :: s in sources && s.key == key && s.id == SourceOf(sources, key).value
    ensures SourceOf(sources, key).None? ==> forall s :: s in sources ==> s.key != key
  {
    if sources != [] {
      var n := |sources| - 1;
      SourceOfKey(sources[..n], key);
      assert sources == sources[..n] + [sources[n]];
      assert sources[n] in sources;
    }
  }

  ghost predicate MapsProvider(sources: seq<Source>, byProvider: map<string, string>, key: string) {
    SourceOf(sources, key) == if key in byProvider then Some(byProvider[key]) else None
  }

  ghost predicate IsProviderMap(t: Tables, byProvider: map<string, string>) {
    forall key :: MapsProvider(t.sources, byProvider, key)
  }

  lemma AddProvider(sources: seq<Source>, before: seq<Source>, byProvider: map<string, string>, next: map<string, string>)
    requires sources != [] && next == byProvider[sources[|sources| - 1].key := sources[|sources| - 1].id]
    requires before == sources[..|sources| - 1] && forall key :: MapsProvider(before, byProvider, key)
    ensures forall key :: MapsProvider(sources, next, key)
  {
    forall key
      ensures MapsProvider(sources, next, key)
    {
      assert MapsProvider(before, byProvider, key);
    }
  }

  // The dictionary from provider keys to source ids, and its keys in the order they were added.
  method ByProvider(sources: seq<Source>) returns (byProvider: map<string, string>, order: seq<string>)
    ensures order == Providers(sources)
    ensures forall key :: MapsProvider(sources, byProvider, key)
  {
    byProvider, order := map[], [];
    for n := 0 to |sources|
      invariant order == Providers(sources[..n])
      invariant forall key :: MapsProvider(sources[..n], byProvider, key)
      invariant forall key :: key in order <==> key in byProvider
    {
      assert sources[..n + 1][..n] == sources[..n];
      AddProvider(sources[..n + 1], sources[..n], byProvider, byProvider[sources[n].key := sources[n].id]);
      assert MapsProvider(sources[..n], byProvider, sources[n].key);
      if sources[n].key !in byProvider {
        order := order + [sources[n].key];
      }
      byProvider := byProvider[sources[n].key := sources[n].id];
    }
    assert sources[..|sources|] == sources;
  }

  lemma {:induction false} SplitRebuilds(providers: seq<string>, externalId: string)
    ensures var split := SplitExternalId(providers, externalId);
            split.Some? ==> split.value.0 in providers && externalId == split.value.0 + ":" + split.value.1
  {
    if providers != [] {
      SplitRebuilds(providers[1..], externalId);
    }
  }

  // Two users never spell the same identity.
  lemma CanonicalIsUnique(t: Tables, u: User, v: User)
    requires UniqueUsers(t) && u in t.users && v in t.users
    requires Canonical(t, u).Some? && Canonical(t, u) == Canonical(t, v)
    ensures u == v
  {
    SplitRebuilds(Providers(t.sources), u.externalId);
    SplitRebuilds(Providers(t.sources), v.externalId);
  }

  lemma SameUser(t: Tables, u: User, v: User)
    requires UniqueUsers(t) && u in t.users && v in t.users && u.id == v.id
    ensures u == v
  {
  }

  method FirstProvider(order: seq<string>, externalId: string) returns (split: Option<Key>)
    ensures split == SplitExternalId(order, externalId)
  {
    assert order[0..] == order;
    for n := 0 to |order|
      invariant SplitExternalId(order, externalId) == SplitExternalId(order[n..], externalId)
    {
      assert order[n..][1..] == order[n + 1..];
      var prefix := order[n] + ":";
      if StartsWith(externalId, prefix) {
        return Some((order[n], externalId[|prefix|..]));
      }
    }
    split := None;
  }

  // The identities that the external ids of these users spell.
  ghost predicate IsCanonicalMap(t: Tables, users: seq<User>, canonical: map<Key, string>) {
    && (forall u :: u in users && Canonical(t, u).Some? ==>
          Canonical(t, u).value in canonical && canonical[Canonical(t, u).value] == u.id)
    && (forall key :: key in canonical ==> IsSpelled(t, users, key, canonical[key]))
  }

  ghost predicate IsSpelled(t: Tables, users: seq<User>, key: Key, id: string) {
    exists u :: u in users && Canonical(t, u) == Some(key) && u.id == id
  }

  lemma AddSpelled(t: Tables, users: seq<User>, n: nat, canonical: map<Key, string>)
    requires UniqueUsers(t) && n < |users| && (forall u :: u in users ==> u in t.users)
    requires IsCanonicalMap(t, users[..n], canonical)
    ensures var spelled := Canonical(t, users[n]);
            IsCanonicalMap(t, users[..n + 1], if spelled.Some? then canonical[spelled.value := users[n].id] else canonical)
  {
    var u := users[n];
    assert users[..n + 1] == users[..n] + [u];
    forall v | v in users[..n] && Canonical(t, u).Some? && Canonical(t, v) == Canonical(t, u)
      ensures v == u
    {
      CanonicalIsUnique(t, u, v);
    }
    forall key, id | IsSpelled(t, users[..n], key, id)
      ensures IsSpelled(t, users[..n + 1], key, id)
    {
    }
    assert Canonical(t, u).Some? ==> IsSpelled(t, users[..n + 1], Canonical(t, u).value, u.id);
  }

  method CanonicalMap(t: Tables, order: seq<string>, users: seq<User>) returns (canonical: map<Key, string>)
    requires UniqueUsers(t) && order == Providers(t.sources) && forall u :: u in users ==> u in t.users
    ensures IsCanonicalMap(t, users, canonical)
  {
    canonical := map[];
    for n := 0 to |users|
      invariant IsCanonicalMap(t, users[..n], canonical)
    {
      var u := users[n];
      AddSpelled(t, users, n, canonical);
      if u.oidc {
        var split := FirstProvider(order, u.externalId);
        if split.Some? {
          canonical := canonical[split.value := u.id];
        }
      }
    }
    assert users[..|users|] == users;
  }

  // The pairs read from the rows of the users of a batch.
  method ExplicitByUser(t: Tables, byProvider: map<string, string>, users: seq<User>, rows: seq<Identity>)
    returns (pairs: map<string, set<Pair>>)
    requires IsProviderMap(t, byProvider)
    ensures pairs.Keys == set u | u in users :: u.id
    ensures forall id :: id in pairs ==> pairs[id] == ExplicitPairs(t, rows, id)
  {
    var ids := set u | u in users :: u.id;
    pairs := map id | id in ids :: {};
    for n := 0 to |rows|
      invariant pairs.Keys == ids
      invariant forall id :: id in pairs ==> pairs[id] == ExplicitPairs(t, rows[..n], id)
    {
      var row := rows[n];
      ExplicitSnoc(t, rows, n);
      assert MapsProvider(t.sources, byProvider, row.provider);
      if row.userId in pairs && row.provider in byProvider {
        pairs := pairs[row.userId := pairs[row.userId] + {(byProvider[row.provider], row.subject)}];
      }
    }
    assert rows[..|rows|] == rows;
  }

  lemma ExplicitSnoc(t: Tables, rows: seq<Identity>, n: nat)
    requires n < |rows|
    ensures forall id :: ExplicitPairs(t, rows[..n + 1], id) ==
                         ExplicitPairs(t, rows[..n], id) +
                         (if rows[n].userId == id && SourceOf(t.sources, rows[n].provider).Some?
                          then {(SourceOf(t.sources, rows[n].provider).value, rows[n].subject)} else {})
  {
    assert rows[..n + 1] == rows[..n] + [rows[n]];
  }

  // The rows a batch reads decide the same pairs as the whole table.
  lemma RowsAreEnough(t: Tables, ids: set<string>, keys: set<Key>)
    ensures var rows := RowsFor(t.identities, ids, keys);
            && (forall id :: id in ids ==> ExplicitPairs(t, rows, id) == ExplicitPairs(t, t.identities, id))
            && (forall key :: key in keys ==> (IsExplicit(rows, key) <==> IsExplicit(t.identities, key)))
  {
    var rows := RowsFor(t.identities, ids, keys);
    forall key | key in keys && IsExplicit(t.identities, key)
      ensures IsExplicit(rows, key)
    {
      var row :| row in t.identities && KeyOf(row) == key;
      assert row in rows;
    }
  }

  // What one user has once the spelled identities still in `left` are not added yet.
  ghost predicate SoFar(t: Tables, u: User, pairs: set<Pair>, left: set<Key>) {
    pairs == ExplicitPairs(t, t.identities, u.id)
             + (if Canonical(t, u).Some? && Canonical(t, u).value in left then {} else CanonicalPairs(t, u))
  }

  // One batch: the pairs of the users that exist, read with two queries.
  method LookUpBatch(t: Tables, byProvider: map<string, string>, order: seq<string>, batch: seq<string>)
    returns (pairs: map<string, set<Pair>>)
    requires UniqueUsers(t) && order == Providers(t.sources)
    requires IsProviderMap(t, byProvider)
    ensures pairs.Keys == set u | u in t.users && u.id in batch :: u.id
    ensures forall u :: u in t.users && u.id in batch ==> pairs[u.id] == PairsOf(t, u)
  {
    var users := UsersIn(t.users, Elements(batch));
    var canonical := CanonicalMap(t, order, users);
    var ids := set u | u in users :: u.id;
    var rows := RowsFor(t.identities, ids, canonical.Keys);
    var explicitKeys := set row | row in rows :: KeyOf(row);
    pairs := ExplicitByUser(t, byProvider, users, rows);
    RowsAreEnough(t, ids, canonical.Keys);
    AllStart(t, users, canonical, pairs);
    pairs := AddCanonical(t, byProvider, users, canonical, explicitKeys, pairs);
    AllEnd(t, users, pairs);
  }

  // Adds the spelled identities that no user holds by a row.
  method AddCanonical(t: Tables, byProvider: map<string, string>, users: seq<User>, canonical: map<Key, string>,
                      explicitKeys: set<Key>, before: map<string, set<Pair>>)
    returns (pairs: map<string, set<Pair>>)
    requires UniqueUsers(t) && (forall u :: u in users ==> u in t.users) && IsProviderMap(t, byProvider)
    requires forall key :: key in canonical ==> IsSpelled(t, users, key, canonical[key])
    requires forall key :: key in canonical ==> (key in explicitKeys <==> IsExplicit(t.identities, key))
    requires AllSoFar(t, users, before, canonical.Keys)
    ensures pairs.Keys == before.Keys
    ensures AllSoFar(t, users, pairs, {})
  {
    pairs := before;
    var left := canonical.Keys;
    while left != {}
      invariant left <= canonical.Keys && pairs.Keys == before.Keys
      invariant AllSoFar(t, users, pairs, left)
      decreases |left|
    {
      var key :| key in left;
      var id := canonical[key];
      ghost var owner := Owner(t, users, key, id);
      var values := AddKey(t, byProvider, key, explicitKeys, pairs[id], owner, left);
      OthersStay(t, users, owner, key, pairs, values, left);
      pairs := pairs[id := values];
      left := left - {key};
    }
  }

  method AddKey(t: Tables, byProvider: map<string, string>, key: Key, explicitKeys: set<Key>, before: set<Pair>,
                ghost owner: User, ghost left: set<Key>)
    returns (after: set<Pair>)
    requires IsProviderMap(t, byProvider) && SourceOf(t.sources, key.0).Some?
    requires key in explicitKeys <==> IsExplicit(t.identities, key)
    requires key in left && Canonical(t, owner) == Some(key) && SoFar(t, owner, before, left)
    ensures SoFar(t, owner, after, left - {key})
  {
    assert MapsProvider(t.sources, byProvider, key.0);
    after := before;
    if key !in explicitKeys {
      after := after + {(byProvider[key.0], key.1)};
    }
  }

  lemma AllStart(t: Tables, users: seq<User>, canonical: map<Key, string>, pairs: map<string, set<Pair>>)
    requires IsCanonicalMap(t, users, canonical)
    requires forall u :: u in users ==> u.id in pairs && pairs[u.id] == ExplicitPairs(t, t.identities, u.id)
    ensures AllSoFar(t, users, pairs, canonical.Keys)
  {
  }

  lemma AllEnd(t: Tables, users: seq<User>, pairs: map<string, set<Pair>>)
    requires AllSoFar(t, users, pairs, {})
    ensures forall u :: u in users ==> u.id in pairs && pairs[u.id] == PairsOf(t, u)
  {
    forall u | u in users
      ensures pairs[u.id] == PairsOf(t, u)
    {
      assert SoFar(t, u, pairs[u.id], {});
    }
  }

  ghost predicate AllSoFar(t: Tables, users: seq<User>, pairs: map<string, set<Pair>>, left: set<Key>) {
    forall u :: u in users ==> u.id in pairs && SoFar(t, u, pairs[u.id], left)
  }

  lemma OthersStay(t: Tables, users: seq<User>, owner: User, key: Key, pairs: map<string, set<Pair>>, values: set<Pair>,
                   left: set<Key>)
    requires UniqueUsers(t) && (forall u :: u in users ==> u in t.users) && owner in users && key in left
    requires Canonical(t, owner) == Some(key) && AllSoFar(t, users, pairs, left)
    requires SoFar(t, owner, values, left - {key})
    ensures AllSoFar(t, users, pairs[owner.id := values], left - {key})
  {
    forall u | u in users && u != owner
      ensures u.id != owner.id && SoFar(t, u, pairs[u.id], left - {key})
    {
      OtherOwner(t, users, key, owner, u);
      assert SoFar(t, u, pairs[u.id], left);
    }
  }

  lemma Owner(t: Tables, users: seq<User>, key: Key, id: string) returns (owner: User)
    requires IsSpelled(t, users, key, id)
    ensures owner in users && Canonical(t, owner) == Some(key) && owner.id == id
    ensures SourceOf(t.sources, key.0).Some?
  {
    owner :| owner in users && Canonical(t, owner) == Some(key) && owner.id == id;
    SplitRebuilds(Providers(t.sources), owner.externalId);
    SourceOfKey(t.sources, key.0);
  }

  lemma OtherOwner(t: Tables, users: seq<User>, key: Key, owner: User, u: User)
    requires UniqueUsers(t) && (forall v :: v in users ==> v in t.users) && owner in users && u in users && u != owner
    requires Canonical(t, owner) == Some(key)
    ensures u.id != owner.id && Canonical(t, u) != Some(key)
  {
    if u.id == owner.id {
      SameUser(t, u, owner);
    }
    if Canonical(t, u) == Some(key) {
      CanonicalIsUnique(t, u, owner);
    }
  }

  lemma ElementsSnoc(ids: seq<string>)
    requires ids != []
    ensures Elements(ids) == Elements(ids[..|ids| - 1]) + {ids[|ids| - 1]}
  {
    assert ids == ids[..|ids| - 1] + [ids[|ids| - 1]];
  }

  function Dedup(ids: seq<string>): (r: seq<string>)
    ensures Elements(r) == Elements(ids)
  {
    if ids == [] then []
    else
      var before, id := Dedup(ids[..|ids| - 1]), ids[|ids| - 1];
      ElementsSnoc(ids);
      ElementsSnoc(before + [id]);
      assert (before + [id])[..|before|] == before;
      if id in before then before else before + [id]
  }

  method EnterpriseIdentitiesByUser(t: Tables, userIds: seq<string>) returns (result: map<string, seq<Pair>>)
    requires UniqueUsers(t)
    ensures result.Keys == Elements(userIds)
    ensures forall id :: id in userIds ==> IsAnswer(t, id, result[id])
  {
    result := map id | id in userIds :: [];
    if userIds == [] {
      return;
    }
    var byProvider, order := ByProvider(t.sources);
    var ids := Dedup(userIds);
    var start := 0;
    while start < |ids|
      invariant result.Keys == Elements(userIds)
      invariant Answered(t, ids[..if start <= |ids| then start else |ids|], result)
    {
      var end := if start + BATCH <= |ids| then start + BATCH else |ids|;
      var batch := ids[start..end];
      assert ids[..end] == ids[..start] + batch;
      BatchInResult(ids, start, end, result.Keys);
      var pairs := LookUpBatch(t, byProvider, order, batch);
      BatchKeys(t, batch, pairs, result.Keys);
      var sorted := SortInto(pairs, result);
      BatchAnswers(t, ids[..start], batch, pairs, result, sorted);
      result := sorted;
      start := start + BATCH;
    }
    assert ids[..|ids|] == ids;
    forall id | id in userIds
      ensures IsAnswer(t, id, result[id])
    {
      assert id in Elements(ids);
    }
  }

  ghost predicate IsSorted(pairs: map<string, set<Pair>>, before: map<string, seq<Pair>>, after: map<string, seq<Pair>>) {
    && after.Keys == before.Keys
    && forall id :: id in before ==>
         if id in pairs then StrictlySorted(after[id]) && Elements(after[id]) == pairs[id] else after[id] == before[id]
  }

  // The sorted answers of one batch replace what the result held.
  method SortInto(pairs: map<string, set<Pair>>, before: map<string, seq<Pair>>) returns (after: map<string, seq<Pair>>)
    requires pairs.Keys <= before.Keys
    ensures IsSorted(pairs, before, after)
  {
    after := before;
    var left := pairs.Keys;
    while left != {}
      invariant left <= pairs.Keys && after.Keys == before.Keys
      invariant forall id :: id in before ==>
                  if id in pairs && id !in left then StrictlySorted(after[id]) && Elements(after[id]) == pairs[id]
                  else after[id] == before[id]
      decreases |left|
    {
      var id :| id in left;
      var values := Sorted(pairs[id]);
      left := left - {id};
      after := after[id := values];
    }
  }

  lemma BatchKeys(t: Tables, batch: seq<string>, pairs: map<string, set<Pair>>, ids: set<string>)
    requires pairs.Keys == set u | u in t.users && u.id in batch :: u.id
    requires forall id :: id in batch ==> id in ids
    ensures pairs.Keys <= ids
  {
  }

  lemma BatchInResult(ids: seq<string>, start: nat, end: nat, keys: set<string>)
    requires start <= end <= |ids| && Elements(ids) == keys
    ensures forall id :: id in ids[start..end] ==> id in keys
  {
    forall id | id in ids[start..end]
      ensures id in Elements(ids)
    {
    }
  }

  // The ids looked up so far have their answers; the others have none, or theirs.
  ghost predicate Answered(t: Tables, ids: seq<string>, result: map<string, seq<Pair>>) {
    && (forall id :: id in ids ==> id in result && IsAnswer(t, id, result[id]))
    && (forall id :: id in result ==> result[id] == [] || IsAnswer(t, id, result[id]))
  }

  lemma BatchAnswers(t: Tables, ids: seq<string>, batch: seq<string>, pairs: map<string, set<Pair>>,
                     before: map<string, seq<Pair>>, after: map<string, seq<Pair>>)
    requires UniqueUsers(t) && Answered(t, ids, before) && forall id :: id in batch ==> id in before
    requires pairs.Keys == set u | u in t.users && u.id in batch :: u.id
    requires forall u :: u in t.users && u.id in batch ==> pairs[u.id] == PairsOf(t, u)
    requires IsSorted(pairs, before, after)
    ensures Answered(t, ids + batch, after)
  {
    forall id | id in before
      ensures after[id] == [] || IsAnswer(t, id, after[id])
      ensures id in batch || IsAnswer(t, id, before[id]) ==> IsAnswer(t, id, after[id])
    {
      BatchAnswer(t, batch, pairs, before, after, id);
    }
  }

  lemma BatchAnswer(t: Tables, batch: seq<string>, pairs: map<string, set<Pair>>, before: map<string, seq<Pair>>,
                    after: map<string, seq<Pair>>, id: string)
    requires UniqueUsers(t) && id in before && IsSorted(pairs, before, after)
    requires before[id] == [] || IsAnswer(t, id, before[id])
    requires pairs.Keys == set u | u in t.users && u.id in batch :: u.id
    requires forall u :: u in t.users && u.id in batch ==> pairs[u.id] == PairsOf(t, u)
    ensures after[id] == [] || IsAnswer(t, id, after[id])
    ensures id in batch || IsAnswer(t, id, before[id]) ==> IsAnswer(t, id, after[id])
  {
  }

  // ----- the selector -----

  function FindSource(sources: seq<Source>, id: string): Option<Source> {
    if sources == [] then None
    else if sources[0].id == id then Some(sources[0])
    else FindSource(sources[1..], id)
  }

  // A row maps the subject of a provider to a user that exists.
  ghost predicate Maps(t: Tables, key: string, subject: string, userId: string) {
    Identity(userId, key, subject) in t.identities && exists u :: u in t.users && u.id == userId
  }

  ghost predicate IsMapped(t: Tables, key: string, subject: string) {
    exists id :: Maps(t, key, subject, id)
  }

  // The rows of the wanted identities, joined with the users.
  function Joined(t: Tables, wanted: set<Key>): (r: seq<Identity>)
    ensures forall row :: row in r <==> row in t.identities && KeyOf(row) in wanted && exists u :: u in t.users && u.id == row.userId
  {
    UsersOf(t, RowsFor(t.identities, {}, wanted))
  }

  function UsersOf(t: Tables, rows: seq<Identity>): (r: seq<Identity>)
    ensures forall row :: row in r <==> row in rows && exists u :: u in t.users && u.id == row.userId
  {
    if rows == [] then []
    else (if exists u :: u in t.users && u.id == rows[0].userId then [rows[0]] else []) + UsersOf(t, rows[1..])
  }

  method ResolveEnterpriseUserIds(t: Tables, sourceId: string, subjects: seq<string>)
    returns (result: Result<seq<string>, Failure>)
    ensures match FindSource(t.sources, sourceId)
            case None => result == Err(SourceNotFound)
            case Some(source) =>
              if forall s :: s in subjects ==> IsMapped(t, source.key, s) then
                && result.Ok? && |result.value| == |subjects|
                && forall i :: 0 <= i < |subjects| ==> Maps(t, source.key, subjects[i], result.value[i])
              else result == Err(UserNotFound)
  {
    var found := FindSource(t.sources, sourceId);
    if found.None? {
      return Err(SourceNotFound);
    }
    var key := found.value.key;
    var bySubject: map<string, string> := map[];
    var start := 0;
    while start < |subjects|
      invariant forall s :: s in bySubject ==> Maps(t, key, s, bySubject[s])
      invariant forall s, id :: s in subjects[..if start <= |subjects| then start else |subjects|] && Maps(t, key, s, id) ==>
                  s in bySubject
    {
      var end := if start + BATCH <= |subjects| then start + BATCH else |subjects|;
      var wanted := set s | s in subjects[start..end] :: (key, s);
      var rows := Joined(t, wanted);
      assert subjects[..end] == subjects[..start] + subjects[start..end];
      forall row | row in rows
        ensures Maps(t, key, row.subject, row.userId)
      {
        assert row == Identity(row.userId, key, row.subject);
      }
      bySubject := UpdateFrom(t, key, rows, bySubject);
      forall s, id | s in subjects[start..end] && Maps(t, key, s, id)
        ensures s in bySubject
      {
        assert Identity(id, key, s) in rows;
      }
      start := start + BATCH;
    }
    assert subjects[..|subjects|] == subjects;
    if exists s :: s in subjects && s !in bySubject {
      ghost var s :| s in subjects && s !in bySubject;
      assert !IsMapped(t, key, s);
      return Err(UserNotFound);
    }
    forall s | s in subjects
      ensures IsMapped(t, key, s)
    {
      assert Maps(t, key, s, bySubject[s]);
    }
    result := Ok(seq(|subjects|, i requires 0 <= i < |subjects| => bySubject[subjects[i]]));
  }

  method UpdateFrom(t: Tables, key: string, rows: seq<Identity>, before: map<string, string>) returns (after: map<string, string>)
    requires forall row :: row in rows ==> Maps(t, key, row.subject, row.userId)
    requires forall s :: s in before ==> Maps(t, key, s, before[s])
    ensures forall s :: s in after ==> Maps(t, key, s, after[s])
    ensures before.Keys <= after.Keys && forall row :: row in rows ==> row.subject in after
  {
    after := before;
    for n := 0 to |rows|
      invariant forall s :: s in after ==> Maps(t, key, s, after[s])
      invariant before.Keys <= after.Keys && forall m :: 0 <= m < n ==> rows[m].subject in after
    {
      assert rows[n] in rows;
      after := after[rows[n].subject := rows[n].userId];
    }
  }

  /** At most one user is mapped, so the answer of the selector is determined. */
  lemma MapsIsUnique(t: Tables, key: string, subject: string, a: string, b: string)
    requires UniqueRows(t) && Maps(t, key, subject, a) && Maps(t, key, subject, b)
    ensures a == b
  {
    assert KeyOf(Identity(a, key, subject)) == KeyOf(Identity(b, key, subject));
  }

  lemma {:induction false} FindSourceMeaning(sources: seq<Source>, id: string)
    requires forall i, j :: 0 <= i < j < |sources| ==> sources[i].id != sources[j].id
    ensures forall s :: s in sources && s.id == id ==> FindSource(sources, id) == Some(s)
  {
    if sources != [] {
      FindSourceMeaning(sources[1..], id);
      assert sources == [sources[0]] + sources[1..];
    }
  }

  /** An identity that a user's page lists can be selected, and selects that very user, exactly when
      it stands in the table of identities; one spelled by the user's external id alone cannot. */
  lemma ListedIsSelectableIffExplicit(t: Tables, u: User, pair: Pair)
    requires Consistent(t) && u in t.users && pair in PairsOf(t, u)
    ensures FindSource(t.sources, pair.0).Some?
    ensures var key := FindSource(t.sources, pair.0).value.key;
            && (Maps(t, key, pair.1, u.id) <==> IsExplicit(t.identities, (key, pair.1)))
            && (pair in CanonicalPairs(t, u) <==> !IsExplicit(t.identities, (key, pair.1)))
  {
    var provider := ListedProvider(t, u, pair);
    ProviderOfSource(t, provider, pair.0);
    if pair in CanonicalPairs(t, u) {
      ProviderOfSource(t, Canonical(t, u).value.0, pair.0);
    }
    RowIsExplicit(t, u, provider, pair.1);
  }

  lemma RowIsExplicit(t: Tables, u: User, provider: string, subject: string)
    ensures Maps(t, provider, subject, u.id) ==> IsExplicit(t.identities, (provider, subject))
  {
    var row := Identity(u.id, provider, subject);
    assert KeyOf(row) == (provider, subject);
  }

  lemma ProviderOfSource(t: Tables, provider: string, id: string)
    requires Consistent(t) && SourceOf(t.sources, provider) == Some(id)
    ensures FindSource(t.sources, id).Some? && FindSource(t.sources, id).value.key == provider
  {
    SourceOfKey(t.sources, provider);
    FindSourceMeaning(t.sources, id);
  }

  lemma ListedProvider(t: Tables, u: User, pair: Pair) returns (provider: string)
    requires Consistent(t) && u in t.users && pair in PairsOf(t, u)
    ensures SourceOf(t.sources, provider) == Some(pair.0)
    ensures Maps(t, provider, pair.1, u.id) || (Canonical(t, u) == Some((provider, pair.1)) && !IsExplicit(t.identities, (provider, pair.1)))
  {
    if pair in ExplicitPairs(t, t.identities, u.id) {
      var row :| row in t.identities && row.userId == u.id && SourceOf(t.sources, row.provider) == Some(pair.0)
                 && row.subject == pair.1;
      assert row == Identity(u.id, row.provider, pair.1);
      provider := row.provider;
    } else {
      provider := Canonical(t, u).value.0;
    }
  }
}
