/** The dependency closure of a set of root packages over a pinned index and an installed base. */
module Resolver {
  import opened Common
  import opened Versions

  datatype Origin = Base | Index

  /** What a package offers, each capability with its version if it has one, and what it depends on. */
  datatype Package = Package(offers: map<string, Option<string>>, depends: seq<string>)

  datatype Repository = Repository(installed: map<string, Package>, index: map<string, Package>)

  datatype Edge = Edge(dependency: string, provider: string, origin: Origin)

  type Selection = map<string, Origin>

  const MAX_PACKAGES := 256

  function PackagesOf(repo: Repository, origin: Origin): map<string, Package> {
    if origin == Base then repo.installed else repo.index
  }

  // ---- Capabilities ------------------------------------------------------------------------

  function Capability(token: string): (string, Option<string>) { Partition(token, '=') }

  /** The capabilities a package's tokens name are there, and nothing else is. */
  ghost predicate Lists(offers: map<string, Option<string>>, name: string, version: string, tokens: seq<string>) {
    && (forall i :: 0 <= i < |tokens| ==> Capability(tokens[i]).0 != "" && Capability(tokens[i]).0 != name)
    && (forall i, j :: 0 <= i < j < |tokens| ==> Capability(tokens[i]).0 != Capability(tokens[j]).0)
    && offers.Keys == {name} + (set i | 0 <= i < |tokens| :: Capability(tokens[i]).0)
    && name in offers && offers[name] == Some(version)
    && (forall i :: 0 <= i < |tokens| ==> offers[Capability(tokens[i]).0] == Capability(tokens[i]).1)
  }

  /** `offers`: the package under its own name and every capability once, or an error. */
  method Offers(name: string, version: string, tokens: seq<string>) returns (r: Option<map<string, Option<string>>>)
    ensures r.Some? ==> Lists(r.value, name, version, tokens)
    ensures r.None? ==> forall offers :: !Lists(offers, name, version, tokens)
  {
    var offers := map[name := Some(version)];
    for i := 0 to |tokens|
      invariant Lists(offers, name, version, tokens[..i])
    {
      var (key, value) := Capability(tokens[i]);
      assert tokens[..i + 1] == tokens[..i] + [tokens[i]];
      if key == "" || key in offers {
        assert key in offers ==> key == name || exists k :: 0 <= k < i && Capability(tokens[..i][k]).0 == key;
        return None;
      }
      offers := offers[key := value];
    }
    assert tokens[..|tokens|] == tokens;
    return Some(offers);
  }

  // ---- One dependency ----------------------------------------------------------------------

  predicate Meets(package: Package, d: Dependency) {
    d.name in package.offers && Satisfies(package.offers[d.name], d) == Some(true)
  }

  /** A package meets a dependency exactly if it offers the name, and the version offered is any, the same text or one
      that reaches the minimum, as the dependency says. */
  lemma MeetsMeans(package: Package, d: Dependency)
    ensures Meets(package, d) <==>
            && d.name in package.offers
            && var offered := package.offers[d.name];
               match d.operator
               case Any => true
               case Exactly => offered == Some(d.version)
               case AtLeast =>
                 && offered.Some? && ParseVersion(offered.value).Some? && ParseVersion(d.version).Some?
                 && Reaches(ParseVersion(offered.value).value, ParseVersion(d.version).value)
  {
    if d.name in package.offers { SatisfiesMeans(package.offers[d.name], d); }
  }

  predicate Incomparable(package: Package, d: Dependency) {
    d.name in package.offers && Satisfies(package.offers[d.name], d).None?
  }

  function Offering(packages: map<string, Package>, d: Dependency): set<string> {
    set n | n in packages && Meets(packages[n], d)
  }

  predicate Unclear(repo: Repository, d: Dependency) {
    || (exists n :: n in repo.installed && Incomparable(repo.installed[n], d))
    || (exists n :: n in repo.index && Incomparable(repo.index[n], d))
  }

  /** The providers considered: an installed one if any, else one selected already, else the preferred or any. */
  function Considered(repo: Repository, preferred: map<string, string>, selected: Selection, d: Dependency): (Origin, set<string>) {
    var base, index := Offering(repo.installed, d), Offering(repo.index, d);
    var have := set n | n in index && n in selected && selected[n] == Index;
    if base != {} then (Base, base)
    else if have != {} then (Index, have)
    else if d.name in preferred && preferred[d.name] != "" then (Index, index * {preferred[d.name]})
    else (Index, index)
  }

  /** The token asks for exactly this provider, and taking it replaces nothing. */
  ghost predicate Picks(repo: Repository, preferred: map<string, string>, selected: Selection, token: string,
                        origin: Origin, name: string)
  {
    match ParseDependency(token)
    case None => false
    case Some(d) =>
      && !Unclear(repo, d) && Considered(repo, preferred, selected, d) == (origin, {name})
      && !(origin == Index && name in repo.installed)
      && (name in selected ==> selected[name] == origin)
  }

  /** One token's provider. */
  method Choose(repo: Repository, preferred: map<string, string>, selected: Selection, token: string)
    returns (r: Option<(Origin, string)>)
    ensures r.Some? ==> Picks(repo, preferred, selected, token, r.value.0, r.value.1)
    ensures r.None? ==> forall origin, name :: !Picks(repo, preferred, selected, token, origin, name)
  {
    var d := ParseDependency(token);
    if d.None? || Unclear(repo, d.value) { return None; }
    var (origin, chosen) := Considered(repo, preferred, selected, d.value);
    if |chosen| != 1 { return None; }
    var name :| name in chosen;
    OnlyOne(chosen, name);
    if origin == Index && name in repo.installed { return None; }
    if name in selected && selected[name] != origin { return None; }
    return Some((origin, name));
  }

  /** The installed packages come first, then those selected already, then the preferred one, then the only one. */
  ghost predicate ByRank(repo: Repository, preferred: map<string, string>, selected: Selection, d: Dependency,
                         origin: Origin, name: string)
  {
    if exists n :: n in repo.installed && Meets(repo.installed[n], d)
    then origin == Base && OnlyProvider(repo.installed, d, name, n => true)
    else
      && origin == Index
      && if exists n :: n in repo.index && Meets(repo.index[n], d) && Taken(selected, n)
         then OnlyProvider(repo.index, d, name, n => Taken(selected, n))
         else if d.name in preferred && preferred[d.name] != ""
         then name == preferred[d.name] && name in repo.index && Meets(repo.index[name], d)
         else OnlyProvider(repo.index, d, name, n => true)
  }

  predicate Taken(selected: Selection, n: string) { n in selected && selected[n] == Index }

  /** Of the packages in question just this one satisfies the dependency. */
  ghost predicate OnlyProvider(packages: map<string, Package>, d: Dependency, name: string, among: string -> bool) {
    && name in packages && Meets(packages[name], d) && among(name)
    && forall n :: n in packages && Meets(packages[n], d) && among(n) ==> n == name
  }

  lemma OnlyProviderMeans(packages: map<string, Package>, d: Dependency, name: string, among: string -> bool, all: set<string>)
    requires forall n :: n in all <==> n in packages && Meets(packages[n], d) && among(n)
    ensures OnlyProvider(packages, d, name, among) <==> all == {name}
  {
    if all == {name} {
      assert name in all;
      forall n | n in all ensures n == name {}
    }
    if OnlyProvider(packages, d, name, among) {
      forall n | n in all ensures n in {name} {}
      assert name in all;
    }
  }

  /** A provider is picked exactly if it is the one by rank, nothing is undecided, and taking it replaces nothing. */
  lemma PicksByRank(repo: Repository, preferred: map<string, string>, selected: Selection, token: string, origin: Origin, name: string)
    ensures Picks(repo, preferred, selected, token, origin, name) <==>
              && ParseDependency(token).Some? && !Unclear(repo, ParseDependency(token).value)
              && ByRank(repo, preferred, selected, ParseDependency(token).value, origin, name)
              && !(origin == Index && name in repo.installed) && (name in selected ==> selected[name] == origin)
  {
    if ParseDependency(token).Some? {
      RankedExactly(repo, preferred, selected, ParseDependency(token).value, origin, name);
    }
  }

  lemma OnlyPreferred(index: set<string>, p: string, name: string)
    ensures index * {p} == {name} <==> name == p && p in index
  {
    if index * {p} == {name} { assert name in index * {p}; }
    if name == p && p in index { assert index * {p} == {name}; }
  }

  lemma RankedExactly(repo: Repository, preferred: map<string, string>, selected: Selection, d: Dependency, origin: Origin, name: string)
    ensures Considered(repo, preferred, selected, d) == (origin, {name}) <==> ByRank(repo, preferred, selected, d, origin, name)
  {
    var base, index := Offering(repo.installed, d), Offering(repo.index, d);
    var have := set n | n in index && n in selected && selected[n] == Index;
    OnlyProviderMeans(repo.installed, d, name, n => true, base);
    OnlyProviderMeans(repo.index, d, name, n => Taken(selected, n), have);
    OnlyProviderMeans(repo.index, d, name, n => true, index);
    Inhabited(base);
    Inhabited(have);
    if d.name in preferred { OnlyPreferred(index, preferred[d.name], name); }
  }

  lemma Inhabited<T>(s: set<T>)
    ensures s != {} <==> exists x :: x in s
  {}

  lemma OnlyOne<T>(s: set<T>, x: T)
    requires |s| == 1 && x in s
    ensures s == {x}
  {
    assert |s - {x}| == 0;
  }

  /** The provider is there, satisfies the dependency, and replaces nothing. */
  ghost predicate Serves(repo: Repository, e: Edge) {
    && ParseDependency(e.dependency).Some? && e.provider in PackagesOf(repo, e.origin)
    && Meets(PackagesOf(repo, e.origin)[e.provider], ParseDependency(e.dependency).value)
  }

  ghost predicate Admissible(repo: Repository, selected: Selection, e: Edge) {
    && Serves(repo, e) && !(e.origin == Index && e.provider in repo.installed)
    && (e.provider in selected ==> selected[e.provider] == e.origin)
  }

  lemma PickedIsAdmissible(repo: Repository, preferred: map<string, string>, selected: Selection, token: string,
                           origin: Origin, name: string)
    requires Picks(repo, preferred, selected, token, origin, name)
    ensures Admissible(repo, selected, Edge(token, name, origin))
  {
    assert name in Considered(repo, preferred, selected, ParseDependency(token).value).1;
  }

  // ---- What holds all along ----------------------------------------------------------------

  /** Every selected package exists where it is said to, and no index package stands beside an installed one. */
  ghost predicate Genuine(repo: Repository, selected: Selection) {
    forall n :: n in selected ==> n in PackagesOf(repo, selected[n]) && (selected[n] == Index ==> n !in repo.installed)
  }

  /** The edge leads to a selected provider that satisfies it. */
  ghost predicate Fulfilled(repo: Repository, selected: Selection, e: Edge) {
    e.provider in selected && selected[e.provider] == e.origin && Serves(repo, e)
  }

  ghost predicate Led(token: string, edges: seq<Edge>) { exists e :: e in edges && e.dependency == token }

  /** The token is a root or a dependency of a selected package. */
  ghost predicate Needs(repo: Repository, selected: Selection, n: string, token: string) {
    n in selected && n in PackagesOf(repo, selected[n]) && token in PackagesOf(repo, selected[n])[n].depends
  }

  ghost predicate Wanted(repo: Repository, roots: seq<string>, selected: Selection, token: string) {
    token in roots || exists n :: Needs(repo, selected, n, token)
  }

  /** Every wanted token has an edge or is still pending, and nothing else is pending. */
  ghost predicate Tracked(repo: Repository, roots: seq<string>, selected: Selection, edges: seq<Edge>, pending: seq<string>) {
    && (forall t :: Wanted(repo, roots, selected, t) ==> t in pending || Led(t, edges))
    && (forall t :: t in pending ==> Wanted(repo, roots, selected, t))
  }

  /** A chain of packages from a root, each the provider of a dependency of the one before. */
  ghost predicate Chain(repo: Repository, roots: seq<string>, selected: Selection, edges: seq<Edge>, c: seq<string>)
    decreases |c|
  {
    && c != []
    && var last := c[|c| - 1];
       if |c| == 1 then exists e :: e in edges && e.provider == last && e.dependency in roots
       else && Chain(repo, roots, selected, edges, c[..|c| - 1])
            && exists e :: e in edges && e.provider == last && Needs(repo, selected, c[|c| - 2], e.dependency)
  }

  ghost predicate Reachable(repo: Repository, roots: seq<string>, selected: Selection, edges: seq<Edge>, n: string) {
    exists c :: Chain(repo, roots, selected, edges, c) && c[|c| - 1] == n
  }

  ghost predicate AllReachable(repo: Repository, roots: seq<string>, selected: Selection, edges: seq<Edge>) {
    forall n :: n in selected ==> Reachable(repo, roots, selected, edges, n)
  }

  ghost predicate AllFulfilled(repo: Repository, selected: Selection, edges: seq<Edge>) {
    forall e :: e in edges ==> Fulfilled(repo, selected, e)
  }

  ghost predicate Sound(repo: Repository, roots: seq<string>, selected: Selection, edges: seq<Edge>, pending: seq<string>) {
    && Genuine(repo, selected) && AllFulfilled(repo, selected, edges)
    && Tracked(repo, roots, selected, edges, pending) && AllReachable(repo, roots, selected, edges)
  }

  // ---- One step ----------------------------------------------------------------------------

  /** More may be selected, but nothing selected otherwise. */
  ghost predicate Extends(after: Selection, before: Selection) {
    forall n :: n in before ==> n in after && after[n] == before[n]
  }

  lemma {:induction false} ChainLasts(repo: Repository, roots: seq<string>, selected: Selection, edges: seq<Edge>, c: seq<string>,
                                      after: Selection, more: seq<Edge>)
    requires Chain(repo, roots, selected, edges, c) && Extends(after, selected) && edges <= more
    ensures Chain(repo, roots, after, more, c)
    decreases |c|
  {
    assert forall e :: e in edges ==> e in more;
    if |c| > 1 {
      ChainLasts(repo, roots, selected, edges, c[..|c| - 1], after, more);
      var e :| e in edges && e.provider == c[|c| - 1] && Needs(repo, selected, c[|c| - 2], e.dependency);
      assert e in more && Needs(repo, after, c[|c| - 2], e.dependency);
    }
  }

  lemma ReachableLasts(repo: Repository, roots: seq<string>, selected: Selection, edges: seq<Edge>, n: string,
                       after: Selection, more: seq<Edge>)
    requires Reachable(repo, roots, selected, edges, n) && Extends(after, selected) && edges <= more
    ensures Reachable(repo, roots, after, more, n)
  {
    var c :| Chain(repo, roots, selected, edges, c) && c[|c| - 1] == n;
    ChainLasts(repo, roots, selected, edges, c, after, more);
  }

  /** The provider of a wanted token is reachable. */
  lemma ProviderReachable(repo: Repository, roots: seq<string>, selected: Selection, edges: seq<Edge>, token: string, e: Edge)
    requires Wanted(repo, roots, selected, token) && AllReachable(repo, roots, selected, edges)
    requires e in edges && e.dependency == token
    ensures Reachable(repo, roots, selected, edges, e.provider)
  {
    if token in roots {
      assert Chain(repo, roots, selected, edges, [e.provider]);
    } else {
      var n :| Needs(repo, selected, n, token);
      var c :| Chain(repo, roots, selected, edges, c) && c[|c| - 1] == n;
      var longer := c + [e.provider];
      assert longer[..|longer| - 1] == c && longer[|longer| - 2] == n;
      assert Chain(repo, roots, selected, edges, longer);
    }
  }

  lemma StillWanted(repo: Repository, roots: seq<string>, selected: Selection, token: string, after: Selection)
    requires Wanted(repo, roots, selected, token) && Extends(after, selected)
    ensures Wanted(repo, roots, after, token)
  {
    if token !in roots {
      var n :| Needs(repo, selected, n, token);
      assert Needs(repo, after, n, token);
    }
  }

  lemma ReachableAfter(repo: Repository, roots: seq<string>, selected: Selection, edges: seq<Edge>, e: Edge, after: Selection)
    requires AllReachable(repo, roots, selected, edges) && Wanted(repo, roots, selected, e.dependency)
    requires Extends(after, selected) && forall n :: n in after ==> n in selected || n == e.provider
    ensures AllReachable(repo, roots, after, edges + [e])
  {
    var more := edges + [e];
    forall n | n in selected ensures Reachable(repo, roots, selected, more, n) {
      ReachableLasts(repo, roots, selected, edges, n, selected, more);
    }
    ProviderReachable(repo, roots, selected, more, e.dependency, e);
    forall n | n in after ensures Reachable(repo, roots, after, more, n) {
      ReachableLasts(repo, roots, selected, more, n, after, more);
    }
  }

  lemma TrackedAfter(repo: Repository, roots: seq<string>, selected: Selection, edges: seq<Edge>, pending: seq<string>,
                     e: Edge, after: Selection, added: seq<string>)
    requires Tracked(repo, roots, selected, edges, pending + [e.dependency]) && Extends(after, selected)
    requires forall n :: n in after ==> n in selected || n == e.provider
    requires forall t :: t in added <==> e.provider !in selected && Needs(repo, after, e.provider, t)
    ensures Tracked(repo, roots, after, edges + [e], pending + added)
  {
    assert e in edges + [e];
    forall t | Wanted(repo, roots, after, t) ensures t in pending + added || Led(t, edges + [e]) {
      if Wanted(repo, roots, selected, t) {
        if Led(t, edges) {
          var x :| x in edges && x.dependency == t;
          assert x in edges + [e];
        }
      } else {
        var n :| Needs(repo, after, n, t);
        assert n in selected ==> Needs(repo, selected, n, t);
      }
    }
    forall t | t in pending + added ensures Wanted(repo, roots, after, t) {
      if t in pending {
        assert t in pending + [e.dependency];
        StillWanted(repo, roots, selected, t, after);
      } else {
        assert Needs(repo, after, e.provider, t);
      }
    }
  }

  lemma FulfilledAfter(repo: Repository, selected: Selection, edges: seq<Edge>, e: Edge, after: Selection)
    requires AllFulfilled(repo, selected, edges) && Extends(after, selected) && Fulfilled(repo, after, e)
    ensures AllFulfilled(repo, after, edges + [e])
  {
    forall x | x in edges + [e] ensures Fulfilled(repo, after, x) {
      if x in edges { assert Fulfilled(repo, selected, x); }
    }
  }

  lemma GenuineAfter(repo: Repository, selected: Selection, e: Edge)
    requires Genuine(repo, selected) && Admissible(repo, selected, e)
    ensures Genuine(repo, selected[e.provider := e.origin]) && Extends(selected[e.provider := e.origin], selected)
    ensures Fulfilled(repo, selected[e.provider := e.origin], e)
  {}

  /** The dependencies a newly selected package brings in. */
  function Added(repo: Repository, selected: Selection, e: Edge): seq<string>
    requires e.provider in PackagesOf(repo, e.origin)
  {
    if e.provider in selected then [] else PackagesOf(repo, e.origin)[e.provider].depends
  }

  lemma AddedAre(repo: Repository, selected: Selection, e: Edge)
    requires e.provider in PackagesOf(repo, e.origin)
    ensures forall t :: t in Added(repo, selected, e) <==>
              e.provider !in selected && Needs(repo, selected[e.provider := e.origin], e.provider, t)
  {}

  /** Taking a provider for the last pending token keeps everything. */
  lemma StepKeeps(repo: Repository, roots: seq<string>, selected: Selection, edges: seq<Edge>, pending: seq<string>, e: Edge)
    requires Sound(repo, roots, selected, edges, pending + [e.dependency]) && Admissible(repo, selected, e)
    ensures Sound(repo, roots, selected[e.provider := e.origin], edges + [e], pending + Added(repo, selected, e))
  {
    var after := selected[e.provider := e.origin];
    assert e.dependency in pending + [e.dependency];
    GenuineAfter(repo, selected, e);
    AddedAre(repo, selected, e);
    ReachableAfter(repo, roots, selected, edges, e, after);
    TrackedAfter(repo, roots, selected, edges, pending, e, after, Added(repo, selected, e));
    FulfilledAfter(repo, selected, edges, e, after);
  }

  // ---- The resolution ----------------------------------------------------------------------

  datatype Resolution =
    | Resolved(selected: Selection, edges: seq<Edge>)
    | BadRoots
    | Refused(token: string, partial: Selection)
    | TooMany(partial: Selection)
    | Inconsistent

  predicate Alphanumeric(c: char) { 'A' <= c <= 'Z' || 'a' <= c <= 'z' || '0' <= c <= '9' }

  predicate PackageName(s: string) {
    && s != "" && Alphanumeric(s[0])
    && forall i :: 0 <= i < |s| ==> Alphanumeric(s[i]) || s[i] == '.' || s[i] == '_' || s[i] == '+' || s[i] == '-'
  }

  predicate GoodRoots(roots: seq<string>) {
    && 0 < |roots| <= 64 && (forall i, j :: 0 <= i < j < |roots| ==> roots[i] != roots[j])
    && (forall i :: 0 <= i < |roots| ==> PackageName(roots[i]))
  }

  const UPPER := "ABCDEFGHIJKLMNOPQRSTUVWXYZ"
  const LOWER := "abcdefghijklmnopqrstuvwxyz"
  const DIGITS := "0123456789"
  const MARKS := "._+-"

  ghost predicate Letter(c: char) { c in UPPER || c in LOWER || c in DIGITS }

  ghost predicate ProperName(s: string) { s != "" && Letter(s[0]) && forall c :: c in s ==> Letter(c) || c in MARKS }

  lemma UpperMeans(c: char)
    ensures c in UPPER <==> 'A' <= c <= 'Z'
  {
    if 'A' <= c <= 'Z' { assert UPPER[c as int - 'A' as int] == c; }
  }

  lemma LowerMeans(c: char)
    ensures c in LOWER <==> 'a' <= c <= 'z'
  {
    if 'a' <= c <= 'z' { assert LOWER[c as int - 'a' as int] == c; }
  }

  lemma LetterMeans(c: char)
    ensures Alphanumeric(c) <==> Letter(c)
  {
    UpperMeans(c);
    LowerMeans(c);
    if '0' <= c <= '9' { assert DIGITS[c as int - '0' as int] == c; }
  }

  lemma NameMeans(s: string)
    ensures PackageName(s) <==> ProperName(s)
  {
    forall c: char ensures Alphanumeric(c) <==> Letter(c) { LetterMeans(c); }
    assert MARKS[0] == '.' && MARKS[1] == '_' && MARKS[2] == '+' && MARKS[3] == '-';
    assert forall i :: 0 <= i < |s| ==> s[i] in s;
  }

  /** Roots are good exactly if there are 1 to 64, none twice, each a letter or digit and then those, points,
      underscores, plus and minus signs. */
  lemma RootsExactly(roots: seq<string>)
    ensures GoodRoots(roots) <==>
            1 <= |roots| <= 64 && |set root | root in roots| == |roots| && forall root :: root in roots ==> ProperName(root)
  {
    DistinctMeans(roots);
    forall root ensures PackageName(root) <==> ProperName(root) { NameMeans(root); }
    assert (forall root :: root in roots ==> ProperName(root)) <==> forall i :: 0 <= i < |roots| ==> ProperName(roots[i]);
  }

  lemma {:induction false} DistinctMeans(roots: seq<string>)
    ensures (forall i, j :: 0 <= i < j < |roots| ==> roots[i] != roots[j]) <==> |set root | root in roots| == |roots|
    ensures |set root | root in roots| <= |roots|
  {
    if roots != [] {
      var front, last := roots[..|roots| - 1], roots[|roots| - 1];
      DistinctMeans(front);
      assert roots == front + [last];
      assert (set root | root in roots) == (set root | root in front) + {last};
    }
  }

  /** A finished selection: closed under dependencies, reachable and free of replacements. */
  ghost predicate Closure(repo: Repository, roots: seq<string>, selected: Selection, edges: seq<Edge>) {
    && Genuine(repo, selected) && AllFulfilled(repo, selected, edges) && AllReachable(repo, roots, selected, edges)
    && (forall t :: t in roots ==> Led(t, edges))
    && (forall n, t :: Needs(repo, selected, n, t) ==> Led(t, edges))
    && |selected| <= 256
  }

  /** The final check of every edge against the finished selection. */
  method Recheck(repo: Repository, selected: Selection, edges: seq<Edge>) returns (ok: bool)
    requires forall e :: e in edges ==> ParseDependency(e.dependency).Some? && e.provider in PackagesOf(repo, e.origin)
    ensures ok <==> AllFulfilled(repo, selected, edges)
  {
    for i := 0 to |edges|
      invariant forall k :: 0 <= k < i ==> Fulfilled(repo, selected, edges[k])
    {
      var e := edges[i];
      var d := ParseDependency(e.dependency).value;
      if !(e.provider in selected && selected[e.provider] == e.origin) || !Meets(PackagesOf(repo, e.origin)[e.provider], d) {
        assert e in edges && !Fulfilled(repo, selected, e);
        return false;
      }
    }
    return true;
  }

  lemma SoundAtFirst(repo: Repository, roots: seq<string>)
    ensures Sound(repo, roots, map[], [], roots)
  {}

  lemma SoundAtLast(repo: Repository, roots: seq<string>, selected: Selection, edges: seq<Edge>)
    requires Sound(repo, roots, selected, edges, []) && |selected| <= MAX_PACKAGES
    ensures Closure(repo, roots, selected, edges)
  {
    forall t | t in roots ensures Led(t, edges) { assert Wanted(repo, roots, selected, t); }
    forall n, t | Needs(repo, selected, n, t) ensures Led(t, edges) { assert Wanted(repo, roots, selected, t); }
  }

  /** A refusal is for cause: a wanted token without a single admissible provider, or too large a selection. */
  ghost predicate Justified(repo: Repository, roots: seq<string>, preferred: map<string, string>, r: Resolution) {
    match r
    case Refused(token, partial) =>
      && Genuine(repo, partial) && Wanted(repo, roots, partial, token)
      && forall origin, name :: !Picks(repo, preferred, partial, token, origin, name)
    case TooMany(partial) => Genuine(repo, partial) && |partial| > MAX_PACKAGES
    case _ => false
  }

  /** Fewer packages are left to select, or as many and fewer tokens are pending. */
  ghost predicate Closer(repo: Repository, selected: Selection, pending: seq<string>, after: Selection, left: seq<string>) {
    || (after == selected && |left| < |pending|)
    || (exists n :: n in PackagesNamed(repo) && n !in selected && after.Keys == selected.Keys + {n})
  }

  ghost function PackagesNamed(repo: Repository): set<string> { repo.installed.Keys + repo.index.Keys }

  /** The loop goes on from here. */
  ghost predicate GoesOn(repo: Repository, roots: seq<string>, selected: Selection, pending: seq<string>,
                         after: Selection, more: seq<Edge>, left: seq<string>)
  {
    Sound(repo, roots, after, more, left) && Closer(repo, selected, pending, after, left)
  }

  /** Take the provider; if it is new, its own dependencies become pending. */
  method Advance(repo: Repository, ghost roots: seq<string>, selected: Selection, edges: seq<Edge>, pending: seq<string>, e: Edge)
    returns (after: Selection, more: seq<Edge>, left: seq<string>)
    requires Sound(repo, roots, selected, edges, pending) && pending != [] && e.dependency == pending[|pending| - 1]
    requires Admissible(repo, selected, e)
    ensures GoesOn(repo, roots, selected, pending, after, more, left)
  {
    TurnGoesOn(repo, roots, selected, edges, pending, e);
    more, left := edges + [e], pending[..|pending| - 1];
    if e.provider in selected {
      after := selected;
    } else {
      after := selected[e.provider := e.origin];
      left := left + Added(repo, selected, e);
    }
  }

  /** One turn of the loop: the last pending token gets its provider. */
  method Turn(repo: Repository, ghost roots: seq<string>, preferred: map<string, string>, selected: Selection,
              edges: seq<Edge>, pending: seq<string>)
    returns (stop: Option<Resolution>, after: Selection, more: seq<Edge>, left: seq<string>)
    requires Sound(repo, roots, selected, edges, pending) && pending != []
    ensures stop.Some? ==> Justified(repo, roots, preferred, stop.value)
    ensures stop.None? ==> GoesOn(repo, roots, selected, pending, after, more, left) && |after| <= MAX_PACKAGES
  {
    var token := pending[|pending| - 1];
    after, more, left := selected, edges, pending;
    var choice := Choose(repo, preferred, selected, token);
    if choice.None? {
      LastIsWanted(repo, roots, selected, edges, pending);
      return Some(Refused(token, selected)), after, more, left;
    }
    var e := Edge(token, choice.value.1, choice.value.0);
    PickedIsAdmissible(repo, preferred, selected, token, e.origin, e.provider);
    after, more, left := Advance(repo, roots, selected, edges, pending, e);
    stop := if |after| > MAX_PACKAGES then Some(TooMany(after)) else None;
  }

  lemma LastIsWanted(repo: Repository, roots: seq<string>, selected: Selection, edges: seq<Edge>, pending: seq<string>)
    requires Sound(repo, roots, selected, edges, pending) && pending != []
    ensures Genuine(repo, selected) && Wanted(repo, roots, selected, pending[|pending| - 1])
  {}

  lemma LastOff<T>(s: seq<T>)
    requires s != []
    ensures s == s[..|s| - 1] + [s[|s| - 1]] && forall t: seq<T> :: t + [] == t
  {}

  lemma SameAgain<K, V>(m: map<K, V>, k: K, v: V)
    ensures k in m && m[k] == v ==> m[k := v] == m
    ensures m[k := v].Keys == m.Keys + {k}
  {}

  lemma TurnCloser(repo: Repository, selected: Selection, pending: seq<string>, e: Edge)
    requires pending != [] && Admissible(repo, selected, e)
    ensures var after, left := selected[e.provider := e.origin], pending[..|pending| - 1] + Added(repo, selected, e);
            && Closer(repo, selected, pending, after, left)
            && (e.provider in selected ==> after == selected && left == pending[..|pending| - 1])
  {
    SameAgain(selected, e.provider, e.origin);
    LastOff(pending);
    if e.provider !in selected { assert e.provider in PackagesNamed(repo); }
  }

  lemma TurnKeeps(repo: Repository, roots: seq<string>, selected: Selection, edges: seq<Edge>, pending: seq<string>, e: Edge)
    requires Sound(repo, roots, selected, edges, pending) && pending != [] && e.dependency == pending[|pending| - 1]
    requires Admissible(repo, selected, e)
    ensures var after := selected[e.provider := e.origin];
            Sound(repo, roots, after, edges + [e], pending[..|pending| - 1] + Added(repo, selected, e)) && Genuine(repo, after)
  {
    LastOff(pending);
    StepKeeps(repo, roots, selected, edges, pending[..|pending| - 1], e);
  }

  lemma TurnGoesOn(repo: Repository, roots: seq<string>, selected: Selection, edges: seq<Edge>, pending: seq<string>, e: Edge)
    requires Sound(repo, roots, selected, edges, pending) && pending != [] && e.dependency == pending[|pending| - 1]
    requires Admissible(repo, selected, e)
    ensures var front := pending[..|pending| - 1];
            if e.provider in selected then GoesOn(repo, roots, selected, pending, selected, edges + [e], front)
            else GoesOn(repo, roots, selected, pending, selected[e.provider := e.origin], edges + [e], front + Added(repo, selected, e))
  {
    TurnKeeps(repo, roots, selected, edges, pending, e);
    TurnCloser(repo, selected, pending, e);
  }

  /** `resolve`: success is a closure, a refusal is for cause. The loop ends, and its result always passes the
      final check. */
  method Resolve(repo: Repository, roots: seq<string>, preferred: map<string, string>) returns (r: Resolution)
    ensures r.BadRoots? <==> !GoodRoots(roots)
    ensures r.Resolved? ==> Closure(repo, roots, r.selected, r.edges)
    ensures r.Refused? || r.TooMany? ==> Justified(repo, roots, preferred, r)
    ensures !r.Inconsistent?
  {
    if !GoodRoots(roots) { return BadRoots; }
    var selected: Selection, edges: seq<Edge>, pending := map[], [], roots;
    SoundAtFirst(repo, roots);
    while pending != []
      invariant Sound(repo, roots, selected, edges, pending) && |selected| <= MAX_PACKAGES
      decreases PackagesNamed(repo) - selected.Keys, |pending|
    {
      var stop, after, more, left := Turn(repo, roots, preferred, selected, edges, pending);
      if stop.Some? { return stop.value; }
      CloserDecreases(repo, selected, pending, after, left);
      selected, edges, pending := after, more, left;
    }
    SoundAtLast(repo, roots, selected, edges);
    var ok := Recheck(repo, selected, edges);
    return if ok then Resolved(selected, edges) else Inconsistent;
  }

  lemma CloserDecreases(repo: Repository, selected: Selection, pending: seq<string>, after: Selection, left: seq<string>)
    requires Closer(repo, selected, pending, after, left)
    ensures var names := PackagesNamed(repo);
            names - after.Keys < names - selected.Keys || (after == selected && |left| < |pending|)
  {
    if !(after == selected && |left| < |pending|) {
      var n :| n in PackagesNamed(repo) && n !in selected && after.Keys == selected.Keys + {n};
      assert n in PackagesNamed(repo) - selected.Keys;
    }
  }
}
