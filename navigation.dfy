/**
 * `getNavigationDirection` of the sidebar: which way the page transition
 * animates when the route changes from `from` to `to`. A route is first
 * reduced to its base route, the base is looked up in a fixed rank table,
 * and the direction is `Down` when the target ranks strictly higher,
 * `Up` otherwise, and absent (`null`) when either base is not in the table.
 */
module Navigation {
  import opened Wrappers

  /** `'up' | 'down'`; `null` is `None` in an `Option<Direction>`. */
  datatype Direction = Up | Down

  /** `s.startsWith(prefix)`. */
  predicate StartsWith(s: string, prefix: string)
    ensures StartsWith(s, prefix) && prefix != [] ==> s != [] && s[0] == prefix[0]
  {
    |prefix| <= |s| && s[..|prefix|] == prefix
  }

  /** The rank table `routeOrder`: the sidebar's entries from top to bottom. */
  const RouteOrder: map<string, nat> := map[
    "/all-tasks" := 0,
    "/life" := 1,
    "/life/skills" := 2,
    "/finance" := 3,
    "/" := 4,
    "/docs" := 5,
    "/travel" := 6,
    "/recipes" := 7,
    "/chat" := 8
  ]

  /**
   * The base route of a path: the first matching rule of the chain
   * `'/'`, `'/project…'` (the home page), `'/all-tasks…'`, `'/docs…'`,
   * `'/life/skills…'`, `'/life…'`; a path matching none is its own base.
   * A base that differs from the path is always a key of the rank table.
   */
  function BaseRoute(path: string): (base: string)
    ensures base != path ==> base in RouteOrder
  {
    if path == "/" then "/"
    else if StartsWith(path, "/project") then "/"
    else if StartsWith(path, "/all-tasks") then "/all-tasks"
    else if StartsWith(path, "/docs") then "/docs"
    else if StartsWith(path, "/life/skills") then "/life/skills"
    else if StartsWith(path, "/life") then "/life"
    else path
  }

  /** `routeOrder[base]` read as an own property of the table: absent for every other string. */
  function Rank(base: string): (rank: Option<nat>)
    ensures rank.Some? <==> base in RouteOrder
    ensures rank.Some? ==> rank.value <= 8
  {
    if base in RouteOrder then Some(RouteOrder[base]) else None
  }

  /** The direction of the transition from `from` to `to`; defined exactly when both bases have a rank. */
  function GetNavigationDirection(from: string, to: string): (r: Option<Direction>)
    ensures r.Some? <==> BaseRoute(from) in RouteOrder && BaseRoute(to) in RouteOrder
  {
    var fromValue := Rank(BaseRoute(from));
    var toValue := Rank(BaseRoute(to));
    if fromValue.None? || toValue.None? then None
    else if toValue.value > fromValue.value then Some(Down)
    else Some(Up)
  }

  // ---------------------------------------------------------------------
  // Properties of the direction

  /** With both bases known, the direction is `Down` exactly when `to` ranks strictly higher, and `Up` otherwise. */
  lemma DownIffHigherRank(from: string, to: string)
    requires BaseRoute(from) in RouteOrder && BaseRoute(to) in RouteOrder
    ensures GetNavigationDirection(from, to) == Some(Down)
            <==> RouteOrder[BaseRoute(to)] > RouteOrder[BaseRoute(from)]
    ensures GetNavigationDirection(from, to) == Some(Up)
            <==> RouteOrder[BaseRoute(to)] <= RouteOrder[BaseRoute(from)]
  {
  }

  /** Moving between two paths with the same known base, `from == to` included, animates `Up`. */
  lemma SameBaseIsUp(from: string, to: string)
    requires BaseRoute(from) == BaseRoute(to) && BaseRoute(from) in RouteOrder
    ensures GetNavigationDirection(from, to) == Some(Up)
  {
  }

  /** Reversing a transition: `Down` becomes `Up`, a missing direction stays missing, and `Up` between different ranks becomes `Down`. */
  lemma Antisymmetry(a: string, b: string)
    ensures GetNavigationDirection(a, b) == Some(Down) ==> GetNavigationDirection(b, a) == Some(Up)
    ensures GetNavigationDirection(a, b) == None <==> GetNavigationDirection(b, a) == None
    ensures GetNavigationDirection(a, b) == Some(Up) && RouteOrder[BaseRoute(a)] != RouteOrder[BaseRoute(b)]
            ==> GetNavigationDirection(b, a) == Some(Down)
  {
  }

  // ---------------------------------------------------------------------
  // Properties of the normalisation

  /** Two prefixes of one string agree on every position they share. */
  lemma PrefixesAgree(s: string, p: string, q: string, i: nat)
    requires StartsWith(s, p) && StartsWith(s, q) && i < |p| && i < |q|
    ensures p[i] == q[i]
  {
  }

  /** A string that differs from `prefix` at a shared position does not start with it. */
  lemma DiffersAt(s: string, prefix: string, i: nat)
    requires i < |s| && i < |prefix| && s[i] != prefix[i]
    ensures !StartsWith(s, prefix)
  {
  }

  /** A path that is not `/` and starts with none of the rules' prefixes is its own base. */
  lemma NoRulePrefix(path: string)
    requires path != "/"
    requires !StartsWith(path, "/project") && !StartsWith(path, "/all-tasks") && !StartsWith(path, "/docs")
    requires !StartsWith(path, "/life/skills") && !StartsWith(path, "/life")
    ensures BaseRoute(path) == path
  {
  }

  /** A path whose character at position `i` (0 or 1) differs from every rule's there starts with none of the rules' prefixes. */
  lemma DiffersFromEveryRule(path: string, i: nat)
    requires i <= 1 && i < |path|
    requires path[i] !in {"/project"[i], "/all-tasks"[i], "/docs"[i], "/life"[i]}
    ensures !StartsWith(path, "/project") && !StartsWith(path, "/all-tasks") && !StartsWith(path, "/docs")
    ensures !StartsWith(path, "/life/skills") && !StartsWith(path, "/life")
  {
    DiffersAt(path, "/project", i);
    DiffersAt(path, "/all-tasks", i);
    DiffersAt(path, "/docs", i);
    DiffersAt(path, "/life/skills", i);
    DiffersAt(path, "/life", i);
  }

  /** Every path under `/project` belongs to the home page, whose rank is 4. */
  lemma ProjectIsHome(path: string)
    requires StartsWith(path, "/project")
    ensures BaseRoute(path) == "/" && Rank(BaseRoute(path)) == Some(4)
  {
  }

  /**
   * Prefix precedence: a path under `/life/skills` keeps that base, while
   * any other path starting with `/life` (also `/lifestyle`) falls to `/life`.
   */
  lemma LifeSkillsPrecedence(path: string)
    requires StartsWith(path, "/life")
    ensures StartsWith(path, "/life/skills") ==> BaseRoute(path) == "/life/skills"
    ensures !StartsWith(path, "/life/skills") ==> BaseRoute(path) == "/life"
  {
    assert path != "/";
    if StartsWith(path, "/project") {
      PrefixesAgree(path, "/life", "/project", 1);
    }
    if StartsWith(path, "/all-tasks") {
      PrefixesAgree(path, "/life", "/all-tasks", 1);
    }
  }

  /** Normalising a base again changes nothing. */
  lemma BaseRouteIdempotent(path: string)
    ensures BaseRoute(BaseRoute(path)) == BaseRoute(path)
  {
  }

  /**
   * The paths whose base has a rank: `/` and the four routes with fixed
   * bases, and anything under `/project`, `/all-tasks`, `/docs` or `/life`.
   * Everything else, `/travel/x` and `/unknown` among them, has none.
   */
  lemma KnownBaseIff(path: string)
    ensures BaseRoute(path) in RouteOrder
            <==> path in {"/", "/finance", "/travel", "/recipes", "/chat"}
                 || StartsWith(path, "/project") || StartsWith(path, "/all-tasks")
                 || StartsWith(path, "/docs") || StartsWith(path, "/life")
  {
  }

  /** The two examples of unranked routes: a sub-page of `/travel` and an unknown page. */
  lemma UnrankedExamples()
    ensures GetNavigationDirection("/travel/x", "/chat") == None
    ensures GetNavigationDirection("/chat", "/unknown") == None
  {
    DiffersFromEveryRule("/travel/x", 1);
    NoRulePrefix("/travel/x");
    DiffersFromEveryRule("/unknown", 1);
    NoRulePrefix("/unknown");
    assert BaseRoute("/travel/x") == "/travel/x";
    assert BaseRoute("/unknown") == "/unknown";
  }

  // ---------------------------------------------------------------------
  // The table lookup as written: `routeOrder` is an ordinary object

  /**
   * The properties every ordinary JavaScript object inherits from
   * `Object.prototype`. Reading one of them from `routeOrder` gives a
   * function or an object, not `undefined`.
   */
  const InheritedKeys: set<string> := {
    "constructor", "hasOwnProperty", "isPrototypeOf", "propertyIsEnumerable",
    "toLocaleString", "toString", "valueOf", "__proto__",
    "__defineGetter__", "__defineSetter__", "__lookupGetter__", "__lookupSetter__"
  }

  /**
   * What `routeOrder[key]` evaluates to: an own rank, an inherited value
   * (given by the string it turns into when compared), or `undefined`.
   */
  datatype JsLookup = Own(rank: nat) | Inherited(prim: string) | Undefined

  /**
   * The primitive an inherited value turns into under `>`: `__proto__` is
   * `Object.prototype`, which becomes `"[object Object]"`; `constructor` is
   * the function `Object`; every other key is a built-in function named
   * after itself, which becomes its source text.
   */
  function InheritedPrimitive(key: string): (r: string)
    ensures r != [] && (r[0] == '[' <==> key == "__proto__")
  {
    if key == "__proto__" then "[object Object]"
    else if key == "constructor" then NativeFunctionText("Object")
    else NativeFunctionText(key)
  }

  /** The source text of a built-in function. */
  function NativeFunctionText(name: string): string {
    "function " + name + "() { [native code] }"
  }

  /**
   * `a < b` on two strings (section 7.2.13 of ECMA-262): a proper prefix is
   * smaller, otherwise the first differing character decides.
   */
  function LexLess(a: string, b: string): (r: bool)
    ensures r ==> a != b
    decreases |a|
  {
    if b == [] then false
    else if a == [] then true
    else if a[0] != b[0] then a[0] < b[0]
    else LexLess(a[1..], b[1..])
  }

  /** `<` on strings is a strict order: never both ways, and never from a string to itself. */
  lemma {:induction false} LexLessAsymmetric(a: string, b: string)
    ensures LexLess(a, b) ==> !LexLess(b, a)
    ensures !LexLess(a, a)
    decreases |a|
  {
    if a != [] && b != [] && a[0] == b[0] {
      LexLessAsymmetric(a[1..], b[1..]);
    }
    if a != [] {
      LexLessAsymmetric(a[1..], a[1..]);
    }
  }

  function LookupAsWritten(key: string): (v: JsLookup)
    ensures v.Undefined? <==> key !in RouteOrder && key !in InheritedKeys
    ensures v.Own? ==> Rank(key) == Some(v.rank)
  {
    if key in RouteOrder then Own(RouteOrder[key])
    else if key in InheritedKeys then Inherited(InheritedPrimitive(key))
    else Undefined
  }

  /**
   * The direction as the code computes it: only `undefined` gives `null`.
   * `toValue > fromValue` compares two ranks as numbers and two inherited
   * values as strings; a rank against an inherited value compares with NaN,
   * which is false, so that gives `Up`.
   */
  function GetNavigationDirectionAsWritten(from: string, to: string): (r: Option<Direction>)
    ensures r.None? <==> LookupAsWritten(BaseRoute(from)).Undefined? || LookupAsWritten(BaseRoute(to)).Undefined?
    ensures r == Some(Down) ==> LookupAsWritten(BaseRoute(from)).Own? == LookupAsWritten(BaseRoute(to)).Own?
  {
    var fromValue := LookupAsWritten(BaseRoute(from));
    var toValue := LookupAsWritten(BaseRoute(to));
    if fromValue.Undefined? || toValue.Undefined? then None
    else if fromValue.Own? && toValue.Own? then
      (if toValue.rank > fromValue.rank then Some(Down) else Some(Up))
    else if fromValue.Inherited? && toValue.Inherited? then
      (if LexLess(fromValue.prim, toValue.prim) then Some(Down) else Some(Up))
    else Some(Up)
  }

  /** A route named after an inherited property gets a direction where none is intended. */
  lemma InheritedKeyCounterexample()
    ensures GetNavigationDirectionAsWritten("/chat", "toString") == Some(Up)
    ensures GetNavigationDirection("/chat", "toString") == None
  {
    DiffersFromEveryRule("toString", 0);
    NoRulePrefix("toString");
  }

  /** Two inherited names are compared as strings: `("__proto__", "toString")` gives `Down`. */
  lemma InheritedPairCounterexample()
    ensures GetNavigationDirectionAsWritten("__proto__", "toString") == Some(Down)
    ensures GetNavigationDirection("__proto__", "toString") == None
  {
    DiffersFromEveryRule("toString", 0);
    NoRulePrefix("toString");
    DiffersFromEveryRule("__proto__", 0);
    NoRulePrefix("__proto__");
    assert LexLess("[object Object]", NativeFunctionText("toString"));
  }

  /** The base of a path that starts with `/` starts with `/`, so it names no inherited property. */
  lemma SlashBase(path: string)
    requires |path| > 0 && path[0] == '/'
    ensures |BaseRoute(path)| > 0 && BaseRoute(path)[0] == '/'
    ensures BaseRoute(path) !in InheritedKeys
  {
  }

  /** The two agree on every pair of paths that start with `/`, which is every real route. */
  lemma AsWrittenAgreesOnRoutes(from: string, to: string)
    requires |from| > 0 && from[0] == '/' && |to| > 0 && to[0] == '/'
    ensures GetNavigationDirectionAsWritten(from, to) == GetNavigationDirection(from, to)
  {
    SlashBase(from);
    SlashBase(to);
  }

}
