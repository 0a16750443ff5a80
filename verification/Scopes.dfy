/**
 Tool scopes: folding the defaults into every agent (src/config/load.rs:81-109), the
 two-level lookup (src/config/load.rs:519-530), what a run grants (src/bootstrap/tools.rs:274-355),
 and the check of a hardened sandbox (src/config/hardening.rs:41-69, 136-254).
*/
module Scopes {
  import opened Prelude
  import opened Paths

  datatype Scope = Scope(
    fsRoots: seq<Path>, netHosts: seq<string>, envReads: seq<string>, shellBins: seq<string>, wallets: seq<string>)

  type ScopeMap = map<string, Scope>

  datatype Agent = Agent(workspace: Option<Path>, scopes: ScopeMap, noShell: bool)

  const NO_SCOPE: Scope := Scope([], [], [], [], [])

  predicate DenyAll(s: Scope) { s == NO_SCOPE }

  // ---- folding ----

  function ExpandAll(env: Env, roots: seq<Path>): (r: seq<Path>) {
    seq(|roots|, i requires 0 <= i < |roots| => ExpandTilde(env, roots[i]))
  }

  function Expanded(env: Env, s: Scope): (r: Scope) { s.(fsRoots := ExpandAll(env, s.fsRoots)) }

  function ExpandedMap(env: Env, scopes: ScopeMap): (r: ScopeMap) { map t | t in scopes :: Expanded(env, scopes[t]) }

  /** Per tool, the agent's own entry or else the default. */
  function Inherited(own: ScopeMap, defaults: ScopeMap): (r: ScopeMap) { defaults + own }

  function FoldedAgent(env: Env, a: Agent, defaults: ScopeMap, hardened: bool): (r: Agent) {
    Agent(a.workspace, ExpandedMap(env, Inherited(a.scopes, defaults)), hardened)
  }

  datatype Settings = Settings(
    agents: map<string, Agent>, defaults: ScopeMap, signer: bool, killSwitch: Option<Path>, soe: bool)

  predicate Hardened(c: Settings) { c.signer || c.killSwitch.Some? || c.soe }

  function Folded(env: Env, c: Settings): (r: Settings) {
    c.(agents := map n | n in c.agents :: FoldedAgent(env, c.agents[n], c.defaults, Hardened(c)),
       defaults := ExpandedMap(env, c.defaults))
  }

  class Config {
    var s: Settings

    constructor (s: Settings)
      ensures this.s == s
    {
      this.s := s;
    }

    method FoldDefaultScopes(env: Env)
      modifies this
      ensures s == Folded(env, old(s))
    {
      ghost var was := s;
      var hardened := Hardened(s);
      var todo := s.agents.Keys;
      while todo != {}
        invariant todo <= was.agents.Keys && s == was.(agents := s.agents) && s.agents.Keys == was.agents.Keys
        invariant forall n :: n in was.agents ==>
                    s.agents[n] == if n in todo then was.agents[n]
                                   else FoldedAgent(env, was.agents[n], was.defaults, hardened)
        decreases todo
      {
        var n :| n in todo;
        var a := s.agents[n];
        var own := AddDefaults(a.scopes, s.defaults);
        own := ExpandRoots(env, own);
        s := s.(agents := s.agents[n := Agent(a.workspace, own, hardened)]);
        todo := todo - {n};
      }
      assert s.agents == Folded(env, was).agents;
      var defaults := ExpandRoots(env, s.defaults);
      s := s.(defaults := defaults);
    }
  }

  /** An entry the agent has stays as it is. */
  method AddDefaults(own: ScopeMap, defaults: ScopeMap) returns (scopes: ScopeMap)
    ensures scopes == Inherited(own, defaults)
  {
    scopes := own;
    var todo := defaults.Keys;
    while todo != {}
      invariant todo <= defaults.Keys && scopes.Keys == own.Keys + (defaults.Keys - todo)
      invariant forall t :: t in scopes ==> scopes[t] == Inherited(own, defaults)[t]
      decreases todo
    {
      var t :| t in todo;
      if t !in scopes { scopes := scopes[t := defaults[t]]; }
      todo := todo - {t};
    }
  }

  method ExpandRoots(env: Env, scopes: ScopeMap) returns (out: ScopeMap)
    ensures out == ExpandedMap(env, scopes)
  {
    out := scopes;
    var todo := scopes.Keys;
    while todo != {}
      invariant todo <= scopes.Keys == out.Keys
      invariant forall t :: t in scopes ==> out[t] == if t in todo then scopes[t] else Expanded(env, scopes[t])
      decreases todo
    {
      var t :| t in todo;
      var roots := out[t].fsRoots;
      for i := 0 to |roots|
        invariant |roots| == |scopes[t].fsRoots|
        invariant forall k :: 0 <= k < |roots| ==>
                    roots[k] == if k < i then ExpandTilde(env, scopes[t].fsRoots[k]) else scopes[t].fsRoots[k]
      {
        roots := roots[i := ExpandTilde(env, roots[i])];
      }
      assert roots == ExpandAll(env, scopes[t].fsRoots);
      out := out[t := out[t].(fsRoots := roots)];
      todo := todo - {t};
    }
  }

  /** The lookup: the agent's own entry, else the default, else nothing. */
  function ResolveScope(c: Settings, agent: string, tool: string): (r: Option<Scope>) {
    if agent in c.agents && tool in c.agents[agent].scopes then Some(c.agents[agent].scopes[tool])
    else if tool in c.defaults then Some(c.defaults[tool]) else None
  }

  /** What the lookup finds, with its roots expanded, is what a folded agent has, and what a folded lookup finds. */
  lemma FoldAgrees(env: Env, c: Settings, agent: string, tool: string)
    ensures var found, f := ResolveScope(c, agent, tool), Folded(env, c);
            ResolveScope(f, agent, tool) == (if found.Some? then Some(Expanded(env, found.value)) else None) &&
            (agent in c.agents ==> (tool in f.agents[agent].scopes <==> found.Some?))
  {
  }

  // ---- folding twice, paths compared by their components ----

  ghost predicate SameScope(a: Scope, b: Scope) {
    a == b.(fsRoots := a.fsRoots) && |a.fsRoots| == |b.fsRoots| &&
    forall i :: 0 <= i < |a.fsRoots| ==> SamePath(a.fsRoots[i], b.fsRoots[i])
  }

  ghost predicate SameScopes(a: ScopeMap, b: ScopeMap) {
    a.Keys == b.Keys && forall t :: t in a ==> SameScope(a[t], b[t])
  }

  ghost predicate SameAgent(a: Agent, b: Agent) { a == b.(scopes := a.scopes) && SameScopes(a.scopes, b.scopes) }

  ghost predicate SameSettings(a: Settings, b: Settings) {
    a == b.(agents := a.agents, defaults := a.defaults) && SameScopes(a.defaults, b.defaults) &&
    a.agents.Keys == b.agents.Keys && forall n :: n in a.agents ==> SameAgent(a.agents[n], b.agents[n])
  }

  lemma ExpandedTwice(env: Env, s: Scope)
    requires PlainHome(env)
    ensures SameScope(Expanded(env, Expanded(env, s)), Expanded(env, s))
  {
    forall i | 0 <= i < |s.fsRoots|
      ensures SamePath(ExpandTilde(env, ExpandTilde(env, s.fsRoots[i])), ExpandTilde(env, s.fsRoots[i]))
    {
      ExpandOnce(env, s.fsRoots[i]);
    }
  }

  lemma ExpandedMapTwice(env: Env, m: ScopeMap)
    requires PlainHome(env)
    ensures SameScopes(ExpandedMap(env, ExpandedMap(env, m)), ExpandedMap(env, m))
  {
    forall t | t in m ensures SameScope(Expanded(env, Expanded(env, m[t])), Expanded(env, m[t])) {
      ExpandedTwice(env, m[t]);
    }
  }

  lemma FoldedAgentTwice(env: Env, a: Agent, defaults: ScopeMap, hardened: bool)
    requires PlainHome(env)
    ensures var once := FoldedAgent(env, a, defaults, hardened);
            SameAgent(FoldedAgent(env, once, ExpandedMap(env, defaults), hardened), once)
  {
    var m := Inherited(a.scopes, defaults);
    assert Inherited(ExpandedMap(env, m), ExpandedMap(env, defaults)) == ExpandedMap(env, m);
    ExpandedMapTwice(env, m);
  }

  lemma FoldedTwice(env: Env, c: Settings)
    requires PlainHome(env)
    ensures SameSettings(Folded(env, Folded(env, c)), Folded(env, c))
  {
    var once := Folded(env, c);
    var twice := Folded(env, once);
    ExpandedMapTwice(env, c.defaults);
    forall n | n in c.agents ensures SameAgent(twice.agents[n], once.agents[n]) {
      FoldedAgentTwice(env, c.agents[n], c.defaults, Hardened(c));
    }
  }

  /** Folding is idempotent on every configuration exactly under a plain home dir. */
  lemma FoldIdempotent(env: Env)
    ensures PlainHome(env) <==> forall c :: SameSettings(Folded(env, Folded(env, c)), Folded(env, c))
  {
    if PlainHome(env) {
      forall c ensures SameSettings(Folded(env, Folded(env, c)), Folded(env, c)) { FoldedTwice(env, c); }
    } else {
      var c := FoldDiffers(env);
    }
  }

  lemma FoldDiffers(env: Env) returns (c: Settings)
    requires !PlainHome(env)
    ensures !SameSettings(Folded(env, Folded(env, c)), Folded(env, c))
  {
    ExpandTwiceDiffers(env);
    var p :| !SamePath(ExpandTilde(env, ExpandTilde(env, p)), ExpandTilde(env, p));
    var scope := NO_SCOPE.(fsRoots := [p]);
    c := Settings(map[], map["t" := scope], false, None, false);
    var once, twice := Folded(env, c).defaults, Folded(env, Folded(env, c)).defaults;
    assert once["t"] == Expanded(env, scope) && twice["t"] == Expanded(env, Expanded(env, scope));
    assert once["t"].fsRoots[0] == ExpandTilde(env, p);
    assert twice["t"].fsRoots[0] == ExpandTilde(env, ExpandTilde(env, p));
    assert !SameScope(twice["t"], once["t"]);
  }

  // ---- what a run grants ----

  predicate HasRoot(roots: seq<Path>, p: Path) { exists i :: 0 <= i < |roots| && SamePath(roots[i], p) }

  /** The workspace on every scope but a deny. */
  function Granted(scopes: ScopeMap, workspace: Path): (granted: ScopeMap) {
    map t | t in scopes ::
      if DenyAll(scopes[t]) || HasRoot(scopes[t].fsRoots, workspace) then scopes[t]
      else scopes[t].(fsRoots := scopes[t].fsRoots + [workspace])
  }

  method GrantWorkspaceRoot(scopes: ScopeMap, workspace: Path) returns (out: ScopeMap)
    ensures out == Granted(scopes, workspace)
  {
    out := scopes;
    var todo := scopes.Keys;
    while todo != {}
      invariant todo <= scopes.Keys == out.Keys
      invariant forall t :: t in scopes ==> out[t] == if t in todo then scopes[t] else Granted(scopes, workspace)[t]
      decreases todo
    {
      var t :| t in todo;
      if !DenyAll(out[t]) && !HasRoot(out[t].fsRoots, workspace) {
        out := out[t := out[t].(fsRoots := out[t].fsRoots + [workspace])];
      }
      todo := todo - {t};
    }
  }

  /** A grant adds one root to what grants something, once, and takes nothing away. */
  lemma GrantOnlyAdds(scopes: ScopeMap, workspace: Path, t: string)
    requires t in scopes
    ensures var was, now := scopes[t], Granted(scopes, workspace)[t];
            Granted(Granted(scopes, workspace), workspace) == Granted(scopes, workspace) &&
            (DenyAll(was) <==> DenyAll(now)) && now == was.(fsRoots := now.fsRoots) && was.fsRoots <= now.fsRoots &&
            (DenyAll(was) || HasRoot(now.fsRoots, workspace)) &&
            forall r :: r in now.fsRoots <==>
                        r in was.fsRoots || (r == workspace && !DenyAll(was) && !HasRoot(was.fsRoots, workspace))
  {
    var once := Granted(scopes, workspace);
    forall u | u in once ensures DenyAll(once[u]) || HasRoot(once[u].fsRoots, workspace) {
      if !DenyAll(scopes[u]) && !HasRoot(scopes[u].fsRoots, workspace) {
        assert SamePath(once[u].fsRoots[|scopes[u].fsRoots|], workspace);
      }
    }
    assert forall u :: u in once ==> Granted(once, workspace)[u] == once[u];
  }

  function Permissive(workspace: Path, wallet: string): (r: Scope) { Scope([workspace], ["*"], [], ["*"], [wallet]) }

  /** The configured scope of each tool, or the fallback: none at all where no shell may run. */
  function ToolScopes(
    workspace: Path, wallet: string, configured: ScopeMap, tools: set<string>, noShell: bool): (r: ScopeMap)
  {
    map t | t in tools ::
      if t in configured then configured[t] else if noShell then NO_SCOPE else Permissive(workspace, wallet)
  }

  // ---- the check ----

  datatype Protected = Protected(what: string, path: seq<Component>, dir: bool)

  datatype How = Inside | Around

  function ReachedBy(p: Protected, root: seq<Component>): (r: Option<How>) {
    if root <= p.path then Some(Inside) else if p.dir && p.path <= root then Some(Around) else None
  }

  /** A file is exposed by a root that contains it, a directory by a root that shares any path with it. */
  ghost predicate Exposed(p: Protected, root: seq<Component>) {
    if p.dir then exists q :: InTree(p.path, q) && InTree(root, q) else InTree(root, p.path)
  }

  lemma ReachedIffExposed(p: Protected, root: seq<Component>)
    ensures ReachedBy(p, root).Some? <==> Exposed(p, root)
  {
    SharedIffComparable(p.path, root);
  }

  function ProtectedAt(env: Env, what: string, path: Path, dir: bool): (r: Protected) {
    Protected(what, Resolved(env, ExpandTilde(env, path)), dir)
  }

  /** `<TENGU_HOME>/state`, and the kill switch file when it is absolute. */
  function ProtectedPaths(env: Env, c: Settings, tenguHome: Path): (r: seq<Protected>) {
    [ProtectedAt(env, "<TENGU_HOME>/state", Join(tenguHome, "state"), true)] +
    if c.killSwitch.Some? && Absolute(ExpandTilde(env, c.killSwitch.value))
    then [ProtectedAt(env, "risk.kill_switch_file", ExpandTilde(env, c.killSwitch.value), false)] else []
  }

  datatype Place = Workspace(agent: string) | DefaultRoot(tool: string) | AgentRoot(agent: string, tool: string)

  datatype PathError = PathError(p: Protected, how: How, at: Place, root: seq<Component>)

  /** The configuration names `root` at `at`. */
  predicate Names(c: Settings, at: Place, root: Path) {
    match at
    case Workspace(a) => a in c.agents && c.agents[a].workspace == Some(root)
    case DefaultRoot(t) => t in c.defaults && root in c.defaults[t].fsRoots
    case AgentRoot(a, t) => a in c.agents && t in c.agents[a].scopes && root in c.agents[a].scopes[t].fsRoots
  }

  ghost predicate ErrorOf(env: Env, protected: seq<Protected>, at: Place, root: Path, e: PathError) {
    e.at == at && e.root == Resolved(env, ExpandTilde(env, root)) && e.p in protected &&
    ReachedBy(e.p, e.root) == Some(e.how)
  }

  /** Nothing that the configuration names reaches a protected path. */
  ghost predicate NoPathError(env: Env, c: Settings, protected: seq<Protected>) {
    forall at, root, p :: Names(c, at, root) && p in protected ==>
      ReachedBy(p, Resolved(env, ExpandTilde(env, root))).None?
  }

  /** Every root and workspace against every protected path. */
  method PathErrors(env: Env, c: Settings, protected: seq<Protected>) returns (errors: set<PathError>)
    ensures forall e :: e in errors <==> exists at, root :: Names(c, at, root) && ErrorOf(env, protected, at, root, e)
    ensures errors == {} <==> NoPathError(env, c, protected)
  {
    var workspaces :=
      set a | a in c.agents && c.agents[a].workspace.Some? :: (Workspace(a), c.agents[a].workspace.value);
    var defaults := set t, r | t in c.defaults && r in c.defaults[t].fsRoots :: (DefaultRoot(t), r);
    var own := set a, t, r | a in c.agents && t in c.agents[a].scopes && r in c.agents[a].scopes[t].fsRoots ::
                 (AgentRoot(a, t), r);
    var todo := workspaces + defaults + own;
    forall at, root ensures (at, root) in todo <==> Names(c, at, root) {
    }
    ghost var all := todo;
    errors := {};
    while todo != {}
      invariant todo <= all
      invariant forall e :: e in errors <==>
                  exists at, root :: (at, root) in all - todo && ErrorOf(env, protected, at, root, e)
      decreases todo
    {
      var item :| item in todo;
      var found := ErrorsAt(env, protected, item.0, item.1);
      errors := errors + found;
      todo := todo - {item};
    }
    forall at, root, p |
        Names(c, at, root) && p in protected && ReachedBy(p, Resolved(env, ExpandTilde(env, root))).Some?
      ensures errors != {}
    {
      var where := Resolved(env, ExpandTilde(env, root));
      var e := PathError(p, ReachedBy(p, where).value, at, where);
      assert (at, root) in all && ErrorOf(env, protected, at, root, e);
      assert e in errors;
    }
  }

  lemma ErrorSnoc(env: Env, protected: seq<Protected>, n: nat, at: Place, root: Path, e: PathError)
    requires n < |protected|
    ensures var where := Resolved(env, ExpandTilde(env, root));
            var how := ReachedBy(protected[n], where);
            ErrorOf(env, protected[..n + 1], at, root, e) <==>
            ErrorOf(env, protected[..n], at, root, e) ||
            (how.Some? && e == PathError(protected[n], how.value, at, where))
  {
    assert protected[..n + 1] == protected[..n] + [protected[n]];
    assert e.p in protected[..n + 1] <==> e.p in protected[..n] || e.p == protected[n];
  }

  method ErrorsAt(env: Env, protected: seq<Protected>, at: Place, root: Path) returns (errors: set<PathError>)
    ensures forall e :: e in errors <==> ErrorOf(env, protected, at, root, e)
  {
    var where := Resolved(env, ExpandTilde(env, root));
    errors := {};
    for n := 0 to |protected|
      invariant forall e :: e in errors <==> ErrorOf(env, protected[..n], at, root, e)
    {
      var how := ReachedBy(protected[n], where);
      forall e
        ensures ErrorOf(env, protected[..n + 1], at, root, e) <==>
                ErrorOf(env, protected[..n], at, root, e) ||
                (how.Some? && e == PathError(protected[n], how.value, at, where))
      {
        ErrorSnoc(env, protected, n, at, root, e);
      }
      if how.Some? { errors := errors + {PathError(protected[n], how.value, at, where)}; }
    }
    assert protected[..|protected|] == protected;
  }

  /**
   What a root must keep clear of: it contains neither the configuration file nor the kill
   switch file, if that is absolute, and has no path in common with the state dir.
  */
  ghost predicate KeepsClear(env: Env, c: Settings, tenguHome: Path, file: Path, root: seq<Component>) {
    !InTree(root, Resolved(env, ExpandTilde(env, file))) &&
    (c.killSwitch.Some? && Absolute(ExpandTilde(env, c.killSwitch.value)) ==>
       !InTree(root, Resolved(env, ExpandTilde(env, c.killSwitch.value)))) &&
    !exists q :: InTree(root, q) && InTree(Resolved(env, ExpandTilde(env, Join(tenguHome, "state"))), q)
  }

  /** Exactly the protected paths, in the check's terms. */
  lemma ClearIsUnreached(env: Env, c: Settings, tenguHome: Path, file: Path, root: seq<Component>)
    ensures KeepsClear(env, c, tenguHome, file, root) <==>
            (forall p :: p in ProtectedPaths(env, c, tenguHome) ==> ReachedBy(p, root).None?) &&
            ReachedBy(ProtectedAt(env, "the config file", file, false), root).None?
  {
    var protected := ProtectedPaths(env, c, tenguHome);
    ReachedIffExposed(protected[0], root);
    ReachedIffExposed(ProtectedAt(env, "the config file", file, false), root);
    if c.killSwitch.Some? && Absolute(ExpandTilde(env, c.killSwitch.value)) {
      var kill := ExpandTilde(env, c.killSwitch.value);
      assert !UnderHome(kill);
      ReachedIffExposed(protected[1], root);
    }
  }

  lemma CheckedIsClear(env: Env, c: Settings, tenguHome: Path, file: Path)
    ensures NoPathError(env, c, ProtectedPaths(env, c, tenguHome)) &&
            NoPathError(env, c, [ProtectedAt(env, "the config file", file, false)]) <==>
            forall at, root :: Names(c, at, root) ==>
              KeepsClear(env, c, tenguHome, file, Resolved(env, ExpandTilde(env, root)))
  {
    var config := ProtectedAt(env, "the config file", file, false);
    forall at, root | Names(c, at, root)
      ensures KeepsClear(env, c, tenguHome, file, Resolved(env, ExpandTilde(env, root))) <==>
              (forall p :: p in ProtectedPaths(env, c, tenguHome) ==>
                 ReachedBy(p, Resolved(env, ExpandTilde(env, root))).None?) &&
              ReachedBy(config, Resolved(env, ExpandTilde(env, root))).None?
    {
      ClearIsUnreached(env, c, tenguHome, file, Resolved(env, ExpandTilde(env, root)));
    }
    assert config in [config];
  }

  /** The path rules of a hardened sandbox, the configuration file's included. */
  method HardenedPathErrors(env: Env, c: Settings, tenguHome: Path, file: Path) returns (errors: set<PathError>)
    ensures errors == {} <==>
            (Hardened(c) ==> NoPathError(env, c, ProtectedPaths(env, c, tenguHome)) &&
                             NoPathError(env, c, [ProtectedAt(env, "the config file", file, false)]))
    ensures errors == {} <==>
            (c.signer || c.killSwitch.Some? || c.soe ==>
             forall at, root :: Names(c, at, root) ==>
               KeepsClear(env, c, tenguHome, file, Resolved(env, ExpandTilde(env, root))))
  {
    CheckedIsClear(env, c, tenguHome, file);
    if !Hardened(c) { return {}; }
    errors := PathErrors(env, c, ProtectedPaths(env, c, tenguHome));
    var more := PathErrors(env, c, [ProtectedAt(env, "the config file", file, false)]);
    errors := errors + more;
  }

  // ---- the check covers what runs ----

  lemma NamedUnexposed(env: Env, c: Settings, protected: seq<Protected>, at: Place, root: Path, p: Protected)
    requires NoPathError(env, c, protected) && Names(c, at, root) && p in protected
    ensures !Exposed(p, Resolved(env, ExpandTilde(env, root)))
  {
    ReachedIffExposed(p, Resolved(env, ExpandTilde(env, root)));
  }

  /** A root of a folded agent is an expanded root that the configuration names. */
  lemma FoldedRootIsNamed(env: Env, c: Settings, agent: string, tool: string, r: Path) returns (at: Place, root: Path)
    requires agent in c.agents && tool in Folded(env, c).agents[agent].scopes
    requires r in Folded(env, c).agents[agent].scopes[tool].fsRoots
    ensures Names(c, at, root) && r == ExpandTilde(env, root)
  {
    var m := Inherited(c.agents[agent].scopes, c.defaults);
    assert r in ExpandAll(env, m[tool].fsRoots);
    var i :| 0 <= i < |m[tool].fsRoots| && r == ExpandTilde(env, m[tool].fsRoots[i]);
    root := m[tool].fsRoots[i];
    at := if tool in c.agents[agent].scopes then AgentRoot(agent, tool) else DefaultRoot(tool);
  }

  /**
   When the check finds nothing, no root of any tool of any agent, after folding,
   granting the workspace and falling back, contains a protected file or shares a path
   with a protected directory; `w` is the agent's configured workspace as it is granted,
   or a fresh one of which nothing is claimed.
  */
  lemma CheckedRootsCover(
    env: Env, c: Settings, protected: seq<Protected>, agent: string, w: Path, wallet: string, tools: set<string>,
    tool: string, r: Path, p: Protected)
    requires NoPathError(env, c, protected) && agent in c.agents && tool in tools && p in protected
    requires var a := Folded(env, c).agents[agent];
             r in ToolScopes(w, wallet, Granted(a.scopes, w), tools, a.noShell)[tool].fsRoots
    ensures !Exposed(p, Resolved(env, r)) ||
            (r == w && !(c.agents[agent].workspace.Some? &&
                         Resolved(env, w) == Resolved(env, ExpandTilde(env, c.agents[agent].workspace.value))))
  {
    var a := Folded(env, c).agents[agent];
    if r == w {
      if c.agents[agent].workspace.Some? {
        NamedUnexposed(env, c, protected, Workspace(agent), c.agents[agent].workspace.value, p);
      }
    } else {
      GrantOnlyAddsTo(a.scopes, w, tool, r);
      var at, root := FoldedRootIsNamed(env, c, agent, tool, r);
      NamedUnexposed(env, c, protected, at, root, p);
    }
  }

  lemma GrantOnlyAddsTo(scopes: ScopeMap, w: Path, t: string, r: Path)
    requires t in scopes ==> r in Granted(scopes, w)[t].fsRoots
    ensures t in scopes && r != w ==> r in scopes[t].fsRoots
  {
  }

  /** The configured workspace made absolute, as a run grants it, is where the check looked. */
  lemma WorkspaceIsChecked(env: Env, ws: Path)
    requires Absolute(env.cwd) || env.cwd == ""
    ensures Resolved(env, MadeAbsolute(env, ExpandTilde(env, ws))) == Resolved(env, ExpandTilde(env, ws))
  {
    ResolvedAbsolute(env, ExpandTilde(env, ws));
  }

  /** The scopes of a run of the agent in workspace `w`. */
  function Effective(
    env: Env, c: Settings, agent: string, w: Path, wallet: string, tools: set<string>): (scopes: ScopeMap)
    requires agent in c.agents
  {
    var a := Folded(env, c).agents[agent];
    ToolScopes(w, wallet, Granted(a.scopes, w), tools, a.noShell)
  }

  /** The workspace of a run: the configured one made absolute, or any fresh one. */
  predicate RunsIn(env: Env, a: Agent, w: Path) {
    a.workspace.Some? ==> w == MadeAbsolute(env, ExpandTilde(env, a.workspace.value))
  }

  /** No root of any tool of any run exposes `p`, but for a fresh workspace itself. */
  ghost predicate OutOfReach(env: Env, c: Settings, p: Protected) {
    forall agent, w, wallet, tools, tool, r ::
      agent in c.agents && RunsIn(env, c.agents[agent], w) && tool in tools &&
      r in Effective(env, c, agent, w, wallet, tools)[tool].fsRoots ==>
        !Exposed(p, Resolved(env, r)) || (c.agents[agent].workspace.None? && r == w)
  }

  lemma CheckedIsOutOfReach(env: Env, c: Settings, protected: seq<Protected>, p: Protected)
    requires Absolute(env.cwd) || env.cwd == ""
    requires NoPathError(env, c, protected) && p in protected
    ensures OutOfReach(env, c, p)
  {
    forall agent, w, wallet, tools, tool, r |
        agent in c.agents && RunsIn(env, c.agents[agent], w) && tool in tools &&
        r in Effective(env, c, agent, w, wallet, tools)[tool].fsRoots
      ensures !Exposed(p, Resolved(env, r)) || (c.agents[agent].workspace.None? && r == w)
    {
      CheckedRootsCover(env, c, protected, agent, w, wallet, tools, tool, r, p);
      if c.agents[agent].workspace.Some? { WorkspaceIsChecked(env, c.agents[agent].workspace.value); }
    }
  }

  /** The roots of a tool in a run, spelled out. */
  lemma EffectiveRoots(
    env: Env, c: Settings, agent: string, w: Path, wallet: string, tools: set<string>, tool: string, r: Path)
    requires agent in c.agents && tool in tools
    ensures var found := ResolveScope(c, agent, tool);
            r in Effective(env, c, agent, w, wallet, tools)[tool].fsRoots <==>
            if found.None? then r == w && !(c.signer || c.killSwitch.Some? || c.soe)
            else (exists i :: 0 <= i < |found.value.fsRoots| && r == ExpandTilde(env, found.value.fsRoots[i])) ||
                 (r == w && !DenyAll(found.value) &&
                  !exists i :: 0 <= i < |found.value.fsRoots| && SamePath(ExpandTilde(env, found.value.fsRoots[i]), w))
  {
    var found, scopes := ResolveScope(c, agent, tool), Folded(env, c).agents[agent].scopes;
    FoldAgrees(env, c, agent, tool);
    if found.Some? {
      assert scopes[tool] == Expanded(env, found.value);
      assert DenyAll(scopes[tool]) <==> DenyAll(found.value) by {
        if DenyAll(found.value) { assert ExpandAll(env, []) == []; }
      }
      GrantOnlyAdds(scopes, w, tool);
      forall i | 0 <= i < |found.value.fsRoots|
        ensures ExpandTilde(env, found.value.fsRoots[i]) in scopes[tool].fsRoots
      {
        assert scopes[tool].fsRoots[i] == ExpandTilde(env, found.value.fsRoots[i]);
      }
    }
  }

  /**
   The guarantee in one piece: when the hardened checks find nothing, no root of any tool
   of any run contains the kill switch or the configuration file or shares a path with
   the state dir, but for a fresh workspace itself.
  */
  method CheckHardened(env: Env, c: Settings, tenguHome: Path, file: Path) returns (errors: set<PathError>)
    requires Absolute(env.cwd) || env.cwd == ""
    ensures (c.signer || c.killSwitch.Some? || c.soe) && errors == {} ==>
              forall agent, w, wallet, tools, tool, r ::
                agent in c.agents && RunsIn(env, c.agents[agent], w) && tool in tools &&
                r in Effective(env, c, agent, w, wallet, tools)[tool].fsRoots &&
                !(c.agents[agent].workspace.None? && r == w) ==>
                  KeepsClear(env, c, tenguHome, file, Resolved(env, r))
  {
    errors := HardenedPathErrors(env, c, tenguHome, file);
    if Hardened(c) && errors == {} { RunsKeepClear(env, c, tenguHome, file); }
  }

  lemma RunsKeepClear(env: Env, c: Settings, tenguHome: Path, file: Path)
    requires Absolute(env.cwd) || env.cwd == ""
    requires NoPathError(env, c, ProtectedPaths(env, c, tenguHome))
    requires NoPathError(env, c, [ProtectedAt(env, "the config file", file, false)])
    ensures forall agent, w, wallet, tools, tool, r ::
              agent in c.agents && RunsIn(env, c.agents[agent], w) && tool in tools &&
              r in Effective(env, c, agent, w, wallet, tools)[tool].fsRoots &&
              !(c.agents[agent].workspace.None? && r == w) ==>
                KeepsClear(env, c, tenguHome, file, Resolved(env, r))
  {
    var protected, config := ProtectedPaths(env, c, tenguHome), ProtectedAt(env, "the config file", file, false);
    forall p | p in protected ensures OutOfReach(env, c, p) { CheckedIsOutOfReach(env, c, protected, p); }
    CheckedIsOutOfReach(env, c, [config], config);
    forall agent, w, wallet, tools, tool, r |
        agent in c.agents && RunsIn(env, c.agents[agent], w) && tool in tools &&
        r in Effective(env, c, agent, w, wallet, tools)[tool].fsRoots &&
        !(c.agents[agent].workspace.None? && r == w)
      ensures KeepsClear(env, c, tenguHome, file, Resolved(env, r))
    {
      var root := Resolved(env, r);
      forall p | p in protected ensures ReachedBy(p, root).None? { ReachedIffExposed(p, root); }
      ReachedIffExposed(config, root);
      ClearIsUnreached(env, c, tenguHome, file, root);
    }
  }

  /** Where a tool has no scope, a hardened sandbox gives it none: every root comes from a configured scope. */
  lemma HardenedFallbackIsEmpty(
    env: Env, c: Settings, agent: string, w: Path, wallet: string, tools: set<string>, tool: string)
    requires (c.signer || c.killSwitch.Some? || c.soe) && agent in c.agents && tool in tools
    requires ResolveScope(c, agent, tool).None?
    ensures var a := Folded(env, c).agents[agent];
            DenyAll(ToolScopes(w, wallet, Granted(a.scopes, w), tools, a.noShell)[tool])
  {
    FoldAgrees(env, c, agent, tool);
  }

  /** The verdict is the same before and after folding. */
  lemma CheckSurvivesFold(env: Env, c: Settings, protected: seq<Protected>)
    requires PlainHome(env)
    ensures NoPathError(env, c, protected) <==> NoPathError(env, Folded(env, c), protected)
  {
    var f := Folded(env, c);
    forall at, root | Names(c, at, root) ensures exists r :: Names(f, at, r) && SameSpot(env, r, root) {
      NamedStays(env, c, at, root);
      ExpandedSpot(env, root);
      assert SameSpot(env, root, root);
    }
    forall at, r | Names(f, at, r) ensures exists from, root :: Names(c, from, root) && SameSpot(env, r, root) {
      var from, root := NamedBefore(env, c, at, r);
      ExpandedSpot(env, root);
      assert SameSpot(env, root, root);
    }
  }

  /** The check looks at one place for both. */
  predicate SameSpot(env: Env, a: Path, b: Path) {
    Resolved(env, ExpandTilde(env, a)) == Resolved(env, ExpandTilde(env, b))
  }

  lemma ExpandedSpot(env: Env, root: Path)
    requires PlainHome(env)
    ensures SameSpot(env, ExpandTilde(env, root), root)
  {
    ExpandOnce(env, root);
    SameResolved(env, ExpandTilde(env, ExpandTilde(env, root)), ExpandTilde(env, root));
  }

  lemma NamedStays(env: Env, c: Settings, at: Place, root: Path)
    requires Names(c, at, root)
    ensures Names(Folded(env, c), at, if at.Workspace? then root else ExpandTilde(env, root))
  {
    if at.DefaultRoot? { StillListed(env, c.defaults[at.tool].fsRoots, root); }
    if at.AgentRoot? { StillListed(env, c.agents[at.agent].scopes[at.tool].fsRoots, root); }
  }

  lemma StillListed(env: Env, roots: seq<Path>, root: Path)
    requires root in roots
    ensures ExpandTilde(env, root) in ExpandAll(env, roots)
  {
    var i :| 0 <= i < |roots| && roots[i] == root;
    assert ExpandAll(env, roots)[i] == ExpandTilde(env, root);
  }

  lemma NamedBefore(env: Env, c: Settings, at: Place, r: Path) returns (from: Place, root: Path)
    requires Names(Folded(env, c), at, r)
    ensures Names(c, from, root) && (r == root || r == ExpandTilde(env, root))
  {
    match at {
      case Workspace(_) => from, root := at, r;
      case DefaultRoot(t) =>
        var i :| 0 <= i < |c.defaults[t].fsRoots| && r == ExpandTilde(env, c.defaults[t].fsRoots[i]);
        from, root := at, c.defaults[t].fsRoots[i];
      case AgentRoot(a, t) => from, root := FoldedRootIsNamed(env, c, a, t, r);
    }
  }
}
