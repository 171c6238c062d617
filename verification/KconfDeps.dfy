/** Which symbols an assignment can affect: the dependency graph `_build_dep` builds, the closure
    `_get_dependent` takes, and the proof that nothing outside it changes
    (docs/kconfiglib.py). */
module KconfDeps {
  import opened Basics
  import opened KconfExpr
  import opened Kconfig
  import opened KconfFrame

  /** `Symbol.dep`: the symbols that mention s. */
  function Dep(k: Config, s: Sym): set<Sym> {
    set t | t in k.syms && s in Refs(k, k.syms[t])
  }

  /** s and, when it is a choice symbol, its siblings. */
  function Group(k: Config, s: Sym): set<Sym>
    requires s in k.syms
  {
    var c := k.syms[s].choice;
    if c.Some? && c.value in k.choices then (set i | 0 <= i < |k.choices[c.value].actual| :: k.choices[c.value].actual[i]) + {s}
    else {s}
  }

  /** The symbols of a higher level than s. */
  function Above(k: Config, s: Sym): set<Sym>
    requires s in k.syms
  {
    set t | t in k.syms && k.syms[s].level < k.syms[t].level
  }

  lemma GroupLevel(k: Config, s: Sym, g: Sym)
    requires Acyclic(k) && s in k.syms && g in Group(k, s)
    ensures g in k.syms && k.syms[g].level == k.syms[s].level
    ensures Group(k, g) == Group(k, s)
  {
    assert SymbolOk(k, s);
    if g != s {
      var id := k.syms[s].choice.value;
      assert ChoiceOk(k, id);
      var i :| 0 <= i < |k.choices[id].actual| && k.choices[id].actual[i] == g;
      assert Member(k, g, id);
      assert SymbolOk(k, g);
    }
  }

  lemma DepIsAbove(k: Config, s: Sym, g: Sym, d: Sym)
    requires Acyclic(k) && s in k.syms && g in Group(k, s) && d in Dep(k, g)
    ensures k.syms[s].level < k.syms[d].level && Above(k, d) < Above(k, s)
  {
    GroupLevel(k, s, g);
    assert SymbolOk(k, d);
    assert Lower(k, g, k.syms[d].level);
    assert d in Above(k, s) && d !in Above(k, d);
  }

  // ---- Reachability ------------------------------------------------------

  /** One step of dependence: t mentions s, or both are symbols of one choice. */
  ghost predicate Edge(k: Config, s: Sym, t: Sym) {
    s in k.syms && t in k.syms && (t in Dep(k, s) || t in Group(k, s))
  }

  ghost predicate Path(k: Config, p: seq<Sym>) {
    forall i | 0 <= i < |p| - 1 :: Edge(k, p[i], p[i + 1])
  }

  ghost predicate Joins(k: Config, p: seq<Sym>, s: Sym, t: Sym) {
    p != [] && p[0] == s && p[|p| - 1] == t && Path(k, p)
  }

  ghost predicate Reaches(k: Config, s: Sym, t: Sym) {
    exists p :: Joins(k, p, s, t)
  }

  /** Everything an assignment to s can affect: what is reachable through mentions and siblings. */
  ghost function Affected(k: Config, s: Sym): set<Sym> {
    set t | t in k.syms && Reaches(k, s, t)
  }

  lemma ReachesSelf(k: Config, s: Sym)
    ensures Reaches(k, s, s)
  {
    assert Joins(k, [s], s, s);
  }

  lemma EdgeThenReaches(k: Config, s: Sym, m: Sym, t: Sym)
    requires Edge(k, s, m) && Reaches(k, m, t)
    ensures Reaches(k, s, t)
  {
    var p :| Joins(k, p, m, t);
    var q := [s] + p;
    forall i | 0 <= i < |q| - 1
      ensures Edge(k, q[i], q[i + 1])
    {
      if i > 0 {
        assert q[i] == p[i - 1] && q[i + 1] == p[i];
      }
    }
    assert Joins(k, q, s, t);
  }

  lemma ReachesThenEdge(k: Config, s: Sym, m: Sym, t: Sym)
    requires Reaches(k, s, m) && Edge(k, m, t)
    ensures Reaches(k, s, t)
  {
    var p :| Joins(k, p, s, m);
    var q := p + [t];
    forall i | 0 <= i < |q| - 1
      ensures Edge(k, q[i], q[i + 1])
    {
      if i < |p| - 1 {
        assert q[i] == p[i] && q[i + 1] == p[i + 1];
      }
    }
    assert Joins(k, q, s, t);
  }

  /** Dependence never goes down a level. */
  lemma {:induction false} PathClimbs(k: Config, p: seq<Sym>, s: Sym, t: Sym)
    requires Acyclic(k) && s in k.syms && Joins(k, p, s, t)
    ensures t in k.syms && k.syms[s].level <= k.syms[t].level
    decreases |p|
  {
    if |p| > 1 {
      assert Edge(k, p[0], p[1]);
      var m := p[1];
      if m in Group(k, s) {
        GroupLevel(k, s, m);
      } else {
        DepIsAbove(k, s, s, m);
      }
      forall i | 0 <= i < |p[1..]| - 1
        ensures Edge(k, p[1..][i], p[1..][i + 1])
      {
        assert Edge(k, p[i + 1], p[i + 2]);
      }
      PathClimbs(k, p[1..], m, t);
    }
  }

  lemma AffectedClimbs(k: Config, s: Sym, t: Sym)
    requires Acyclic(k) && s in k.syms && t in Affected(k, s)
    ensures k.syms[s].level <= k.syms[t].level
  {
    var p :| Joins(k, p, s, t);
    PathClimbs(k, p, s, t);
  }

  lemma AffectedIsClosed(k: Config, s: Sym, x: Sym, y: Sym)
    requires x in Affected(k, s) && Edge(k, x, y)
    ensures y in Affected(k, s)
  {
    ReachesThenEdge(k, s, x, y);
  }

  // ---- The closure as `_get_dependent` takes it --------------------------

  ghost function AllAffected(k: Config, D: set<Sym>): set<Sym> {
    set d, x | d in D && x in Affected(k, d) :: x
  }

  lemma AffectedHoldsOwn(k: Config, D: set<Sym>)
    requires D <= k.syms.Keys
    ensures D <= AllAffected(k, D)
  {
    forall d | d in D
      ensures d in AllAffected(k, D)
    {
      ReachesSelf(k, d);
      assert d in Affected(k, d);
    }
  }

  lemma AffectOne(k: Config, D: set<Sym>, d: Sym)
    ensures AllAffected(k, D + {d}) == AllAffected(k, D) + Affected(k, d)
  {
  }

  /** What depends on the symbols G of a group. */
  ghost function Gathered(k: Config, G: set<Sym>): set<Sym> {
    set g, x | g in G && x in AllAffected(k, Dep(k, g)) :: x
  }

  /** What is gathered after the symbols G of the group, s itself left out. */
  ghost function GatheredBut(k: Config, G: set<Sym>, s: Sym): set<Sym> {
    (G - {s}) + Gathered(k, G)
  }

  lemma GatherOne(k: Config, G: set<Sym>, g: Sym, s: Sym)
    ensures GatheredBut(k, G + {g}, s) == GatheredBut(k, G, s) + ({g} - {s}) + AllAffected(k, Dep(k, g))
  {
    assert Gathered(k, G + {g}) == Gathered(k, G) + AllAffected(k, Dep(k, g));
  }

  /** A group and what depends on it is closed under dependence. */
  lemma GatheredIsClosed(k: Config, s: Sym, x: Sym, y: Sym)
    requires Acyclic(k) && s in k.syms && x in Group(k, s) + Gathered(k, Group(k, s)) && Edge(k, x, y)
    ensures y in Group(k, s) + Gathered(k, Group(k, s))
  {
    if x in Group(k, s) {
      GroupLevel(k, s, x);
      if y in Dep(k, x) {
        AffectedHoldsOwn(k, Dep(k, x));
      }
    } else {
      var g :| g in Group(k, s) && x in AllAffected(k, Dep(k, g));
      var d :| d in Dep(k, g) && x in Affected(k, d);
      AffectedIsClosed(k, d, x, y);
      assert y in AllAffected(k, Dep(k, g));
    }
  }

  lemma {:induction false} PathStaysGathered(k: Config, s: Sym, p: seq<Sym>, t: Sym)
    requires Acyclic(k) && s in k.syms && p != [] && p[|p| - 1] == t && Path(k, p)
    requires p[0] in Group(k, s) + Gathered(k, Group(k, s))
    ensures t in Group(k, s) + Gathered(k, Group(k, s))
    decreases |p|
  {
    if |p| > 1 {
      assert Edge(k, p[0], p[1]);
      GatheredIsClosed(k, s, p[0], p[1]);
      forall i | 0 <= i < |p[1..]| - 1
        ensures Edge(k, p[1..][i], p[1..][i + 1])
      {
        assert Edge(k, p[i + 1], p[i + 2]);
      }
      PathStaysGathered(k, s, p[1..], t);
    }
  }

  lemma GatheredIsAffected(k: Config, s: Sym, t: Sym)
    requires Acyclic(k) && s in k.syms && t in Group(k, s) + Gathered(k, Group(k, s))
    ensures t in Affected(k, s)
    ensures t !in Group(k, s) ==> k.syms[s].level < k.syms[t].level
  {
    if t in Group(k, s) {
      GroupLevel(k, s, t);
      ReachesSelf(k, t);
      EdgeThenReaches(k, s, t, t);
    } else {
      var g :| g in Group(k, s) && t in AllAffected(k, Dep(k, g));
      var d :| d in Dep(k, g) && t in Affected(k, d);
      GroupLevel(k, s, g);
      DepIsAbove(k, s, g, d);
      AffectedClimbs(k, d, t);
      EdgeThenReaches(k, g, d, t);
      EdgeThenReaches(k, s, g, t);
    }
  }

  /** Taking the siblings, whatever mentions the symbol or a sibling, and what depends on that in
      turn, gives exactly the symbols reachable from s. */
  lemma ClosureIsReachability(k: Config, s: Sym)
    requires Acyclic(k) && s in k.syms
    ensures Group(k, s) + Gathered(k, Group(k, s)) == Affected(k, s)
    ensures GatheredBut(k, Group(k, s), s) == Affected(k, s) - {s}
  {
    forall t | t in Group(k, s) + Gathered(k, Group(k, s))
      ensures t in Affected(k, s)
    {
      GatheredIsAffected(k, s, t);
    }
    forall t | t in Affected(k, s)
      ensures t in Group(k, s) + Gathered(k, Group(k, s))
    {
      var p :| Joins(k, p, s, t);
      PathStaysGathered(k, s, p, t);
    }
    if s in Gathered(k, Group(k, s)) {
      var g :| g in Group(k, s) && s in AllAffected(k, Dep(k, g));
      var d :| d in Dep(k, g) && s in Affected(k, d);
      DepIsAbove(k, s, g, d);
      AffectedClimbs(k, d, s);
    }
  }

  // ---- Nothing else changes ----------------------------------------------

  /** u and w differ at most in what assigning to s can touch. */
  ghost predicate DifferAt(k: Config, u: User, w: User, s: Sym)
    requires s in k.syms
  {
    && (forall t :: t != s ==> Get(u.vals, t) == Get(w.vals, t))
    && (forall c: nat :: k.syms[s].choice != Some(c) ==> ChoiceAgree(u, w, c))
  }

  /** MODULES, which every promotion of "m" looks at without being mentioned, has the same value. */
  ghost predicate ModulesSame(k: Config, u: User, w: User)
    requires Acyclic(k)
  {
    MODULES in k.syms ==> Recompute(k, u, MODULES).val == Recompute(k, w, MODULES).val
  }

  /** Assigning to any other symbol leaves MODULES alone. */
  lemma ModulesKept(k: Config, u: User, w: User, s: Sym)
    requires Acyclic(k) && s in k.syms && s != MODULES && DifferAt(k, u, w, s) && UserValid(k, u)
    ensures ModulesSame(k, u, w)
  {
    if MODULES in k.syms {
      assert Sources(k, MODULES) == {};
      assert SourceValues(k, u, MODULES) == SourceValues(k, w, MODULES);
      var e := EnvFor(k, SourceValues(k, u, MODULES), MODULES);
      ValueFrame(k, u, w, e, e, MODULES);
    }
  }

  /** The symbols outside the closure, and MODULES. */
  ghost function Unmoved(k: Config, s: Sym): set<Sym> {
    set t | t in k.syms && (t !in Affected(k, s) || t == MODULES)
  }

  /** An unaffected symbol has unaffected sources. */
  lemma UnaffectedSources(k: Config, s: Sym, t: Sym)
    requires Acyclic(k) && s in k.syms && t in k.syms && t !in Affected(k, s)
    ensures Sources(k, t) <= Unmoved(k, s)
  {
    SourcesAreLower(k, t);
    forall r | r in Sources(k, t)
      ensures r in Unmoved(k, s)
    {
      if r in Affected(k, s) && r != MODULES {
        if r in Refs(k, k.syms[t]) {
          AffectedIsClosed(k, s, r, t);
        } else {
          assert SymbolOk(k, t);
          var id := k.syms[t].choice.value;
          var c := k.choices[id];
          var i :| 0 <= i < |c.actual| && c.actual[i] in k.syms && r in CondsSyms(k.syms[c.actual[i]].prompts);
          assert ChoiceOk(k, id) && Member(k, c.actual[i], id);
          assert SymbolOk(k, c.actual[i]);
          assert c.actual[i] in Dep(k, r);
          AffectedIsClosed(k, s, r, c.actual[i]);
          AffectedIsClosed(k, s, c.actual[i], t);
        }
      }
    }
  }

  lemma UnaffectedUser(k: Config, u: User, w: User, s: Sym, t: Sym)
    requires Acyclic(k) && s in k.syms && t in k.syms && t !in Affected(k, s) && DifferAt(k, u, w, s)
    ensures UserAgree(k, u, w, t)
  {
    assert SymbolOk(k, t) && SymbolOk(k, s);
    ReachesSelf(k, s);
    if k.syms[t].choice.Some? && k.syms[t].choice == k.syms[s].choice {
      AffectedIsClosed(k, s, s, t);
    }
  }

  /** What the closure lemmas below assume of two user states. */
  ghost predicate Assigned(k: Config, u: User, w: User, s: Sym) {
    Acyclic(k) && s in k.syms && DifferAt(k, u, w, s) && UserValid(k, u) && ModulesSame(k, u, w)
  }

  /** A symbol that is not affected keeps its value. */
  lemma {:induction false} UnaffectedValue(k: Config, u: User, w: User, s: Sym, t: Sym)
    requires Assigned(k, u, w, s) && t in k.syms && t !in Affected(k, s)
    ensures Recompute(k, u, t) == Recompute(k, w, t)
    decreases k.syms[t].level
  {
    SourcesAreLower(k, t);
    UnaffectedSources(k, s, t);
    forall r | r in Sources(k, t)
      ensures Recompute(k, u, r).val == Recompute(k, w, r).val
    {
      if r != MODULES {
        UnaffectedValue(k, u, w, s, r);
      }
    }
    assert SourceValues(k, u, t) == SourceValues(k, w, t);
    UnaffectedUser(k, u, w, s, t);
    ValueFrame(k, u, w, EnvFor(k, SourceValues(k, u, t), t), EnvFor(k, SourceValues(k, w, t), t), t);
  }

  lemma UnaffectedEnv(k: Config, u: User, w: User, s: Sym)
    requires Assigned(k, u, w, s)
    ensures EnvAgree(FullEnv(k, u), FullEnv(k, w), Unmoved(k, s))
  {
    forall t | t in Unmoved(k, s)
      ensures Recompute(k, u, t).val == Recompute(k, w, t).val
    {
      if t != MODULES {
        UnaffectedValue(k, u, w, s, t);
      }
    }
  }

  /** Nor does its visibility change. */
  lemma UnaffectedVisibility(k: Config, u: User, w: User, s: Sym, t: Sym)
    requires Assigned(k, u, w, s) && t in k.syms && t !in Affected(k, s)
    ensures SymVis(k, FullEnv(k, u), k.syms[t]) == SymVis(k, FullEnv(k, w), k.syms[t])
  {
    UnaffectedEnv(k, u, w, s);
    UnaffectedSources(k, s, t);
    assert Refs(k, k.syms[t]) <= Sources(k, t);
    SymVisFrame(k, FullEnv(k, u), FullEnv(k, w), t);
  }

  /** A choice none of whose symbols is affected keeps its visibility and selection. */
  lemma UnaffectedChoice(k: Config, u: User, w: User, s: Sym, id: nat)
    requires Assigned(k, u, w, s) && id in k.choices
    requires forall t | Member(k, t, id) :: t !in Affected(k, s)
    ensures ChoiceVis(FullEnv(k, u), k.choices[id]) == ChoiceVis(FullEnv(k, w), k.choices[id])
    ensures Selection(k, FullEnv(k, u), k.choices[id], Get(u.sel, id), Get(u.mode, id))
         == Selection(k, FullEnv(k, w), k.choices[id], Get(w.sel, id), Get(w.mode, id))
  {
    var c := k.choices[id];
    assert ChoiceOk(k, id);
    var m := c.actual[0];
    assert Member(k, m, id);
    UnaffectedUser(k, u, w, s, m);
    UnaffectedEnv(k, u, w, s);
    UnaffectedSources(k, s, m);
    assert ChoiceSyms(c) + SiblingRefs(k, c) <= Sources(k, m);
    ChoiceFrame(k, FullEnv(k, u), FullEnv(k, w), id, Get(u.sel, id), Get(u.mode, id));
  }

  lemma ChoiceFrame(k: Config, e: Env, f: Env, id: nat, sel: Option<Sym>, mode: Option<Tri>)
    requires Acyclic(k) && id in k.choices
    requires EnvAgree(e, f, ChoiceSyms(k.choices[id]) + SiblingRefs(k, k.choices[id]))
    requires sel.Some? ==> Member(k, sel.value, id)
    ensures ChoiceVis(e, k.choices[id]) == ChoiceVis(f, k.choices[id])
    ensures Selection(k, e, k.choices[id], sel, mode) == Selection(k, f, k.choices[id], sel, mode)
  {
    assert ChoiceOk(k, id);
    forall t | Member(k, t, id)
      ensures t in k.choices[id].actual
    {
      assert SymbolOk(k, t);
    }
    SiblingsFrame(k, e, f, id);
    ModeFrame(e, f, k.choices[id], mode);
    SelectionFrame(k, e, f, id, sel, mode);
  }
}
