/** The levels of module Kconfig are harmless: they exist exactly for the configurations without
    circular references, and no value depends on which are chosen (docs/kconfiglib.py). */
module KconfLevels {
  import opened Basics
  import opened KconfExpr
  import opened Kconfig

  /** Two configurations that differ in their levels only. */
  ghost predicate SameButLevels(k: Config, j: Config) {
    && k.syms.Keys == j.syms.Keys && k.choices.Keys == j.choices.Keys && k.nums == j.nums
    && (forall s | s in k.syms :: j.syms[s] == k.syms[s].(level := j.syms[s].level))
    && (forall id | id in k.choices :: j.choices[id] == k.choices[id].(level := j.choices[id].level))
  }

  // ---- Values do not depend on levels ------------------------------------

  lemma VisSame(k: Config, j: Config, env: Env, s: Sym)
    requires SameButLevels(k, j) && s in k.syms
    ensures SymVis(k, env, k.syms[s]) == SymVis(j, env, j.syms[s])
  {
  }

  lemma {:induction false} FirstVisibleSame(k: Config, j: Config, env: Env, syms: seq<Sym>)
    requires SameButLevels(k, j)
    ensures FirstVisible(k, env, syms) == FirstVisible(j, env, syms)
    decreases |syms|
  {
    if syms != [] {
      if syms[0] in k.syms {
        VisSame(k, j, env, syms[0]);
      }
      FirstVisibleSame(k, j, env, syms[1..]);
    }
  }

  lemma SelectionSame(k: Config, j: Config, env: Env, id: nat, sel: Option<Sym>, mode: Option<Tri>)
    requires SameButLevels(k, j) && id in k.choices
    ensures Selection(k, env, k.choices[id], sel, mode) == Selection(j, env, j.choices[id], sel, mode)
  {
    var c := k.choices[id];
    forall s | s in k.syms ensures Visible(k, env, s) == Visible(j, env, s) {
      VisSame(k, j, env, s);
    }
    FirstVisibleSame(k, j, env, c.actual);
    assert DefaultSelection(k, env, c) == DefaultSelection(j, env, j.choices[id]);
    assert ModeOf(env, c, mode) == ModeOf(env, j.choices[id], mode);
  }

  lemma TriSame(k: Config, j: Config, u: User, env: Env, s: Sym)
    requires SameButLevels(k, j) && s in k.syms
    ensures TriOutcome(k, u, env, s, k.syms[s]) == TriOutcome(j, u, env, s, j.syms[s])
  {
    VisSame(k, j, env, s);
    var d := k.syms[s];
    var vis := SymVis(k, env, d);
    if d.choice.Some? && d.choice.value in k.choices {
      var id := d.choice.value;
      SelectionSame(k, j, env, id, Get(u.sel, id), Get(u.mode, id));
      assert ModeOf(env, k.choices[id], Get(u.mode, id)) == ModeOf(env, j.choices[id], Get(u.mode, id));
    } else {
      assert PlainTri(env, d, Get(u.vals, s), vis) == PlainTri(env, j.syms[s], Get(u.vals, s), vis);
    }
  }

  lemma {:induction false} RangeSame(k: Config, j: Config, env: Env, ranges: seq<Range>, base: nat)
    requires k.nums == j.nums
    ensures ActiveRange(k, env, ranges, base) == ActiveRange(j, env, ranges, base)
    decreases |ranges|
  {
    if ranges != [] {
      RangeSame(k, j, env, ranges[1..], base);
    }
  }

  lemma {:induction false} NumDefaultSame(k: Config, j: Config, env: Env, ds: seq<Default>,
                                          range: Option<(int, int)>, base: nat, v: string, write: bool)
    requires k.nums == j.nums
    ensures NumDefault(k, env, ds, range, base, v, write) == NumDefault(j, env, ds, range, base, v, write)
    decreases |ds|
  {
    if ds != [] {
      NumDefaultSame(k, j, env, ds[1..], range, base, ExprStr(env.view, ds[0].val), true);
      NumDefaultSame(k, j, env, ds[1..], range, base, v, write);
    }
  }

  lemma NumSame(k: Config, j: Config, u: User, env: Env, s: Sym)
    requires SameButLevels(k, j) && s in k.syms
    ensures NumOutcome(k, u, env, s, k.syms[s]) == NumOutcome(j, u, env, s, j.syms[s])
  {
    VisSame(k, j, env, s);
    var d := k.syms[s];
    var base := Base(d.typ);
    RangeSame(k, j, env, d.ranges, base);
    NumDefaultSame(k, j, env, d.defaults, ActiveRange(k, env, d.ranges, base), base, "", SymVis(k, env, d) != N);
  }

  lemma ValueSame(k: Config, j: Config, u: User, env: Env, s: Sym)
    requires SameButLevels(k, j) && s in k.syms
    ensures ValueIn(k, u, env, s, k.syms[s]) == ValueIn(j, u, env, s, j.syms[s])
  {
    VisSame(k, j, env, s);
    TriSame(k, j, u, env, s);
    NumSame(k, j, u, env, s);
    assert StrOutcome(k, u, env, s, k.syms[s]) == StrOutcome(j, u, env, s, j.syms[s]);
  }

  lemma SourcesSame(k: Config, j: Config, s: Sym)
    requires SameButLevels(k, j) && s in k.syms
    ensures Refs(k, k.syms[s]) == Refs(j, j.syms[s]) && Sources(k, s) == Sources(j, s)
  {
    var d := k.syms[s];
    if d.choice.Some? && d.choice.value in k.choices {
      var c, c1 := k.choices[d.choice.value], j.choices[d.choice.value];
      assert ChoiceSyms(c) == ChoiceSyms(c1);
      assert SiblingRefs(k, c) == SiblingRefs(j, c1);
    }
  }

  /** Recomputation gives the same value and write flag whichever levels are used. */
  lemma {:induction false} LevelsDoNotMatter(k: Config, j: Config, u: User, s: Sym)
    requires SameButLevels(k, j) && Acyclic(k) && Acyclic(j) && s in k.syms
    ensures Recompute(k, u, s) == Recompute(j, u, s)
    decreases k.syms[s].level
  {
    SourcesSame(k, j, s);
    SourcesAreLower(k, s);
    forall t | t in Sources(k, s)
      ensures Recompute(k, u, t) == Recompute(j, u, t)
    {
      LevelsDoNotMatter(k, j, u, t);
    }
    SourceValuesSame(k, j, u, s);
    FromSameSources(k, j, u, s);
  }

  lemma SourceValuesSame(k: Config, j: Config, u: User, s: Sym)
    requires Acyclic(k) && Acyclic(j) && s in k.syms && s in j.syms && Sources(k, s) == Sources(j, s)
    requires forall t <- Sources(k, s) :: t in k.syms && t in j.syms && Recompute(k, u, t) == Recompute(j, u, t)
    ensures SourceValues(k, u, s) == SourceValues(j, u, s)
  {
  }

  lemma FromSameSources(k: Config, j: Config, u: User, s: Sym)
    requires SameButLevels(k, j) && Acyclic(k) && Acyclic(j) && s in k.syms
    requires SourceValues(k, u, s) == SourceValues(j, u, s)
    ensures Recompute(k, u, s) == Recompute(j, u, s)
  {
    assert TriSyms(k) == TriSyms(j);
    ValueSame(k, j, u, EnvFor(k, SourceValues(k, u, s), s), s);
  }

  // ---- Circular references -----------------------------------------------

  /** The same symbol, or symbols of one choice. */
  predicate Together(k: Config, s: Sym, g: Sym)
    requires s in k.syms && g in k.syms
  {
    s == g || (k.syms[s].choice.Some? && k.syms[s].choice == k.syms[g].choice)
  }

  /** s, or a symbol of its choice, is evaluated from t: it mentions t, or t is MODULES. */
  ghost predicate Needs(k: Config, s: Sym, t: Sym) {
    && s in k.syms && t in k.syms
    && exists g :: g in k.syms && Together(k, s, g) && UsesDirectly(k, g, t)
  }

  predicate UsesDirectly(k: Config, g: Sym, t: Sym)
    requires g in k.syms
  {
    t in Refs(k, k.syms[g]) || (t == MODULES && g != MODULES)
  }

  ghost predicate Chain(k: Config, p: seq<Sym>) {
    |p| >= 2 && forall i | 0 <= i < |p| - 1 :: Needs(k, p[i], p[i + 1])
  }

  /** No symbol is evaluated, in any number of steps, from itself or a symbol of its choice. */
  ghost predicate NoCycle(k: Config) {
    forall p | Chain(k, p) :: p[0] in k.syms && p[|p| - 1] in k.syms && !Together(k, p[|p| - 1], p[0])
  }

  /** What the engine assumes of a configuration besides. */
  ghost predicate WellFormed(k: Config) {
    && (forall s | s in k.syms :: SymbolFormed(k, s))
    && (forall c {:trigger ChoiceOk(k, c)} | c in k.choices :: ChoiceOk(k, c))
    && ModulesOk(k)
  }

  ghost predicate SymbolFormed(k: Config, s: Sym)
    requires s in k.syms
  {
    var d := k.syms[s];
    && Refs(k, d) <= k.syms.Keys
    && (d.choice.Some? ==>
          d.special == None && d.choice.value in k.choices && s in k.choices[d.choice.value].actual)
    && (d.special.Some? ==> d.prompts == [])
  }

  // ---- Levels rule out cycles --------------------------------------------

  lemma NeedsIsLower(k: Config, s: Sym, t: Sym)
    requires Acyclic(k) && Needs(k, s, t)
    ensures k.syms[t].level < k.syms[s].level
  {
    var g :| g in k.syms && Together(k, s, g) && UsesDirectly(k, g, t);
    assert SymbolOk(k, s) && SymbolOk(k, g);
    assert t in Refs(k, k.syms[g]) ==> Lower(k, t, k.syms[g].level);
  }

  lemma {:induction false} ChainDescends(k: Config, p: seq<Sym>)
    requires Acyclic(k) && Chain(k, p)
    ensures p[0] in k.syms && p[|p| - 1] in k.syms && k.syms[p[|p| - 1]].level < k.syms[p[0]].level
    decreases |p|
  {
    assert Needs(k, p[0], p[1]);
    NeedsIsLower(k, p[0], p[1]);
    if |p| > 2 {
      ChainDescends(k, p[1..]);
    }
  }

  lemma AcyclicHasNoCycle(k: Config)
    requires Acyclic(k)
    ensures NoCycle(k)
  {
    forall p | Chain(k, p) ensures p[0] in k.syms && p[|p| - 1] in k.syms && !Together(k, p[|p| - 1], p[0]) {
      ChainDescends(k, p);
      assert SymbolOk(k, p[0]) && SymbolOk(k, p[|p| - 1]);
    }
  }

  lemma NoCycleSame(k: Config, j: Config)
    requires SameButLevels(k, j) && NoCycle(j)
    ensures NoCycle(k)
  {
    forall p | Chain(k, p) ensures p[0] in k.syms && p[|p| - 1] in k.syms && !Together(k, p[|p| - 1], p[0]) {
      forall i | 0 <= i < |p| - 1 ensures Needs(j, p[i], p[i + 1]) {
        assert Needs(k, p[i], p[i + 1]);
        NeedsSame(k, j, p[i], p[i + 1]);
      }
      assert Chain(j, p);
    }
  }

  lemma NeedsSame(k: Config, j: Config, s: Sym, t: Sym)
    requires SameButLevels(k, j) && Needs(k, s, t)
    ensures Needs(j, s, t)
  {
    var g :| g in k.syms && Together(k, s, g) && UsesDirectly(k, g, t);
    SourcesSame(k, j, g);
    assert Together(j, s, g) && UsesDirectly(j, g, t);
  }

  // ---- Without cycles there are levels -----------------------------------

  ghost predicate Below(k: Config, s: Sym, t: Sym) {
    exists p :: Chain(k, p) && p[0] == s && p[|p| - 1] == t
  }

  /** All that s is evaluated from, in any number of steps. */
  ghost function Needed(k: Config, s: Sym): set<Sym> {
    set t | t in k.syms && Below(k, s, t)
  }

  lemma NeedsTogether(k: Config, s: Sym, g: Sym, t: Sym)
    requires s in k.syms && g in k.syms && Together(k, s, g) && Needs(k, s, t)
    ensures Needs(k, g, t)
  {
    var h :| h in k.syms && Together(k, s, h) && UsesDirectly(k, h, t);
    assert Together(k, g, h);
  }

  lemma NeededTogether(k: Config, s: Sym, g: Sym)
    requires s in k.syms && g in k.syms && Together(k, s, g)
    ensures Needed(k, s) <= Needed(k, g)
  {
    forall t | t in Needed(k, s) ensures t in Needed(k, g) {
      var p :| Chain(k, p) && p[0] == s && p[|p| - 1] == t;
      var q := p[0 := g];
      NeedsTogether(k, s, g, p[1]);
      assert Chain(k, q) && q[0] == g && q[|q| - 1] == t;
    }
  }

  lemma NeededGrows(k: Config, s: Sym, t: Sym)
    requires Needs(k, s, t)
    ensures Needed(k, t) + {t} <= Needed(k, s)
  {
    var direct := [s, t];
    assert Chain(k, direct) && direct[0] == s && direct[|direct| - 1] == t;
    forall x | x in Needed(k, t) ensures x in Needed(k, s) {
      var p :| Chain(k, p) && p[0] == t && p[|p| - 1] == x;
      var q := [s] + p;
      forall i | 0 <= i < |q| - 1 ensures Needs(k, q[i], q[i + 1]) {
        assert i > 0 ==> q[i] == p[i - 1] && q[i + 1] == p[i];
      }
      assert Chain(k, q) && q[0] == s && q[|q| - 1] == x;
    }
  }

  lemma NotItsOwn(k: Config, t: Sym)
    requires NoCycle(k) && t in k.syms
    ensures t !in Needed(k, t)
  {
    forall p | Chain(k, p) ensures !(p[0] == t && p[|p| - 1] == t) {
    }
  }

  lemma FewerNeeded(k: Config, s: Sym, t: Sym)
    requires NoCycle(k) && Needs(k, s, t)
    ensures |Needed(k, t)| < |Needed(k, s)|
  {
    NeededGrows(k, s, t);
    NotItsOwn(k, t);
    SubsetSize(Needed(k, t) + {t}, Needed(k, s));
  }

  /** Each symbol's level is the number of symbols it is evaluated from. */
  ghost function Leveled(k: Config): Config
    requires WellFormed(k)
  {
    k.(syms := map s | s in k.syms :: k.syms[s].(level := |Needed(k, s)|),
       choices := map id | id in k.choices :: k.choices[id].(level := ChoiceLevel(k, id)))
  }

  ghost function ChoiceLevel(k: Config, id: nat): nat
    requires WellFormed(k) && id in k.choices
  {
    assert ChoiceOk(k, id);
    |Needed(k, k.choices[id].actual[0])|
  }

  lemma MemberLevel(k: Config, s: Sym, id: nat)
    requires WellFormed(k) && Member(k, s, id) && id in k.choices
    ensures |Needed(k, s)| == ChoiceLevel(k, id)
  {
    assert ChoiceOk(k, id) && Member(k, k.choices[id].actual[0], id);
    var first := k.choices[id].actual[0];
    NeededTogether(k, s, first);
    NeededTogether(k, first, s);
    assert Needed(k, s) == Needed(k, first);
  }

  /** j is k with these levels. */
  ghost predicate Counted(k: Config, j: Config)
    requires WellFormed(k)
  {
    && SameButLevels(k, j)
    && (forall s | s in k.syms :: j.syms[s].level == |Needed(k, s)|)
    && (forall id | id in k.choices :: j.choices[id].level == ChoiceLevel(k, id))
  }

  lemma CountedIsLower(k: Config, j: Config, s: Sym, t: Sym)
    requires WellFormed(k) && NoCycle(k) && Counted(k, j) && s in k.syms && t in k.syms && UsesDirectly(k, s, t)
    ensures Lower(j, t, j.syms[s].level)
  {
    assert Together(k, s, s);
    FewerNeeded(k, s, t);
  }

  lemma CountedSymbol(k: Config, j: Config, s: Sym)
    requires WellFormed(k) && NoCycle(k) && Counted(k, j) && s in k.syms
    ensures SymbolOk(j, s)
  {
    assert SymbolFormed(k, s);
    SourcesSame(k, j, s);
    forall t | t in Refs(j, j.syms[s]) ensures Lower(j, t, j.syms[s].level) {
      CountedIsLower(k, j, s, t);
    }
    if s != MODULES && MODULES in k.syms {
      CountedIsLower(k, j, s, MODULES);
    }
    if k.syms[s].choice.Some? {
      MemberLevel(k, s, k.syms[s].choice.value);
    }
  }

  lemma CountedChoice(k: Config, j: Config, c: nat)
    requires SameButLevels(k, j) && c in k.choices && ChoiceOk(k, c)
    ensures ChoiceOk(j, c)
  {
    forall s | Member(k, s, c) ensures Member(j, s, c) {
    }
  }

  lemma CountedModules(k: Config, j: Config)
    requires SameButLevels(k, j) && ModulesOk(k)
    ensures ModulesOk(j)
  {
    if MODULES in k.syms {
      SourcesSame(k, j, MODULES);
    }
  }

  lemma CountedIsAcyclic(k: Config, j: Config)
    requires WellFormed(k) && NoCycle(k) && Counted(k, j)
    ensures Acyclic(j)
  {
    forall s | s in j.syms ensures SymbolOk(j, s) {
      CountedSymbol(k, j, s);
    }
    forall c | c in j.choices ensures ChoiceOk(j, c) {
      CountedChoice(k, j, c);
    }
    CountedModules(k, j);
  }

  /** For every well-formed configuration: levels can be given to it if and only if no symbol is
      evaluated from itself or from a symbol of its own choice, in any number of steps. */
  lemma LevelsExistExactly(k: Config)
    requires WellFormed(k)
    ensures (exists j :: SameButLevels(k, j) && Acyclic(j)) <==> NoCycle(k)
  {
    if NoCycle(k) {
      assert Counted(k, Leveled(k));
      CountedIsAcyclic(k, Leveled(k));
    }
    forall j | SameButLevels(k, j) && Acyclic(j) ensures NoCycle(k) {
      AcyclicHasNoCycle(j);
      NoCycleSame(k, j);
    }
  }
}
