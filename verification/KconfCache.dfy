/** The caching engine of docs/kconfiglib.py: get_value, visibilities, choice selections and the
    dependency closure are memoised; assignments invalidate. Every method is proved against the
    cache-free recomputation of module Kconfig. */
module KconfCache {
  import opened Basics
  import opened KconfExpr
  import opened Kconfig
  import opened KconfFrame
  import opened KconfDeps

  /** The `cached_*` fields of all symbols and choices, and `write_to_conf`, which is computed
      together with the value. A cached selection of None is the source's NO_SELECTION. */
  datatype Cache = Cache(val: map<Sym, string>, write: set<Sym>, vis: map<Sym, Tri>,
                         choiceVis: map<nat, Tri>, sel: map<nat, Option<Sym>>)

  ghost function VisOf(k: Config, u: User, s: Sym): Tri
    requires Acyclic(k) && s in k.syms
  {
    SymVis(k, FullEnv(k, u), k.syms[s])
  }

  ghost function ChoiceVisOf(k: Config, u: User, id: nat): Tri
    requires Acyclic(k) && id in k.choices
  {
    ChoiceVis(FullEnv(k, u), k.choices[id])
  }

  ghost function SelectionOf(k: Config, u: User, id: nat): Option<Sym>
    requires Acyclic(k) && id in k.choices
  {
    Selection(k, FullEnv(k, u), k.choices[id], Get(u.sel, id), Get(u.mode, id))
  }

  ghost predicate ValuesCached(k: Config, u: User, val: map<Sym, string>, write: set<Sym>)
    requires Acyclic(k)
  {
    forall s | s in val :: s in k.syms && Recompute(k, u, s) == Outcome(val[s], s in write)
  }

  ghost predicate VisCached(k: Config, u: User, vis: map<Sym, Tri>)
    requires Acyclic(k)
  {
    forall s | s in vis :: s in k.syms && vis[s] == VisOf(k, u, s)
  }

  ghost predicate ChoiceVisCached(k: Config, u: User, vis: map<nat, Tri>)
    requires Acyclic(k)
  {
    forall id | id in vis :: id in k.choices && vis[id] == ChoiceVisOf(k, u, id)
  }

  ghost predicate SelCached(k: Config, u: User, sel: map<nat, Option<Sym>>)
    requires Acyclic(k)
  {
    forall id | id in sel :: id in k.choices && sel[id] == SelectionOf(k, u, id)
  }

  /** The value of a special symbol is set once and never invalidated. */
  ghost predicate SpecialsCached(k: Config, val: map<Sym, string>) {
    forall s | s in k.syms && k.syms[s].special.Some? :: s in val
  }

  /** Whatever is cached equals what a cache-free recomputation from the user's assignments gives. */
  ghost predicate Coherent(k: Config, u: User, c: Cache)
    requires Acyclic(k)
  {
    && ValuesCached(k, u, c.val, c.write)
    && VisCached(k, u, c.vis)
    && ChoiceVisCached(k, u, c.choiceVis)
    && SelCached(k, u, c.sel)
    && SpecialsCached(k, c.val)
  }

  /** The memo of `_get_dependent`. */
  ghost predicate DepsCached(k: Config, deps: map<Sym, set<Sym>>)
    requires Acyclic(k)
  {
    forall s | s in deps :: s in k.syms && deps[s] == Affected(k, s) - {s}
  }

  // ---- Where evaluation may look -----------------------------------------

  ghost predicate ModulesBelow(k: Config, level: nat) {
    MODULES in k.syms ==> k.syms[MODULES].level < level
  }

  /** Evaluating this condition cannot need MODULES. */
  predicate Quiet(c: Cond) {
    c.None? || (c.value.EStr? && c.value.str != "m")
  }

  /** A condition that may be evaluated below the given level. */
  ghost predicate Fits(k: Config, c: Cond, level: nat) {
    (forall t <- CondSyms(c) :: Lower(k, t, level)) && (ModulesBelow(k, level) || Quiet(c))
  }

  ghost predicate FitsAll(k: Config, cs: seq<Cond>, level: nat) {
    && (forall i | 0 <= i < |cs| :: Fits(k, cs[i], level))
    && (ModulesBelow(k, level) || forall i | 0 <= i < |cs| :: cs[i] == None)
  }

  lemma {:induction false} OneIsN(v: View, es: seq<Expr>, i: nat)
    requires i < |es| && EvalRec(v, es[i]) == N
    ensures EvalAll(v, es) == N
  {
    if i < |es| - 1 {
      OneIsN(v, es[..|es| - 1], i);
    }
  }

  lemma {:induction false} OneIsY(v: View, es: seq<Expr>, i: nat)
    requires i < |es| && EvalRec(v, es[i]) == Y
    ensures EvalAny(v, es) == Y
  {
    if i < |es| - 1 {
      OneIsY(v, es[..|es| - 1], i);
    }
  }

  /** The conditions of a symbol that get_value evaluates fit below its level. */
  lemma SymbolFits(k: Config, s: Sym)
    requires Acyclic(k) && s in k.syms
    ensures FitsAll(k, k.syms[s].prompts, k.syms[s].level)
    ensures k.syms[s].special == None && k.syms[s].typ != Unknown ==>
              && Fits(k, Some(k.syms[s].revDep), k.syms[s].level)
              && (forall i | 0 <= i < |k.syms[s].defaults| ::
                    Fits(k, Some(k.syms[s].defaults[i].val), k.syms[s].level) && Fits(k, k.syms[s].defaults[i].cond, k.syms[s].level))
  {
    var d := k.syms[s];
    assert SymbolOk(k, s);
    forall i | 0 <= i < |d.prompts|
      ensures CondSyms(d.prompts[i]) <= Refs(k, d)
    {
      assert CondSyms(d.prompts[i]) <= CondsSyms(d.prompts);
    }
    forall i | 0 <= i < |d.defaults|
      ensures Syms(d.defaults[i].val) + CondSyms(d.defaults[i].cond) <= Refs(k, d)
    {
      assert Syms(d.defaults[i].val) + CondSyms(d.defaults[i].cond) <= DefaultsSyms(d.defaults);
    }
  }

  lemma RangesFit(k: Config, s: Sym)
    requires Acyclic(k) && s in k.syms && s != MODULES
    ensures forall i | 0 <= i < |k.syms[s].ranges| ::
              && Fits(k, k.syms[s].ranges[i].cond, k.syms[s].level)
              && forall t <- OperandSyms(k.syms[s].ranges[i].low) + OperandSyms(k.syms[s].ranges[i].high) :: Lower(k, t, k.syms[s].level)
  {
    var d := k.syms[s];
    assert SymbolOk(k, s);
    forall i | 0 <= i < |d.ranges|
      ensures OperandSyms(d.ranges[i].low) + OperandSyms(d.ranges[i].high) + CondSyms(d.ranges[i].cond) <= Refs(k, d)
    {
      assert OperandSyms(d.ranges[i].low) + OperandSyms(d.ranges[i].high) + CondSyms(d.ranges[i].cond) <= RangesSyms(d.ranges);
    }
  }

  lemma ChoiceFits(k: Config, id: nat)
    requires Acyclic(k) && id in k.choices
    ensures FitsAll(k, k.choices[id].prompts, k.choices[id].level) && ModulesBelow(k, k.choices[id].level)
    ensures forall i | 0 <= i < |k.choices[id].defaults| :: Fits(k, k.choices[id].defaults[i].cond, k.choices[id].level)
  {
    var c := k.choices[id];
    assert ChoiceOk(k, id) && Member(k, c.actual[0], id);
    var d := k.syms[c.actual[0]];
    assert SymbolOk(k, c.actual[0]);
    assert ChoiceSyms(c) <= Refs(k, d);
    forall i | 0 <= i < |c.prompts|
      ensures CondSyms(c.prompts[i]) <= ChoiceSyms(c)
    {
      assert CondSyms(c.prompts[i]) <= CondsSyms(c.prompts);
    }
    forall i | 0 <= i < |c.defaults|
      ensures CondSyms(c.defaults[i].cond) <= ChoiceSyms(c)
    {
    }
  }

  // ---- Invalidation ------------------------------------------------------

  /** A symbol of S that can be invalidated belongs to this choice. */
  ghost predicate Hit(k: Config, S: set<Sym>, id: nat) {
    exists t :: t in S && Member(k, t, id) && k.syms[t].special == None
  }

  predicate Keeps(k: Config, S: set<Sym>, t: Sym) {
    t !in S || (t in k.syms && k.syms[t].special.Some?)
  }

  /** The cache after `_invalidate` on every symbol of S. */
  ghost function Drop(k: Config, c: Cache, S: set<Sym>): Cache {
    Cache(map t | t in c.val && Keeps(k, S, t) :: c.val[t],
          c.write,
          map t | t in c.vis && Keeps(k, S, t) :: c.vis[t],
          map id | id in c.choiceVis && !Hit(k, S, id) :: c.choiceVis[id],
          map id | id in c.sel && !Hit(k, S, id) :: c.sel[id])
  }

  lemma DropNone(k: Config, c: Cache)
    ensures Drop(k, c, {}) == c
  {
    assert Drop(k, c, {}).val == c.val && Drop(k, c, {}).vis == c.vis;
    assert Drop(k, c, {}).choiceVis == c.choiceVis && Drop(k, c, {}).sel == c.sel;
  }

  lemma DropOneMore(k: Config, c: Cache, S: set<Sym>, s: Sym)
    requires s in k.syms
    ensures Drop(k, Drop(k, c, S), {s}) == Drop(k, c, S + {s})
  {
    var a, b := Drop(k, Drop(k, c, S), {s}), Drop(k, c, S + {s});
    HitOneMore(k, S, s);
    HitOne(k, s);
    assert a.val == b.val;
    assert a.vis == b.vis;
    assert a.choiceVis == b.choiceVis;
    assert a.sel == b.sel;
  }

  lemma HitOne(k: Config, s: Sym)
    requires s in k.syms
    ensures forall id: nat :: Hit(k, {s}, id) <==> k.syms[s].special == None && k.syms[s].choice == Some(id)
  {
    forall id: nat
      ensures Hit(k, {s}, id) <==> k.syms[s].special == None && k.syms[s].choice == Some(id)
    {
      if k.syms[s].special == None && k.syms[s].choice == Some(id) {
        assert s in {s} && Member(k, s, id);
      }
    }
  }

  lemma HitOneMore(k: Config, S: set<Sym>, s: Sym)
    requires s in k.syms
    ensures forall id: nat :: Hit(k, S + {s}, id) <==> Hit(k, S, id) || (k.syms[s].special == None && k.syms[s].choice == Some(id))
  {
    forall id: nat
      ensures Hit(k, S + {s}, id) <==> Hit(k, S, id) || (k.syms[s].special == None && k.syms[s].choice == Some(id))
    {
      if Hit(k, S, id) {
        var t :| t in S && Member(k, t, id) && k.syms[t].special == None;
        assert t in S + {s};
      }
      if k.syms[s].special == None && k.syms[s].choice == Some(id) {
        assert s in S + {s} && Member(k, s, id);
      }
    }
  }

  /** Whatever the users did to s, dropping what s affects leaves only correct entries. */
  lemma DropAffectedIsCoherent(k: Config, u: User, w: User, s: Sym, c: Cache)
    requires Assigned(k, u, w, s) && Coherent(k, u, c)
    ensures Coherent(k, w, Drop(k, c, Affected(k, s)))
  {
    var A := Affected(k, s);
    var d := Drop(k, c, A);
    forall t | t in d.val
      ensures t in k.syms && Recompute(k, w, t) == Outcome(d.val[t], t in d.write)
    {
      if t !in A {
        UnaffectedValue(k, u, w, s, t);
      } else {
        SpecialIsFixed(k, u, w, t);
      }
    }
    forall t | t in d.vis
      ensures t in k.syms && d.vis[t] == VisOf(k, w, t)
    {
      if t !in A {
        UnaffectedVisibility(k, u, w, s, t);
      } else {
        SpecialIsFixed(k, u, w, t);
      }
    }
    forall id | id in k.choices && !Hit(k, A, id)
      ensures ChoiceVisOf(k, u, id) == ChoiceVisOf(k, w, id) && SelectionOf(k, u, id) == SelectionOf(k, w, id)
    {
      UnhitChoice(k, u, w, s, id);
    }
  }

  lemma UnhitChoice(k: Config, u: User, w: User, s: Sym, id: nat)
    requires Assigned(k, u, w, s) && id in k.choices && !Hit(k, Affected(k, s), id)
    ensures ChoiceVisOf(k, u, id) == ChoiceVisOf(k, w, id) && SelectionOf(k, u, id) == SelectionOf(k, w, id)
  {
    forall t | Member(k, t, id)
      ensures t !in Affected(k, s)
    {
      assert SymbolOk(k, t);
    }
    UnaffectedChoice(k, u, w, s, id);
  }

  lemma SpecialIsFixed(k: Config, u: User, w: User, t: Sym)
    requires Acyclic(k) && t in k.syms && k.syms[t].special.Some?
    ensures Recompute(k, u, t) == Recompute(k, w, t) && VisOf(k, u, t) == VisOf(k, w, t)
  {
    assert SymbolOk(k, t);
  }

  /** Dropping everything is safe for any assignments. */
  lemma DropAllIsCoherent(k: Config, u: User, w: User, c: Cache)
    requires Acyclic(k) && Coherent(k, u, c)
    ensures Coherent(k, w, Drop(k, c, k.syms.Keys))
  {
    var d := Drop(k, c, k.syms.Keys);
    forall t | t in d.val || t in d.vis
      ensures Recompute(k, u, t) == Recompute(k, w, t) && VisOf(k, u, t) == VisOf(k, w, t)
    {
      SpecialIsFixed(k, u, w, t);
    }
    forall id | id in k.choices
      ensures Hit(k, k.syms.Keys, id)
    {
      assert ChoiceOk(k, id) && Member(k, k.choices[id].actual[0], id);
      assert SymbolOk(k, k.choices[id].actual[0]);
    }
  }

  // ---- When dropping is enough -------------------------------------------

  /** Everything is cached. */
  ghost function FullCache(k: Config, u: User): Cache
    requires Acyclic(k)
  {
    Cache(map s | s in k.syms :: Recompute(k, u, s).val,
          set s | s in k.syms && Recompute(k, u, s).write,
          map s | s in k.syms :: VisOf(k, u, s),
          map id | id in k.choices :: ChoiceVisOf(k, u, id),
          map id | id in k.choices :: SelectionOf(k, u, id))
  }

  lemma FullIsCoherent(k: Config, u: User)
    requires Acyclic(k)
    ensures Coherent(k, u, FullCache(k, u))
  {
    var c := FullCache(k, u);
    forall s | s in c.val ensures Recompute(k, u, s) == Outcome(c.val[s], s in c.write) {
    }
  }

  /** The value or the visibility of a symbol is another one for the new assignments. */
  ghost predicate SymMoves(k: Config, u: User, w: User, t: Sym)
    requires Acyclic(k) && t in k.syms
  {
    Recompute(k, u, t) != Recompute(k, w, t) || VisOf(k, u, t) != VisOf(k, w, t)
  }

  ghost predicate ChoiceMoves(k: Config, u: User, w: User, id: nat)
    requires Acyclic(k) && id in k.choices
  {
    ChoiceVisOf(k, u, id) != ChoiceVisOf(k, w, id) || SelectionOf(k, u, id) != SelectionOf(k, w, id)
  }

  /** Whatever moves loses its entries when S is dropped. */
  ghost predicate DropsAllThatMoves(k: Config, u: User, w: User, S: set<Sym>)
    requires Acyclic(k)
  {
    && (forall t {:trigger SymMoves(k, u, w, t)} | t in k.syms && SymMoves(k, u, w, t) :: !Keeps(k, S, t))
    && (forall id {:trigger ChoiceMoves(k, u, w, id)} | id in k.choices && ChoiceMoves(k, u, w, id) :: Hit(k, S, id))
  }

  lemma DropStaysCoherent(k: Config, u: User, w: User, S: set<Sym>, c: Cache)
    requires Acyclic(k) && Coherent(k, u, c) && DropsAllThatMoves(k, u, w, S)
    ensures Coherent(k, w, Drop(k, c, S))
  {
    var d := Drop(k, c, S);
    forall t | t in d.val ensures t in k.syms && Recompute(k, w, t) == Outcome(d.val[t], t in d.write) {
      assert !SymMoves(k, u, w, t);
    }
    forall t | t in d.vis ensures t in k.syms && d.vis[t] == VisOf(k, w, t) {
      assert !SymMoves(k, u, w, t);
    }
    forall id | id in d.choiceVis || id in d.sel ensures id in k.choices && !ChoiceMoves(k, u, w, id) {
    }
  }

  /** Dropping S is right for every coherent cache, whatever the assignments were and become, if
      and only if it reaches everything that moves; what it does not reach is stale. With what
      MODULES affects for S, these are the symbols that unsetting MODULES leaves stale. */
  lemma DropIsRightExactly(k: Config, u: User, w: User, S: set<Sym>)
    requires Acyclic(k)
    ensures (forall c | Coherent(k, u, c) :: Coherent(k, w, Drop(k, c, S))) <==> DropsAllThatMoves(k, u, w, S)
  {
    if DropsAllThatMoves(k, u, w, S) {
      forall c | Coherent(k, u, c) ensures Coherent(k, w, Drop(k, c, S)) {
        DropStaysCoherent(k, u, w, S, c);
      }
    }
    FullIsCoherent(k, u);
    var full := FullCache(k, u);
    if Coherent(k, w, Drop(k, full, S)) {
      KeptDoNotMove(k, u, w, S);
    }
  }

  lemma KeptDoNotMove(k: Config, u: User, w: User, S: set<Sym>)
    requires Acyclic(k) && Coherent(k, w, Drop(k, FullCache(k, u), S))
    ensures DropsAllThatMoves(k, u, w, S)
  {
    var full := FullCache(k, u);
    var d := Drop(k, full, S);
    forall t | t in k.syms && Keeps(k, S, t) ensures !SymMoves(k, u, w, t) {
      assert t in d.val && t in d.vis;
      assert Recompute(k, w, t) == Outcome(d.val[t], t in d.write);
    }
    forall id | id in k.choices && !Hit(k, S, id) ensures !ChoiceMoves(k, u, w, id) {
      assert id in d.choiceVis && id in d.sel;
    }
  }

  // ---- Assignments -------------------------------------------------------

  /** `_set_user_value_no_invalidate`: special, undefined and ill-typed assignments are ignored;
      a "y" or "m" for a choice symbol also sets the selection and mode of its choice. */
  function SetUser(k: Config, u: User, s: Sym, v: string): User
    requires s in k.syms
  {
    var d := k.syms[s];
    if d.special.Some? || !ValidValue(k, d.typ, v) then u
    else
      var w := u.(vals := u.vals[s := v]);
      if d.choice.Some? && IsTri(d.typ) then
        var id := d.choice.value;
        if v == "y" then w.(sel := w.sel[id := s], mode := w.mode[id := Y])
        else if v == "m" then w.(sel := w.sel - {id}, mode := w.mode[id := M])
        else w
      else w
  }

  /** The user value of s, and of its choice, is forgotten. */
  function UnsetUser(k: Config, u: User, s: Sym): User
    requires s in k.syms
  {
    var ids := if k.syms[s].choice.Some? then {k.syms[s].choice.value} else {};
    User(u.vals - {s}, u.sel - ids, u.mode - ids)
  }

  lemma SetUserDiffers(k: Config, u: User, s: Sym, v: string)
    requires s in k.syms && UserValid(k, u)
    ensures DifferAt(k, u, SetUser(k, u, s, v), s) && UserValid(k, SetUser(k, u, s, v))
  {
  }

  lemma UnsetUserDiffers(k: Config, u: User, s: Sym)
    requires s in k.syms && UserValid(k, u)
    ensures DifferAt(k, u, UnsetUser(k, u, s), s) && UserValid(k, UnsetUser(k, u, s))
  {
  }

  class Engine {
    const k: Config
    var user: User
    var cache: Cache
    var deps: map<Sym, set<Sym>>

    ghost predicate Valid()
      reads this
    {
      Acyclic(k) && UserValid(k, user) && Coherent(k, user, cache) && DepsCached(k, deps)
    }

    ghost function E(): Env
      requires Acyclic(k)
      reads this
    {
      FullEnv(k, user)
    }

    /** A freshly parsed configuration: no user values, only special values cached. */
    constructor (k: Config)
      requires Acyclic(k)
      ensures Valid() && this.k == k && user == User(map[], map[], map[])
    {
      this.k := k;
      user := User(map[], map[], map[]);
      cache := Cache(map s | s in k.syms && k.syms[s].special.Some? :: k.syms[s].special.value, {}, map[], map[], map[]);
      deps := map[];
    }

    method EvalRecM(e: Expr, ghost level: nat) returns (t: Tri)
      requires Valid() && forall s <- Syms(e) :: Lower(k, s, level)
      modifies this`cache
      ensures Valid() && t == EvalRec(E().view, e)
      decreases level, 1, e
    {
      match e
      case ESym(s) =>
        assert Lower(k, s, level);
        if IsTri(k.syms[s].typ) {
          var v := GetValue(s);
          t := ToTri(v);
        } else {
          t := N;
        }
      case EStr(v) => t := ToTri(v);
      case And(es) => t := EvalAllM(es, level);
      case Or(es) => t := EvalAnyM(es, level);
      case Not(e1) =>
        t := EvalRecM(e1, level);
        t := Negate(t);
      case Equal(l, r) =>
        var a := StrValM(l, level);
        var b := StrValM(r, level);
        t := if a == b then Y else N;
      case Unequal(l, r) =>
        var a := StrValM(l, level);
        var b := StrValM(r, level);
        t := if a != b then Y else N;
    }

    /** The AND loop: it stops at the first "n". */
    method EvalAllM(es: seq<Expr>, ghost level: nat) returns (t: Tri)
      requires Valid() && forall i, s | 0 <= i < |es| && s in Syms(es[i]) :: Lower(k, s, level)
      modifies this`cache
      ensures Valid() && t == EvalAll(E().view, es)
      decreases level, 1, es, 1
    {
      t := Y;
      for i := 0 to |es|
        invariant Valid() && t == EvalAll(E().view, es[..i]) && t != N
      {
        var ev := EvalRecM(es[i], level);
        if ev == N {
          OneIsN(E().view, es, i);
          return N;
        }
        assert es[..i + 1][..i] == es[..i];
        if ev == M {
          t := M;
        }
      }
      assert es[..|es|] == es;
    }

    /** The OR loop: it stops at the first "y". */
    method EvalAnyM(es: seq<Expr>, ghost level: nat) returns (t: Tri)
      requires Valid() && forall i, s | 0 <= i < |es| && s in Syms(es[i]) :: Lower(k, s, level)
      modifies this`cache
      ensures Valid() && t == EvalAny(E().view, es)
      decreases level, 1, es, 1
    {
      t := N;
      for i := 0 to |es|
        invariant Valid() && t == EvalAny(E().view, es[..i]) && t != Y
      {
        var ev := EvalRecM(es[i], level);
        if ev == Y {
          OneIsY(E().view, es, i);
          return Y;
        }
        assert es[..i + 1][..i] == es[..i];
        if ev == M {
          t := M;
        }
      }
      assert es[..|es|] == es;
    }

    method StrValM(o: Operand, ghost level: nat) returns (v: string)
      requires Valid() && forall s <- OperandSyms(o) :: Lower(k, s, level)
      modifies this`cache
      ensures Valid() && v == StrVal(E().view, o)
      decreases level, 0
    {
      match o
      case OSym(s) =>
        assert Lower(k, s, level);
        v := GetValue(s);
      case OStr(t) => v := t;
    }

    /** `_eval_expr`: it asks for MODULES only when an "m" came out. */
    method EvalM(c: Cond, ghost level: nat) returns (t: Tri)
      requires Valid() && Fits(k, c, level)
      modifies this`cache
      ensures Valid() && t == E().Cond(c)
      decreases level, 2
    {
      if c.None? {
        return Y;
      }
      t := EvalRecM(c.value, level);
      if t == M {
        var on := false;
        if MODULES in k.syms {
          var v := GetValue(MODULES);
          on := v == "y";
        }
        if !on {
          t := Y;
        }
      }
    }

    /** A tristate already computed is evaluated once more, as a constant. */
    method AgainM(a: Tri, ghost level: nat) returns (t: Tri)
      requires Valid() && (ModulesBelow(k, level) || a != M)
      modifies this`cache
      ensures Valid() && t == E().Again(a)
      decreases level, 3
    {
      t := EvalM(Some(EStr(a.Text())), level);
    }

    /** `_eval_max` of two tristates. */
    method MaxM(a: Tri, b: Tri, ghost level: nat) returns (t: Tri)
      requires Valid() && (ModulesBelow(k, level) || (a != M && b != M))
      modifies this`cache
      ensures Valid() && t == Max(E().Again(a), E().Again(b))
      decreases level, 4
    {
      var x := AgainM(a, level);
      var y := AgainM(b, level);
      t := Max(x, y);
    }

    /** `_eval_min` of two such tristates. */
    method MinM(a: Tri, b: Tri, ghost level: nat) returns (t: Tri)
      requires Valid() && (ModulesBelow(k, level) || (a != M && b != M))
      modifies this`cache
      ensures Valid() && t == E().MinOf(a, b)
      decreases level, 4
    {
      var x := AgainM(a, level);
      var y := AgainM(b, level);
      t := Min(x, y);
    }

    // ---- Visibility ----

    method PromptVisM(prompts: seq<Cond>, ghost level: nat) returns (vis: Tri)
      requires Valid() && FitsAll(k, prompts, level)
      modifies this`cache
      ensures Valid() && vis == PromptVis(E(), prompts)
      decreases level, 4
    {
      vis := N;
      for i := 0 to |prompts|
        invariant Valid() && vis == PromptVis(E(), prompts[..i])
        invariant ModulesBelow(k, level) || vis != M
      {
        var x := AgainM(vis, level);
        var y := EvalM(prompts[i], level);
        assert prompts[..i + 1][..i] == prompts[..i];
        vis := Max(x, y);
      }
      assert prompts[..|prompts|] == prompts;
    }

    method ChoiceVisM(id: nat) returns (vis: Tri)
      requires Valid() && id in k.choices
      modifies this`cache
      ensures Valid() && vis == ChoiceVisOf(k, user, id)
      decreases k.choices[id].level, 5
    {
      if id in cache.choiceVis {
        return cache.choiceVis[id];
      }
      ChoiceFits(k, id);
      vis := PromptVisM(k.choices[id].prompts, k.choices[id].level);
      vis := NonTristate(vis, k.choices[id].typ);
      cache := cache.(choiceVis := cache.choiceVis[id := vis]);
    }

    /** `_get_visibility` of a symbol. */
    method GetVisibility(s: Sym) returns (vis: Tri)
      requires Valid() && s in k.syms
      modifies this`cache
      ensures Valid() && vis == VisOf(k, user, s)
      decreases k.syms[s].level, 6
    {
      if s in cache.vis {
        return cache.vis[s];
      }
      var d := k.syms[s];
      SymbolFits(k, s);
      assert SymbolOk(k, s);
      vis := PromptVisM(d.prompts, d.level);
      if d.choice.Some? {
        ChoiceFits(k, d.choice.value);
        var cv := ChoiceVisM(d.choice.value);
        vis := MinM(vis, cv, d.level);
      }
      vis := NonTristate(vis, d.typ);
      cache := cache.(vis := cache.vis[s := vis]);
    }

    // ---- Choices ----

    method GetMode(id: nat) returns (mode: Tri)
      requires Valid() && id in k.choices
      modifies this`cache
      ensures Valid() && mode == ModeOf(E(), k.choices[id], Get(user.mode, id))
      decreases k.choices[id].level, 6
    {
      var c := k.choices[id];
      ChoiceFits(k, id);
      var cv := ChoiceVisM(id);
      mode := if id in user.mode then user.mode[id] else if c.optional then N else M;
      mode := MinM(mode, cv, c.level);
      if mode == M && c.typ == Bool {
        mode := Y;
      }
    }

    method DefaultSymbolM(id: nat) returns (s: Sym)
      requires Valid() && id in k.choices && k.choices[id].actual != []
      modifies this`cache
      ensures Valid() && s == DefaultSymbol(E(), k.choices[id].defaults, k.choices[id].actual[0]) && Member(k, s, id)
      decreases k.choices[id].level, 6
    {
      ChoiceFits(k, id);
      assert ChoiceOk(k, id);
      var ds, first := k.choices[id].defaults, k.choices[id].actual[0];
      assert Member(k, first, id);
      assert ds[0..] == ds;
      for i := 0 to |ds|
        invariant Valid() && DefaultSymbol(E(), ds, first) == DefaultSymbol(E(), ds[i..], first)
      {
        assert ds[i..][1..] == ds[i + 1..];
        var t := EvalM(ds[i].cond, k.choices[id].level);
        if t != N {
          assert Member(k, ds[i].sym, id);
          return ds[i].sym;
        }
      }
      s := first;
    }

    method FirstVisibleM(id: nat) returns (r: Option<Sym>)
      requires Valid() && id in k.choices
      modifies this`cache
      ensures Valid() && r == FirstVisible(k, E(), k.choices[id].actual)
      decreases k.choices[id].level, 7
    {
      assert ChoiceOk(k, id);
      var ss := k.choices[id].actual;
      assert ss[0..] == ss;
      for i := 0 to |ss|
        invariant Valid() && FirstVisible(k, E(), ss) == FirstVisible(k, E(), ss[i..])
      {
        assert ss[i..][1..] == ss[i + 1..];
        assert Member(k, ss[i], id) && SymbolOk(k, ss[i]);
        var vis := GetVisibility(ss[i]);
        if vis != N {
          return Some(ss[i]);
        }
      }
      r := None;
    }

    method SelectionFromDefaults(id: nat) returns (r: Option<Sym>)
      requires Valid() && id in k.choices
      modifies this`cache
      ensures Valid() && r == DefaultSelection(k, E(), k.choices[id])
      decreases k.choices[id].level, 8
    {
      assert ChoiceOk(k, id);
      var s := DefaultSymbolM(id);
      assert SymbolOk(k, s);
      var vis := GetVisibility(s);
      if vis != N {
        r := Some(s);
      } else {
        r := FirstVisibleM(id);
      }
    }

    method CacheSelection(id: nat, r: Option<Sym>)
      requires Valid() && id in k.choices && r == SelectionOf(k, user, id)
      modifies this`cache
      ensures Valid()
    {
      cache := cache.(sel := cache.sel[id := r]);
    }

    method GetSelection(id: nat) returns (r: Option<Sym>)
      requires Valid() && id in k.choices
      modifies this`cache
      ensures Valid() && r == SelectionOf(k, user, id)
      decreases k.choices[id].level, 9
    {
      if id in cache.sel {
        return cache.sel[id];
      }
      var mode := GetMode(id);
      if mode != Y {
        r := None;
      } else {
        var vis := N;
        if id in user.sel {
          assert Member(k, user.sel[id], id) && SymbolOk(k, user.sel[id]);
          vis := GetVisibility(user.sel[id]);
        }
        if vis == Y {
          r := Some(user.sel[id]);
        } else if k.choices[id].optional {
          r := None;
        } else {
          r := SelectionFromDefaults(id);
        }
      }
      CacheSelection(id, r);
    }

    // ---- Values ----

    lemma TriDefaultStep(env: Env, ds: seq<Default>, i: nat)
      requires i < |ds|
      ensures TriDefault(env, ds[i..]) ==
        if OneDefault(env, ds[i]).Some? then OneDefault(env, ds[i]) else TriDefault(env, ds[i + 1..])
    {
      assert ds[i..][1..] == ds[i + 1..];
    }

    /** A default that applies, bounded by its condition. */
    static function OneDefault(env: Env, d: Default): Option<Tri> {
      if env.Cond(d.cond) != N then Some(Min(env.Cond(Some(d.val)), env.Again(env.Cond(d.cond)))) else None
    }

    method OneDefaultM(s: Sym, i: nat) returns (r: Option<Tri>)
      requires Valid() && s in k.syms && k.syms[s].special == None && k.syms[s].typ != Unknown
      requires i < |k.syms[s].defaults|
      modifies this`cache
      ensures Valid() && r == OneDefault(E(), k.syms[s].defaults[i])
      decreases k.syms[s].level, 5
    {
      SymbolFits(k, s);
      var d := k.syms[s].defaults[i];
      var cond := EvalM(d.cond, k.syms[s].level);
      if cond != N {
        var x := EvalM(Some(d.val), k.syms[s].level);
        var y := AgainM(cond, k.syms[s].level);
        return Some(Min(x, y));
      }
      r := None;
    }

    method TriDefaultM(s: Sym) returns (r: Option<Tri>)
      requires Valid() && s in k.syms && k.syms[s].special == None && k.syms[s].typ != Unknown
      modifies this`cache
      ensures Valid() && r == TriDefault(E(), k.syms[s].defaults)
      decreases k.syms[s].level, 6
    {
      var ds := k.syms[s].defaults;
      assert ds[0..] == ds;
      for i := 0 to |ds|
        invariant Valid() && TriDefault(E(), ds) == TriDefault(E(), ds[i..])
      {
        TriDefaultStep(E(), ds, i);
        r := OneDefaultM(s, i);
        if r.Some? {
          return;
        }
      }
      r := None;
    }

    method ChoiceTriM(s: Sym, id: nat, vis: Tri) returns (t: Tri, write: bool)
      requires Valid() && Member(k, s, id) && id in k.choices
      modifies this`cache
      ensures Valid() && (t, write) == ChoiceTri(k, user, E(), s, id, k.choices[id], vis)
      decreases k.choices[id].level, 10
    {
      t, write := N, false;
      if vis != N {
        var mode := GetMode(id);
        write := mode != N;
        if mode == Y {
          var sel := GetSelection(id);
          t := if sel == Some(s) then Y else N;
        } else if mode == M {
          if s in user.vals && (user.vals[s] == "m" || user.vals[s] == "y") {
            t := M;
          }
        }
      }
    }

    /** User value if visible, else default. */
    method OwnTriM(s: Sym, vis: Tri) returns (t: Tri, write: bool)
      requires Valid() && s in k.syms && k.syms[s].special == None && IsTri(k.syms[s].typ)
      requires vis == VisOf(k, user, s)
      modifies this`cache
      ensures Valid()
      ensures (t, write) == OwnTri(E(), k.syms[s], Get(user.vals, s), vis)
      decreases k.syms[s].level, 7
    {
      ModulesHasNoM(s);
      if vis != N && s in user.vals {
        t := MinM(ToTri(user.vals[s]), vis, k.syms[s].level);
        write := true;
      } else {
        var dflt := TriDefaultM(s);
        t := if dflt.Some? then dflt.value else N;
        write := vis != N || dflt.Some?;
      }
    }

    method PlainTriM(s: Sym, vis: Tri) returns (t: Tri, write: bool)
      requires Valid() && s in k.syms && k.syms[s].special == None && IsTri(k.syms[s].typ)
      requires vis == VisOf(k, user, s)
      modifies this`cache
      ensures Valid() && (t, write) == PlainTri(E(), k.syms[s], Get(user.vals, s), vis)
      decreases k.syms[s].level, 8
    {
      ModulesHasNoM(s);
      t, write := OwnTriM(s, vis);
      t, write := RaisedM(s, t, write);
    }

    /** What selects make of a value. */
    method RaisedM(s: Sym, own: Tri, flag: bool) returns (t: Tri, write: bool)
      requires Valid() && s in k.syms && k.syms[s].special == None && k.syms[s].typ != Unknown
      requires ModulesBelow(k, k.syms[s].level) || (own != M && k.syms[s].revDep == EStr("n"))
      modifies this`cache
      ensures Valid()
      ensures var rev := E().Cond(Some(k.syms[s].revDep));
              (t, write) == if rev != N then (Max(E().Again(own), E().Again(rev)), true) else (own, flag)
      decreases k.syms[s].level, 7
    {
      SymbolFits(k, s);
      t, write := own, flag;
      var rev := EvalM(Some(k.syms[s].revDep), k.syms[s].level);
      if rev != N {
        t := MaxM(own, rev, k.syms[s].level);
        write := true;
      }
    }

    /** MODULES is evaluated without ever meeting an "m". */
    lemma ModulesHasNoM(s: Sym)
      requires Valid() && s in k.syms && k.syms[s].special == None && IsTri(k.syms[s].typ)
      ensures ModulesBelow(k, k.syms[s].level) ||
              (&& VisOf(k, user, s) != M && (s in user.vals ==> ToTri(user.vals[s]) != M)
               && k.syms[s].revDep == EStr("n")
               && (TriDefault(E(), k.syms[s].defaults).Some? ==> TriDefault(E(), k.syms[s].defaults).value != M))
    {
      assert SymbolOk(k, s);
      if !ModulesBelow(k, k.syms[s].level) {
        ModulesIgnoresModules(k, user, E().view, E().mods, E().mods);
        PlainDefaults(E().view, E().mods, E().mods, k.syms[s].defaults);
      }
    }

    method TriOutcomeM(s: Sym) returns (r: Outcome)
      requires Valid() && s in k.syms && k.syms[s].special == None && IsTri(k.syms[s].typ)
      modifies this`cache
      ensures Valid() && r == TriOutcome(k, user, E(), s, k.syms[s])
      decreases k.syms[s].level, 11
    {
      var d := k.syms[s];
      assert SymbolOk(k, s);
      var vis := GetVisibility(s);
      var t, write;
      if d.choice.Some? {
        t, write := ChoiceTriM(s, d.choice.value, vis);
      } else {
        t, write := PlainTriM(s, vis);
      }
      if t == M && d.typ == Bool {
        t := Y;
      }
      r := Outcome(t.Text(), write);
    }

    /** `_str_val` of a default's value. */
    method ExprStrM(e: Expr, ghost level: nat) returns (v: string)
      requires Valid() && forall s <- Syms(e) :: Lower(k, s, level)
      modifies this`cache
      ensures Valid() && v == ExprStr(E().view, e)
      decreases level, 0
    {
      match e
      case ESym(s) =>
        assert Lower(k, s, level);
        v := GetValue(s);
      case EStr(t) => v := t;
      case _ => v := "";
    }

    method StrOutcomeM(s: Sym) returns (r: Outcome)
      requires Valid() && s in k.syms && k.syms[s].special == None && k.syms[s].typ != Unknown
      modifies this`cache
      ensures Valid() && r == StrOutcome(k, user, E(), s, k.syms[s])
      decreases k.syms[s].level, 7
    {
      SymbolFits(k, s);
      var vis := GetVisibility(s);
      if vis != N && s in user.vals {
        return Outcome(user.vals[s], true);
      }
      var ds := k.syms[s].defaults;
      assert ds[0..] == ds;
      for i := 0 to |ds|
        invariant Valid() && StrDefault(E(), ds) == StrDefault(E(), ds[i..])
      {
        assert ds[i..][1..] == ds[i + 1..];
        var cond := EvalM(ds[i].cond, k.syms[s].level);
        if cond != N {
          assert forall t <- Syms(ds[i].val) :: t in CondSyms(Some(ds[i].val));
          var v := ExprStrM(ds[i].val, k.syms[s].level);
          return Outcome(v, true);
        }
      }
      r := Outcome("", vis != N);
    }

    method ActiveRangeM(s: Sym, base: nat) returns (r: Option<(int, int)>)
      requires Valid() && s in k.syms && s != MODULES
      modifies this`cache
      ensures Valid() && r == ActiveRange(k, E(), k.syms[s].ranges, base)
      decreases k.syms[s].level, 6
    {
      RangesFit(k, s);
      var rs := k.syms[s].ranges;
      assert rs[0..] == rs;
      for i := 0 to |rs|
        invariant Valid() && ActiveRange(k, E(), rs, base) == ActiveRange(k, E(), rs[i..], base)
      {
        assert rs[i..][1..] == rs[i + 1..];
        var cond := EvalM(rs[i].cond, k.syms[s].level);
        if cond != N {
          var low := StrValM(rs[i].low, k.syms[s].level);
          var high := StrValM(rs[i].high, k.syms[s].level);
          return Some((NumOr0(k, low, base), NumOr0(k, high, base)));
        }
      }
      r := None;
    }

    method NumDefaultM(s: Sym, range: Option<(int, int)>, base: nat, visible: bool) returns (r: Outcome)
      requires Valid() && s in k.syms && k.syms[s].special == None && k.syms[s].typ != Unknown
      modifies this`cache
      ensures Valid() && r == NumDefault(k, E(), k.syms[s].defaults, range, base, "", visible)
      decreases k.syms[s].level, 6
    {
      SymbolFits(k, s);
      var ds := k.syms[s].defaults;
      assert ds[0..] == ds;
      var v, write := "", visible;
      for i := 0 to |ds|
        invariant Valid()
        invariant NumDefault(k, E(), ds, range, base, "", visible) == NumDefault(k, E(), ds[i..], range, base, v, write)
      {
        assert ds[i..][1..] == ds[i + 1..];
        var cond := EvalM(ds[i].cond, k.syms[s].level);
        if cond != N {
          assert forall t <- Syms(ds[i].val) :: t in CondSyms(Some(ds[i].val));
          v := ExprStrM(ds[i].val, k.syms[s].level);
          write := true;
          var n := k.nums.parse(v, base);
          if n.Some? {
            return Outcome(Clamped(k, range, v, n.value, base), true);
          }
        }
      }
      r := Outcome(if range.Some? && range.value.0 > 0 then k.nums.show(range.value.0, base) else v, write);
    }

    method NumOutcomeM(s: Sym) returns (r: Outcome)
      requires Valid() && s in k.syms && k.syms[s].special == None && (k.syms[s].typ == Int || k.syms[s].typ == Hex)
      modifies this`cache
      ensures Valid() && r == NumOutcome(k, user, E(), s, k.syms[s])
      decreases k.syms[s].level, 8
    {
      var base := Base(k.syms[s].typ);
      var vis := GetVisibility(s);
      var range := ActiveRangeM(s, base);
      if vis != N && UsableNumber(k, range, Get(user.vals, s), base) {
        r := Outcome(user.vals[s], true);
      } else {
        r := NumDefaultM(s, range, base, vis != N);
      }
    }

    /** `get_value`: the cached value, or a fresh one that is cached with its write flag. */
    method GetValue(s: Sym) returns (v: string)
      requires Valid() && s in k.syms
      modifies this`cache
      ensures Valid() && v == Recompute(k, user, s).val && s in cache.val
      decreases k.syms[s].level, 12
    {
      if s in cache.val {
        return cache.val[s];
      }
      var d := k.syms[s];
      var r;
      RecomputeIsFixpoint(k, user, s);
      match d.typ {
        case Unknown => r := Outcome(s, false);
        case Bool => r := TriOutcomeM(s);
        case Tristate => r := TriOutcomeM(s);
        case String => r := StrOutcomeM(s);
        case Hex => r := NumOutcomeM(s);
        case Int => r := NumOutcomeM(s);
      }
      StoreValue(s, r);
      v := r.val;
    }

    method StoreValue(s: Sym, r: Outcome)
      requires Valid() && s in k.syms
      modifies this`cache
      ensures r == Recompute(k, user, s) ==> Valid()
      ensures s in cache.val
    {
      cache := cache.(val := cache.val[s := r.val], write := if r.write then cache.write + {s} else cache.write - {s});
    }

    // ---- Dependents and invalidation ----

    /** A set of mentioning symbols and everything that depends on them. */
    method AllAffectedM(ghost s: Sym, g: Sym) returns (r: set<Sym>)
      requires Acyclic(k) && DepsCached(k, deps) && s in k.syms && g in Group(k, s)
      modifies this`deps
      ensures DepsCached(k, deps) && r == AllAffected(k, Dep(k, g))
      decreases Above(k, s), 0
    {
      r := Dep(k, g);
      var todo := r;
      ghost var done: set<Sym> := {};
      while todo != {}
        invariant DepsCached(k, deps) && todo <= Dep(k, g) && done == Dep(k, g) - todo
        invariant r == Dep(k, g) + AllAffected(k, done)
        decreases todo
      {
        var d :| d in todo;
        DepIsAbove(k, s, g, d);
        var more := GetDependent(d);
        AffectOne(k, done, d);
        ghost var before := AllAffected(k, done);
        assert r + more == Dep(k, g) + (before + Affected(k, d));
        r := r + more;
        todo := todo - {d};
        done := done + {d};
      }
      assert done == Dep(k, g);
      AffectedHoldsOwn(k, Dep(k, g));
    }

    /** `_get_dependent`, with its memo. */
    method GetDependent(s: Sym) returns (r: set<Sym>)
      requires Acyclic(k) && DepsCached(k, deps) && s in k.syms
      modifies this`deps
      ensures DepsCached(k, deps) && r == Affected(k, s) - {s}
      decreases Above(k, s), 1
    {
      if s in deps {
        return deps[s];
      }
      r := AllAffectedM(s, s);
      var todo := Group(k, s) - {s};
      ghost var done: set<Sym> := {s};
      GatherOne(k, {}, s, s);
      assert GatheredBut(k, {}, s) == {};
      assert {} + {s} == {s};
      while todo != {}
        invariant DepsCached(k, deps) && todo <= Group(k, s) - {s} && done == Group(k, s) - todo
        invariant r == GatheredBut(k, done, s)
        decreases todo
      {
        var sibling :| sibling in todo;
        var more := AllAffectedM(s, sibling);
        GatherOne(k, done, sibling, s);
        r := r + {sibling} + more;
        todo := todo - {sibling};
        done := done + {sibling};
      }
      assert done == Group(k, s);
      ClosureIsReachability(k, s);
      deps := deps[s := r];
    }

    /** `_invalidate` on a symbol: of the whole cache exactly its own entries are gone, and those of
        the choice it belongs to; a special symbol keeps everything. */
    method Invalidate(s: Sym)
      requires s in k.syms
      modifies this`cache
      ensures cache == Drop(k, old(cache), {s})
    {
      ghost var before := cache;
      HitOne(k, s);
      var d := k.syms[s];
      if d.special.Some? {
        DropIs(before, before, s);
        return;
      }
      if d.choice.Some? {
        InvalidateChoice(d.choice.value);
      }
      cache := cache.(val := cache.val - {s}, vis := cache.vis - {s});
      DropIs(before, cache, s);
    }

    /** `_invalidate` on a choice. */
    method InvalidateChoice(id: nat)
      modifies this`cache
      ensures cache == old(cache).(choiceVis := old(cache).choiceVis - {id}, sel := old(cache).sel - {id})
    {
      cache := cache.(sel := cache.sel - {id});
      cache := cache.(choiceVis := cache.choiceVis - {id});
    }

    lemma DropIs(a: Cache, b: Cache, s: Sym)
      requires s in k.syms && b.write == a.write
      requires k.syms[s].special.Some? ==> b == a
      requires k.syms[s].special == None ==> b.val == a.val - {s} && b.vis == a.vis - {s}
      requires k.syms[s].special == None ==>
        if k.syms[s].choice == None then b.choiceVis == a.choiceVis && b.sel == a.sel
        else b.choiceVis == a.choiceVis - {k.syms[s].choice.value} && b.sel == a.sel - {k.syms[s].choice.value}
      ensures b == Drop(k, a, {s})
    {
      HitOne(k, s);
      var d := Drop(k, a, {s});
      assert b.val == d.val;
      assert b.vis == d.vis;
      assert b.choiceVis == d.choiceVis;
      assert b.sel == d.sel;
    }

    /** `_invalidate` on each symbol of S. */
    method InvalidateEach(S: set<Sym>, ghost done: set<Sym>, ghost start: Cache)
      requires S <= k.syms.Keys && cache == Drop(k, start, done)
      modifies this`cache
      ensures cache == Drop(k, start, done + S)
    {
      var todo := S;
      ghost var D := done;
      while todo != {}
        invariant todo <= S && D == done + (S - todo) && cache == Drop(k, start, D)
        decreases todo
      {
        var t :| t in todo;
        DropOneMore(k, start, D, t);
        Invalidate(t);
        todo := todo - {t};
        D := D + {t};
        assert D == done + (S - todo);
      }
      assert D == done + S;
    }

    /** The symbol and all its dependents are invalidated. */
    method InvalidateAffected(s: Sym)
      requires Acyclic(k) && DepsCached(k, deps) && s in k.syms
      modifies this`cache, this`deps
      ensures DepsCached(k, deps) && cache == Drop(k, old(cache), Affected(k, s))
    {
      ghost var start := cache;
      DropNone(k, start);
      DropOneMore(k, start, {}, s);
      Invalidate(s);
      assert {} + {s} == {s};
      var ds := GetDependent(s);
      ReachesSelf(k, s);
      InvalidateEach(ds, {s}, start);
      assert {s} + ds == Affected(k, s);
    }

    /** `set_user_value`: the assignment, then invalidation; MODULES invalidates everything. */
    method SetUserValue(s: Sym, v: string)
      requires Valid() && s in k.syms
      modifies this
      ensures Valid() && user == SetUser(k, old(user), s, v)
    {
      ghost var u, start := user, cache;
      SetUserDiffers(k, user, s, v);
      user := SetUser(k, user, s, v);
      if s == MODULES {
        DropNone(k, start);
        InvalidateEach(k.syms.Keys, {}, start);
        assert {} + k.syms.Keys == k.syms.Keys;
        DropAllIsCoherent(k, u, user, start);
      } else {
        InvalidateAffected(s);
        ModulesKept(k, u, user, s);
        DropAffectedIsCoherent(k, u, user, s, start);
      }
    }

    /** `unset_user_value`. Unlike set_user_value it does not treat MODULES specially, so that the
        cache stays correct only when MODULES keeps its value. */
    method UnsetUserValue(s: Sym)
      requires Valid() && s in k.syms
      modifies this
      ensures user == UnsetUser(k, old(user), s) && cache == Drop(k, old(cache), Affected(k, s))
      ensures s != MODULES || ModulesSame(k, old(user), user) ==> Valid()
    {
      ghost var u, start := user, cache;
      UnsetUserDiffers(k, user, s);
      user := UnsetUser(k, user, s);
      InvalidateAffected(s);
      if s != MODULES {
        ModulesKept(k, u, user, s);
      }
      if ModulesSame(k, u, user) {
        DropAffectedIsCoherent(k, u, user, s, start);
      }
    }

    /** `_invalidate_all`. */
    method InvalidateAll()
      requires Valid()
      modifies this`cache
      ensures Valid() && cache == Drop(k, old(cache), k.syms.Keys)
    {
      ghost var start := cache;
      DropNone(k, start);
      InvalidateEach(k.syms.Keys, {}, start);
      assert {} + k.syms.Keys == k.syms.Keys;
      DropAllIsCoherent(k, user, user, start);
    }

    /** `unset_user_values`. */
    method UnsetAll()
      requires Valid()
      modifies this
      ensures Valid() && user == User(map[], map[], map[])
      ensures cache == Drop(k, old(cache), k.syms.Keys)
    {
      ghost var u, start := user, cache;
      DropNone(k, start);
      InvalidateEach(k.syms.Keys, {}, start);
      assert {} + k.syms.Keys == k.syms.Keys;
      user := User(map[], map[], map[]);
      DropAllIsCoherent(k, u, user, start);
    }
  }
}
