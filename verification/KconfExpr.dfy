/** Tristate expressions of docs/kconfiglib.py: their syntax, their value under an assignment of
    symbol values, and the constructors that merge conditions. */
module KconfExpr {

  import opened Basics

  /** "n" < "m" < "y". */
  datatype Tri = N | M | Y {
    function Rank(): nat {
      match this
      case N => 0
      case M => 1
      case Y => 2
    }

    function Text(): string {
      match this
      case N => "n"
      case M => "m"
      case Y => "y"
    }
  }

  /** A constant as a tristate: anything but "y" and "m" counts as "n". */
  function ToTri(v: string): Tri {
    if v == "y" then Y else if v == "m" then M else N
  }

  function Min(a: Tri, b: Tri): Tri {
    if a.Rank() < b.Rank() then a else b
  }

  function Max(a: Tri, b: Tri): Tri {
    if a.Rank() > b.Rank() then a else b
  }

  function Negate(a: Tri): Tri {
    match a
    case N => Y
    case M => M
    case Y => N
  }

  type Sym = string

  const MODULES: Sym := "MODULES"

  datatype Operand = OSym(sym: Sym) | OStr(str: string)

  datatype Expr =
    | ESym(sym: Sym)
    | EStr(str: string)
    | And(es: seq<Expr>)
    | Or(es: seq<Expr>)
    | Not(e: Expr)
    | Equal(l: Operand, r: Operand)
    | Unequal(l: Operand, r: Operand)

  /** A condition; None is the absent one and equates to "y". */
  type Cond = Option<Expr>

  /** What evaluation looks at: the symbols of type bool or tristate, and every symbol's value. */
  datatype View = View(triSyms: set<Sym>, vals: map<Sym, string>) {
    function Val(s: Sym): string {
      if s in vals then vals[s] else ""
    }
  }

  function StrVal(v: View, o: Operand): string {
    match o
    case OSym(s) => v.Val(s)
    case OStr(t) => t
  }

  /** `_eval_expr_rec`. Symbols that are neither bool nor tristate are "n" in a tristate sense. */
  function EvalRec(v: View, e: Expr): Tri
    decreases e, 1
  {
    match e
    case ESym(s) => if s in v.triSyms then ToTri(v.Val(s)) else N
    case EStr(t) => ToTri(t)
    case And(es) => EvalAll(v, es)
    case Or(es) => EvalAny(v, es)
    case Not(e1) => Negate(EvalRec(v, e1))
    case Equal(l, r) => if StrVal(v, l) == StrVal(v, r) then Y else N
    case Unequal(l, r) => if StrVal(v, l) != StrVal(v, r) then Y else N
  }

  /** The least value of a list, "y" when it is empty. */
  function EvalAll(v: View, es: seq<Expr>): Tri
    decreases es, 0
  {
    if es == [] then Y else Min(EvalAll(v, es[..|es| - 1]), EvalRec(v, es[|es| - 1]))
  }

  /** The greatest value of a list, "n" when it is empty. */
  function EvalAny(v: View, es: seq<Expr>): Tri
    decreases es, 0
  {
    if es == [] then N else Max(EvalAny(v, es[..|es| - 1]), EvalRec(v, es[|es| - 1]))
  }

  /** "m" is promoted to "y" while modules are off. */
  function Promote(mods: bool, t: Tri): Tri {
    if t == M && !mods then Y else t
  }

  /** `_eval_expr`. */
  function Eval(v: View, mods: bool, c: Cond): Tri {
    if c.None? then Y else Promote(mods, EvalRec(v, c.value))
  }

  // ---- Symbols of an expression ------------------------------------------

  function OperandSyms(o: Operand): set<Sym> {
    if o.OSym? then {o.sym} else {}
  }

  /** `_get_expr_syms`. */
  function Syms(e: Expr): set<Sym>
    decreases e
  {
    match e
    case ESym(s) => {s}
    case EStr(_) => {}
    case And(es) => set i, s | 0 <= i < |es| && s in Syms(es[i]) :: s
    case Or(es) => set i, s | 0 <= i < |es| && s in Syms(es[i]) :: s
    case Not(e1) => Syms(e1)
    case Equal(l, r) => OperandSyms(l) + OperandSyms(r)
    case Unequal(l, r) => OperandSyms(l) + OperandSyms(r)
  }

  function CondSyms(c: Cond): set<Sym> {
    if c.None? then {} else Syms(c.value)
  }

  /** Two views show the same thing on the symbols of R. */
  ghost predicate Agree(v: View, w: View, R: set<Sym>) {
    forall s <- R :: v.Val(s) == w.Val(s) && (s in v.triSyms <==> s in w.triSyms)
  }

  /** An expression's value depends on its own symbols only. */
  lemma {:induction false} EvalFrame(v: View, w: View, e: Expr)
    requires Agree(v, w, Syms(e))
    ensures EvalRec(v, e) == EvalRec(w, e)
    decreases e, 1
  {
    match e
    case ESym(s) =>
    case EStr(_) =>
    case And(es) => EvalListFrame(v, w, es);
    case Or(es) => EvalListFrame(v, w, es);
    case Not(e1) => EvalFrame(v, w, e1);
    case Equal(l, r) =>
    case Unequal(l, r) =>
  }

  lemma {:induction false} EvalListFrame(v: View, w: View, es: seq<Expr>)
    requires forall i | 0 <= i < |es| :: Agree(v, w, Syms(es[i]))
    ensures EvalAll(v, es) == EvalAll(w, es)
    ensures EvalAny(v, es) == EvalAny(w, es)
    decreases es, 0
  {
    if es != [] {
      EvalListFrame(v, w, es[..|es| - 1]);
      EvalFrame(v, w, es[|es| - 1]);
    }
  }

  // ---- Merging conditions ------------------------------------------------

  function JoinAnd(e: Expr, f: Expr): Expr {
    if e.And? && f.And? then And(e.es + f.es)
    else if e.And? then And(e.es + [f])
    else if f.And? then And(f.es + [e])
    else And([e, f])
  }

  /** `_make_and`: a missing or constant "y" condition disappears, argument lists are merged. */
  function MakeAnd(a: Cond, b: Cond): Cond {
    if a == None || a == Some(EStr("y")) then b
    else if b == None || b == Some(EStr("y")) then a
    else Some(JoinAnd(a.value, b.value))
  }

  function JoinOr(e: Expr, f: Expr): Expr {
    if e.Or? && f.Or? then Or(e.es + f.es)
    else if e.Or? then Or(e.es + [f])
    else if f.Or? then Or(f.es + [e])
    else Or([e, f])
  }

  /** `_make_or`: never None; a constant "n" on the left disappears. */
  function MakeOr(a: Cond, b: Cond): Cond {
    if a == None || b == None || a == Some(EStr("y")) || b == Some(EStr("y")) then Some(EStr("y"))
    else if a == Some(EStr("n")) then b
    else Some(JoinOr(a.value, b.value))
  }

  lemma {:induction false} EvalConcat(v: View, a: seq<Expr>, b: seq<Expr>)
    ensures EvalAll(v, a + b) == Min(EvalAll(v, a), EvalAll(v, b))
    ensures EvalAny(v, a + b) == Max(EvalAny(v, a), EvalAny(v, b))
    decreases |b|
  {
    if b == [] {
      assert a + b == a;
    } else {
      var b' := b[..|b| - 1];
      EvalConcat(v, a, b');
      assert (a + b)[..|a + b| - 1] == a + b';
    }
  }

  lemma EvalSingle(v: View, e: Expr)
    ensures EvalAll(v, [e]) == EvalRec(v, e) && EvalAny(v, [e]) == EvalRec(v, e)
  {
    assert [e][..0] == [];
  }

  lemma JoinAndIsMin(v: View, e: Expr, f: Expr)
    ensures EvalRec(v, JoinAnd(e, f)) == Min(EvalRec(v, e), EvalRec(v, f))
  {
    EvalSingle(v, e);
    EvalSingle(v, f);
    if e.And? {
      EvalConcat(v, e.es, if f.And? then f.es else [f]);
    } else if f.And? {
      EvalConcat(v, f.es, [e]);
    } else {
      EvalConcat(v, [e], [f]);
      assert [e, f] == [e] + [f];
    }
  }

  lemma JoinOrIsMax(v: View, e: Expr, f: Expr)
    ensures EvalRec(v, JoinOr(e, f)) == Max(EvalRec(v, e), EvalRec(v, f))
  {
    EvalSingle(v, e);
    EvalSingle(v, f);
    if e.Or? {
      EvalConcat(v, e.es, if f.Or? then f.es else [f]);
    } else if f.Or? {
      EvalConcat(v, f.es, [e]);
    } else {
      EvalConcat(v, [e], [f]);
      assert [e, f] == [e] + [f];
    }
  }

  /** Conditions that are merged evaluate to the minimum, promotion of "m" included. */
  lemma MakeAndIsMin(v: View, mods: bool, a: Cond, b: Cond)
    ensures Eval(v, mods, MakeAnd(a, b)) == Min(Eval(v, mods, a), Eval(v, mods, b))
  {
    if a.Some? && b.Some? {
      JoinAndIsMin(v, a.value, b.value);
    }
  }

  /** Conditions joined by `_make_or` evaluate to the maximum; a missing one is "y". */
  lemma MakeOrIsMax(v: View, mods: bool, a: Cond, b: Cond)
    ensures Eval(v, mods, MakeOr(a, b)) == Max(Eval(v, mods, a), Eval(v, mods, b))
  {
    if a.Some? && b.Some? {
      JoinOrIsMax(v, a.value, b.value);
    }
  }

  // ---- What the operators mean -------------------------------------------

  /** Tristates are ordered "n", "m", "y"; Min and Max pick by that order. */
  lemma MinMaxByOrder(a: Tri, b: Tri)
    ensures N.Rank() < M.Rank() < Y.Rank()
    ensures Min(a, b) in {a, b} && Min(a, b).Rank() <= a.Rank() && Min(a, b).Rank() <= b.Rank()
    ensures Max(a, b) in {a, b} && Max(a, b).Rank() >= a.Rank() && Max(a, b).Rank() >= b.Rank()
  {
  }

  /** && is the least of its operands: not above any, and one of them. */
  lemma {:induction false} AndIsLeast(v: View, es: seq<Expr>)
    ensures forall i | 0 <= i < |es| :: EvalRec(v, And(es)).Rank() <= EvalRec(v, es[i]).Rank()
    ensures es != [] ==> exists i | 0 <= i < |es| :: EvalRec(v, And(es)) == EvalRec(v, es[i])
    decreases |es|
  {
    if es != [] {
      var front := es[..|es| - 1];
      AndIsLeast(v, front);
      assert EvalRec(v, And(front)) == EvalAll(v, front);
      forall i | 0 <= i < |es| ensures EvalAll(v, es).Rank() <= EvalRec(v, es[i]).Rank() {
        assert i < |front| ==> es[i] == front[i];
      }
      if front == [] || EvalAll(v, es) == EvalRec(v, es[|es| - 1]) {
        assert EvalAll(v, es) == EvalRec(v, es[|es| - 1]);
      } else {
        var i :| 0 <= i < |front| && EvalAll(v, front) == EvalRec(v, front[i]);
        assert es[i] == front[i];
      }
    }
  }

  /** || is the greatest of its operands. */
  lemma {:induction false} OrIsGreatest(v: View, es: seq<Expr>)
    ensures forall i | 0 <= i < |es| :: EvalRec(v, Or(es)).Rank() >= EvalRec(v, es[i]).Rank()
    ensures es != [] ==> exists i | 0 <= i < |es| :: EvalRec(v, Or(es)) == EvalRec(v, es[i])
    decreases |es|
  {
    if es != [] {
      var front := es[..|es| - 1];
      OrIsGreatest(v, front);
      assert EvalRec(v, Or(front)) == EvalAny(v, front);
      forall i | 0 <= i < |es| ensures EvalAny(v, es).Rank() >= EvalRec(v, es[i]).Rank() {
        assert i < |front| ==> es[i] == front[i];
      }
      if front == [] || EvalAny(v, es) == EvalRec(v, es[|es| - 1]) {
        assert EvalAny(v, es) == EvalRec(v, es[|es| - 1]);
      } else {
        var i :| 0 <= i < |front| && EvalAny(v, front) == EvalRec(v, front[i]);
        assert es[i] == front[i];
      }
    }
  }

  function Negated(es: seq<Expr>): (ns: seq<Expr>)
    ensures |ns| == |es| && forall i | 0 <= i < |es| :: ns[i] == Not(es[i])
  {
    if es == [] then [] else Negated(es[..|es| - 1]) + [Not(es[|es| - 1])]
  }

  lemma {:induction false} NegateLists(v: View, es: seq<Expr>)
    ensures Negate(EvalAll(v, es)) == EvalAny(v, Negated(es))
    ensures Negate(EvalAny(v, es)) == EvalAll(v, Negated(es))
    decreases |es|
  {
    if es != [] {
      var front, last := es[..|es| - 1], es[|es| - 1];
      var ns := Negated(es);
      NegateLists(v, front);
      assert ns[..|ns| - 1] == Negated(front) && ns[|ns| - 1] == Not(last);
      assert EvalRec(v, Not(last)) == Negate(EvalRec(v, last));
    }
  }

  /** ! exchanges && and || over any list. */
  lemma DeMorgan(v: View, es: seq<Expr>)
    ensures EvalRec(v, Not(And(es))) == EvalRec(v, Or(Negated(es)))
    ensures EvalRec(v, Not(Or(es))) == EvalRec(v, And(Negated(es)))
  {
    NegateLists(v, es);
    assert EvalRec(v, And(es)) == EvalAll(v, es) && EvalRec(v, Or(es)) == EvalAny(v, es);
    assert EvalRec(v, Not(And(es))) == Negate(EvalRec(v, And(es)));
    assert EvalRec(v, Not(Or(es))) == Negate(EvalRec(v, Or(es)));
  }

  /** It exchanges "y" and "n", leaves "m" and undoes itself. */
  lemma NotExchanges(v: View, e: Expr)
    ensures EvalRec(v, Not(e)) == Y <==> EvalRec(v, e) == N
    ensures EvalRec(v, Not(e)) == N <==> EvalRec(v, e) == Y
    ensures EvalRec(v, Not(Not(e))) == EvalRec(v, e)
  {
    assert EvalRec(v, Not(Not(e))) == Negate(EvalRec(v, Not(e)));
  }

  /** Of = and != exactly one is "y" and the other "n", the first if the texts agree. A symbol's text
      is its value, a constant's the constant. */
  lemma RelationsDecide(v: View, l: Operand, r: Operand)
    ensures EvalRec(v, Equal(l, r)) == (if StrVal(v, l) == StrVal(v, r) then Y else N)
    ensures {EvalRec(v, Equal(l, r)), EvalRec(v, Unequal(l, r))} == {Y, N}
    ensures l.OStr? ==> StrVal(v, l) == l.str
    ensures l.OSym? && l.sym in v.vals ==> StrVal(v, l) == v.vals[l.sym]
  {
  }

  /** A constant or a bool or tristate symbol has the tristate its text spells; other symbols, and
      other texts, count as "n". */
  lemma AtomsMean(v: View, s: Sym, t: Tri)
    ensures EvalRec(v, EStr(t.Text())) == t
    ensures s in v.triSyms && s in v.vals && v.vals[s] == t.Text() ==> EvalRec(v, ESym(s)) == t
    ensures s !in v.triSyms ==> EvalRec(v, ESym(s)) == N
    ensures Y.Text() == "y" && M.Text() == "m" && N.Text() == "n"
  {
  }

  /** A condition that is absent holds; "m" holds as "y" while modules are off. */
  lemma PromotionMeans(v: View, e: Expr)
    ensures Eval(v, true, Some(e)) == EvalRec(v, e) && Eval(v, true, None) == Eval(v, false, None) == Y
    ensures Eval(v, false, Some(e)) == if EvalRec(v, e) == N then N else Y
  {
  }
}
