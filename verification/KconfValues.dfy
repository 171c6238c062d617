/** What get_value answers (docs/kconfiglib.py), said of the recomputed values without the functions
    that compute them: when a user value counts, which default applies, what selects do. */
module KconfValues {
  import opened Basics
  import opened KconfExpr
  import opened Kconfig
  import opened KconfFrame
  import opened KconfDeps
  import opened KconfCache

  // ---- The first that holds ----------------------------------------------

  ghost predicate Holds(e: Env, c: Cond) {
    e.Cond(c) != N
  }

  /** Default i is the first whose condition holds. */
  ghost predicate FirstDefault(e: Env, ds: seq<Default>, i: int) {
    0 <= i < |ds| && Holds(e, ds[i].cond) && forall j | 0 <= j < i :: !Holds(e, ds[j].cond)
  }

  ghost predicate SomeDefault(e: Env, ds: seq<Default>) {
    exists i :: FirstDefault(e, ds, i)
  }

  lemma {:induction false} DefaultApplies(e: Env, ds: seq<Default>, i: int)
    requires FirstDefault(e, ds, i)
    ensures TriDefault(e, ds) == Some(Min(e.Cond(Some(ds[i].val)), e.Cond(ds[i].cond)))
    ensures StrDefault(e, ds) == Some(ExprStr(e.view, ds[i].val))
    decreases |ds|
  {
    if i > 0 {
      assert !Holds(e, ds[0].cond);
      assert FirstDefault(e, ds[1..], i - 1) by {
        forall j | 0 <= j < i - 1 ensures !Holds(e, ds[1..][j].cond) {
          assert ds[1..][j] == ds[j + 1];
        }
      }
      DefaultApplies(e, ds[1..], i - 1);
    }
  }

  lemma {:induction false} FindDefault(e: Env, ds: seq<Default>)
    ensures SomeDefault(e, ds) || (TriDefault(e, ds) == None && StrDefault(e, ds) == None)
    decreases |ds|
  {
    if ds != [] {
      if Holds(e, ds[0].cond) {
        assert FirstDefault(e, ds, 0);
      } else {
        FindDefault(e, ds[1..]);
        if i :| FirstDefault(e, ds[1..], i) {
          assert FirstDefault(e, ds, i + 1) by {
            forall j | 0 <= j < i + 1 ensures !Holds(e, ds[j].cond) {
              assert j > 0 ==> ds[1..][j - 1] == ds[j];
            }
          }
        }
      }
    }
  }

  // ---- Bools and tristates outside choices -------------------------------

  /** The text of a tristate value; a bool has no "m". */
  function Shown(typ: Type, t: Tri): string {
    if typ == Bool && t == M then "y" else t.Text()
  }

  ghost predicate Plain(k: Config, u: User, s: Sym) {
    && Acyclic(k) && UserValid(k, u) && s in k.syms
    && k.syms[s].special == None && IsTri(k.syms[s].typ) && k.syms[s].choice == None
  }

  ghost function RevOf(k: Config, u: User, s: Sym): Tri
    requires Acyclic(k) && s in k.syms
  {
    FullEnv(k, u).Cond(Some(k.syms[s].revDep))
  }

  /** The value before selects: what the user set, as far as the symbol is visible; else the first
      default that holds, as far as it does; else "n". */
  ghost predicate OwnValue(k: Config, u: User, s: Sym, t: Tri)
    requires Acyclic(k) && s in k.syms
  {
    var e, ds, vis := FullEnv(k, u), k.syms[s].defaults, VisOf(k, u, s);
    if vis != N && s in u.vals then t == Min(Promote(e.mods, ToTri(u.vals[s])), vis)
    else if SomeDefault(e, ds) then
      forall i | FirstDefault(e, ds, i) :: t == Min(e.Cond(Some(ds[i].val)), e.Cond(ds[i].cond))
    else t == N
  }

  lemma VisIsPromoted(k: Config, e: Env, d: Symbol)
    ensures !e.mods ==> SymVis(k, e, d) != M
  {
    PromptVisPromoted(e, d.prompts);
  }

  lemma {:induction false} PromptVisPromoted(e: Env, cs: seq<Cond>)
    ensures !e.mods ==> PromptVis(e, cs) != M
    decreases |cs|
  {
    if cs != [] {
      PromptVisPromoted(e, cs[..|cs| - 1]);
    }
  }

  /** The value before selects, as the engine computes it, is that value. */
  lemma OwnIs(k: Config, u: User, s: Sym)
    requires Plain(k, u, s)
    ensures var e, d := FullEnv(k, u), k.syms[s];
            var own := OwnTri(e, d, Get(u.vals, s), VisOf(k, u, s));
            && OwnValue(k, u, s, own.0) && Promote(e.mods, own.0) == own.0
            && own.1 == (VisOf(k, u, s) != N || SomeDefault(e, d.defaults))
  {
    var e, d := FullEnv(k, u), k.syms[s];
    VisIsPromoted(k, e, d);
    FindDefault(e, d.defaults);
    forall i | FirstDefault(e, d.defaults, i)
      ensures TriDefault(e, d.defaults) == Some(Min(e.Cond(Some(d.defaults[i].val)), e.Cond(d.defaults[i].cond)))
    {
      DefaultApplies(e, d.defaults, i);
    }
  }

  lemma OwnIsUnique(k: Config, u: User, s: Sym, t: Tri, t': Tri)
    requires Acyclic(k) && s in k.syms && OwnValue(k, u, s, t) && OwnValue(k, u, s, t')
    ensures t == t'
  {
    var e, ds := FullEnv(k, u), k.syms[s].defaults;
    if i :| FirstDefault(e, ds, i) {
    }
  }

  /** The value of a bool or tristate outside choices is its own value, raised by what selects it;
      it is written if it is visible, has a default that holds, or is selected. */
  lemma TriLaw(k: Config, u: User, s: Sym, t: Tri)
    requires Plain(k, u, s) && OwnValue(k, u, s, t)
    ensures var rev := RevOf(k, u, s);
            Recompute(k, u, s) ==
            Outcome(Shown(k.syms[s].typ, if rev == N then t else Max(t, rev)),
                    VisOf(k, u, s) != N || SomeDefault(FullEnv(k, u), k.syms[s].defaults) || rev != N)
  {
    var e, d := FullEnv(k, u), k.syms[s];
    RecomputeIsFixpoint(k, u, s);
    OwnIs(k, u, s);
    OwnIsUnique(k, u, s, t, OwnTri(e, d, Get(u.vals, s), VisOf(k, u, s)).0);
    PlainOutcome(k, u, e, s, d);
  }

  lemma PlainOutcome(k: Config, u: User, e: Env, s: Sym, d: Symbol)
    requires d.choice == None && IsTri(d.typ)
    ensures var own, rev := OwnTri(e, d, Get(u.vals, s), SymVis(k, e, d)), e.Cond(Some(d.revDep));
            Promote(e.mods, own.0) == own.0 ==>
              TriOutcome(k, u, e, s, d) == Outcome(Shown(d.typ, if rev == N then own.0 else Max(own.0, rev)), own.1 || rev != N)
  {
  }

  /** In particular a visible bool that nothing selects has the value the user gave it, */
  lemma UserValueCounts(k: Config, u: User, s: Sym)
    requires Plain(k, u, s) && k.syms[s].typ == Bool
    requires VisOf(k, u, s) == Y && s in u.vals && RevOf(k, u, s) == N
    ensures Recompute(k, u, s) == Outcome(u.vals[s], true)
  {
    var t := ToTri(u.vals[s]);
    assert OwnValue(k, u, s, t);
    TriLaw(k, u, s, t);
  }

  /** and a selected symbol is at least what selects it, whatever the user or the defaults say. */
  lemma SelectRaises(k: Config, u: User, s: Sym)
    requires Plain(k, u, s) && RevOf(k, u, s) != N
    ensures ToTri(Recompute(k, u, s).val).Rank() >= RevOf(k, u, s).Rank() && Recompute(k, u, s).write
  {
    var e, d := FullEnv(k, u), k.syms[s];
    OwnIs(k, u, s);
    TriLaw(k, u, s, OwnTri(e, d, Get(u.vals, s), VisOf(k, u, s)).0);
  }

  // ---- Setting, then getting ---------------------------------------------

  /** Nothing that decides about a symbol but its user value depends on it. */
  lemma OwnSourcesStay(k: Config, u: User, w: User, s: Sym)
    requires Plain(k, u, s) && s != MODULES && DifferAt(k, u, w, s)
    ensures VisOf(k, w, s) == VisOf(k, u, s) && RevOf(k, w, s) == RevOf(k, u, s) && FullEnv(k, w).mods == FullEnv(k, u).mods
  {
    ModulesKept(k, u, w, s);
    UnaffectedEnv(k, u, w, s);
    SourcesAreLower(k, s);
    forall t | t in Sources(k, s)
      ensures t in Unmoved(k, s)
    {
      if t in Affected(k, s) {
        AffectedClimbs(k, s, t);
      }
    }
    var d := k.syms[s];
    assert Refs(k, d) <= Sources(k, s) && Syms(d.revDep) <= Refs(k, d);
    SymVisFrame(k, FullEnv(k, u), FullEnv(k, w), s);
    CondFrame(FullEnv(k, u), FullEnv(k, w), Some(d.revDep));
  }

  /** What an assignment outside choices changes: the user value of its symbol if it is valid for the
      type, and for a special symbol or an invalid value nothing. */
  lemma SetOrRefuse(k: Config, u: User, s: Sym, v: string)
    requires s in k.syms
    ensures k.syms[s].special.Some? || k.syms[s].typ == Unknown ==> SetUser(k, u, s, v) == u
    ensures k.syms[s].typ == Bool && v !in {"y", "n"} ==> SetUser(k, u, s, v) == u
    ensures k.syms[s].typ == Tristate && v !in {"y", "m", "n"} ==> SetUser(k, u, s, v) == u
    ensures k.syms[s].typ == Int && k.nums.parse(v, 10) == None ==> SetUser(k, u, s, v) == u
    ensures k.syms[s].typ == Hex && k.nums.parse(v, 16) == None ==> SetUser(k, u, s, v) == u
    ensures k.syms[s].special == None && ValidValue(k, k.syms[s].typ, v) && k.syms[s].choice == None ==>
              SetUser(k, u, s, v) == u.(vals := u.vals[s := v])
  {
  }

  /** A value the engine accepts is what get_value then answers, as far as the symbol is visible and
      unless it is selected. */
  lemma SetThenGet(k: Config, u: User, s: Sym, v: string)
    requires Plain(k, u, s) && s != MODULES && ValidValue(k, k.syms[s].typ, v)
    requires VisOf(k, u, s) != N && RevOf(k, u, s) == N
    ensures var w := SetUser(k, u, s, v);
            Recompute(k, w, s) ==
            Outcome(Shown(k.syms[s].typ, Min(Promote(FullEnv(k, u).mods, ToTri(v)), VisOf(k, u, s))), true)
  {
    var w := SetUser(k, u, s, v);
    SetUserDiffers(k, u, s, v);
    OwnSourcesStay(k, u, w, s);
    var t := Min(Promote(FullEnv(k, w).mods, ToTri(v)), VisOf(k, w, s));
    assert OwnValue(k, w, s, t);
    TriLaw(k, w, s, t);
  }

  // ---- Strings -----------------------------------------------------------

  /** What a default of a string or number says: a constant, or the value of a symbol. */
  ghost function DefaultText(k: Config, u: User, e: Expr): string
    requires Acyclic(k)
  {
    match e
    case EStr(t) => t
    case ESym(s) => if s in k.syms then Recompute(k, u, s).val else ""
    case _ => ""
  }

  lemma DefaultTextIs(k: Config, u: User, e: Expr)
    requires Acyclic(k)
    ensures ExprStr(FullEnv(k, u).view, e) == DefaultText(k, u, e)
  {
  }

  /** A string is what the user set, if it is visible; else its first default that holds; else empty. */
  lemma StringLaw(k: Config, u: User, s: Sym)
    requires Acyclic(k) && UserValid(k, u) && s in k.syms && k.syms[s].special == None && k.syms[s].typ == String
    ensures var e, ds, r := FullEnv(k, u), k.syms[s].defaults, Recompute(k, u, s);
            if VisOf(k, u, s) != N && s in u.vals then r == Outcome(u.vals[s], true)
            else if SomeDefault(e, ds) then
              forall i | FirstDefault(e, ds, i) :: r == Outcome(DefaultText(k, u, ds[i].val), true)
            else r == Outcome("", VisOf(k, u, s) != N)
  {
    var e, ds := FullEnv(k, u), k.syms[s].defaults;
    RecomputeIsFixpoint(k, u, s);
    FindDefault(e, ds);
    forall i | FirstDefault(e, ds, i)
      ensures StrDefault(e, ds) == Some(DefaultText(k, u, ds[i].val))
    {
      DefaultApplies(e, ds, i);
      DefaultTextIs(k, u, ds[i].val);
    }
  }

  // ---- Numbers -----------------------------------------------------------

  ghost predicate FirstRange(e: Env, rs: seq<Range>, i: int) {
    0 <= i < |rs| && Holds(e, rs[i].cond) && forall j | 0 <= j < i :: !Holds(e, rs[j].cond)
  }

  /** A bound that is not a number counts as 0. */
  function BoundOf(k: Config, v: View, o: Operand, base: nat): int {
    var n := k.nums.parse(StrVal(v, o), base);
    if n.None? then 0 else n.value
  }

  /** The bounds in force: those of the first range whose condition holds. */
  ghost predicate RangeIs(k: Config, e: Env, rs: seq<Range>, base: nat, r: Option<(int, int)>) {
    if exists i :: FirstRange(e, rs, i) then
      forall i | FirstRange(e, rs, i) :: r == Some((BoundOf(k, e.view, rs[i].low, base), BoundOf(k, e.view, rs[i].high, base)))
    else r == None
  }

  lemma {:induction false} ActiveRangeIs(k: Config, e: Env, rs: seq<Range>, base: nat)
    ensures RangeIs(k, e, rs, base, ActiveRange(k, e, rs, base))
    decreases |rs|
  {
    if rs != [] {
      if Holds(e, rs[0].cond) {
        assert FirstRange(e, rs, 0);
      } else {
        ActiveRangeIs(k, e, rs[1..], base);
        forall i | FirstRange(e, rs, i) ensures FirstRange(e, rs[1..], i - 1) {
          RangeShift(e, rs, i);
        }
        forall i | FirstRange(e, rs[1..], i) ensures FirstRange(e, rs, i + 1) {
          RangeShift(e, rs, i + 1);
        }
      }
    }
  }

  lemma RangeShift(e: Env, rs: seq<Range>, i: int)
    requires rs != [] && !Holds(e, rs[0].cond)
    ensures FirstRange(e, rs, i) <==> FirstRange(e, rs[1..], i - 1)
  {
    if FirstRange(e, rs[1..], i - 1) {
      forall j | 0 <= j < i ensures !Holds(e, rs[j].cond) {
        assert j > 0 ==> rs[1..][j - 1] == rs[j];
      }
    } else if 0 < i < |rs| && forall j | 0 <= j < i :: !Holds(e, rs[j].cond) {
      forall j | 0 <= j < i - 1 ensures !Holds(e, rs[1..][j].cond) {
        assert rs[1..][j] == rs[j + 1];
      }
    }
  }

  /** The condition of the default holds, and it is a number. */
  ghost predicate Numeric(k: Config, e: Env, d: Default, base: nat) {
    Holds(e, d.cond) && k.nums.parse(ExprStr(e.view, d.val), base).Some?
  }

  ghost predicate FirstNumber(k: Config, e: Env, ds: seq<Default>, base: nat, i: int) {
    0 <= i < |ds| && Numeric(k, e, ds[i], base) && forall j | 0 <= j < i :: !Numeric(k, e, ds[j], base)
  }

  ghost predicate SomeNumber(k: Config, e: Env, ds: seq<Default>, base: nat) {
    exists i :: FirstNumber(k, e, ds, base, i)
  }

  ghost predicate LastDefault(e: Env, ds: seq<Default>, i: int) {
    0 <= i < |ds| && Holds(e, ds[i].cond) && forall j | i < j < |ds| :: !Holds(e, ds[j].cond)
  }

  ghost predicate SomeHolds(e: Env, ds: seq<Default>) {
    exists i :: LastDefault(e, ds, i)
  }

  /** A number that is used: kept as it is written within the bounds, else the nearer bound. */
  ghost predicate Bounded(k: Config, r: Option<(int, int)>, text: string, base: nat, v: string) {
    var n := k.nums.parse(text, base);
    n.Some? &&
    if r.None? || r.value.0 <= n.value <= r.value.1 then v == text
    else if n.value < r.value.0 then v == k.nums.show(r.value.0, base)
    else v == k.nums.show(r.value.1, base)
  }

  lemma NumberShift(k: Config, e: Env, ds: seq<Default>, base: nat, i: int)
    requires ds != [] && !Numeric(k, e, ds[0], base)
    ensures FirstNumber(k, e, ds, base, i) <==> FirstNumber(k, e, ds[1..], base, i - 1)
  {
    if FirstNumber(k, e, ds[1..], base, i - 1) {
      forall j | 0 <= j < i ensures !Numeric(k, e, ds[j], base) {
        assert j > 0 ==> ds[1..][j - 1] == ds[j];
      }
    } else if 0 < i < |ds| && forall j | 0 <= j < i :: !Numeric(k, e, ds[j], base) {
      forall j | 0 <= j < i - 1 ensures !Numeric(k, e, ds[1..][j], base) {
        assert ds[1..][j] == ds[j + 1];
      }
    }
  }

  lemma LastShift(e: Env, ds: seq<Default>, i: int)
    requires ds != []
    ensures i > 0 ==> (LastDefault(e, ds, i) <==> LastDefault(e, ds[1..], i - 1))
    ensures LastDefault(e, ds, 0) <==> Holds(e, ds[0].cond) && !SomeHolds(e, ds[1..])
  {
    if i > 0 {
      forall j | 0 <= j < |ds| - 1 ensures ds[1..][j] == ds[j + 1] {
      }
      if LastDefault(e, ds[1..], i - 1) {
        forall j | i < j < |ds| ensures !Holds(e, ds[j].cond) {
          assert ds[1..][j - 1] == ds[j];
        }
      }
    }
    if Holds(e, ds[0].cond) && !SomeHolds(e, ds[1..]) {
      NoneHolds(e, ds[1..]);
      forall j | 0 < j < |ds| ensures !Holds(e, ds[j].cond) {
        assert ds[1..][j - 1] == ds[j];
      }
    }
    forall m | LastDefault(e, ds[1..], m) ensures m >= 0 && Holds(e, ds[m + 1].cond) {
      assert ds[1..][m] == ds[m + 1];
    }
  }

  lemma {:induction false} NoneHolds(e: Env, ds: seq<Default>)
    requires !SomeHolds(e, ds)
    ensures forall j | 0 <= j < |ds| :: !Holds(e, ds[j].cond)
    decreases |ds|
  {
    if ds != [] {
      var front := ds[..|ds| - 1];
      if Holds(e, ds[|ds| - 1].cond) {
        assert LastDefault(e, ds, |ds| - 1);
      } else {
        if m :| LastDefault(e, front, m) {
          assert LastDefault(e, ds, m) by {
            forall j | m < j < |ds| ensures !Holds(e, ds[j].cond) {
              assert j < |front| ==> front[j] == ds[j];
            }
          }
        }
        NoneHolds(e, front);
      }
    }
  }

  /** What the defaults of a number give, after `v` and `write` from before. */
  ghost predicate DefaultsGive(k: Config, e: Env, ds: seq<Default>, r: Option<(int, int)>, base: nat,
                               v: string, write: bool, o: Outcome)
  {
    if SomeNumber(k, e, ds, base) then
      o.write && forall i | FirstNumber(k, e, ds, base, i) :: Bounded(k, r, ExprStr(e.view, ds[i].val), base, o.val)
    else
      && o.write == (write || SomeHolds(e, ds))
      && if r.Some? && r.value.0 > 0 then o.val == k.nums.show(r.value.0, base)
         else if SomeHolds(e, ds) then forall i | LastDefault(e, ds, i) :: o.val == ExprStr(e.view, ds[i].val)
         else o.val == v
  }

  lemma {:induction false} NumDefaultIs(k: Config, e: Env, ds: seq<Default>, r: Option<(int, int)>, base: nat,
                                        v: string, write: bool)
    ensures DefaultsGive(k, e, ds, r, base, v, write, NumDefault(k, e, ds, r, base, v, write))
    decreases |ds|
  {
    if ds != [] {
      var text := ExprStr(e.view, ds[0].val);
      var v1, write1 := if Holds(e, ds[0].cond) then text else v, write || Holds(e, ds[0].cond);
      if Numeric(k, e, ds[0], base) {
        assert FirstNumber(k, e, ds, base, 0);
      } else {
        NumDefaultIs(k, e, ds[1..], r, base, v1, write1);
        GiveShift(k, e, ds, r, base, v, write, NumDefault(k, e, ds[1..], r, base, v1, write1));
      }
    }
  }

  lemma GiveShift(k: Config, e: Env, ds: seq<Default>, r: Option<(int, int)>, base: nat, v: string, write: bool, o: Outcome)
    requires ds != [] && !Numeric(k, e, ds[0], base)
    requires var held := Holds(e, ds[0].cond);
             DefaultsGive(k, e, ds[1..], r, base, if held then ExprStr(e.view, ds[0].val) else v, write || held, o)
    ensures DefaultsGive(k, e, ds, r, base, v, write, o)
  {
    NumbersShift(k, e, ds, base);
    LastsShift(e, ds);
    if SomeNumber(k, e, ds, base) {
      forall i | FirstNumber(k, e, ds, base, i) ensures Bounded(k, r, ExprStr(e.view, ds[i].val), base, o.val) {
        NumberShift(k, e, ds, base, i);
        assert ds[1..][i - 1] == ds[i];
      }
    } else {
      forall i | LastDefault(e, ds, i) && !(r.Some? && r.value.0 > 0) ensures o.val == ExprStr(e.view, ds[i].val) {
        LastShift(e, ds, i);
        if i > 0 {
          assert ds[1..][i - 1] == ds[i];
        }
      }
    }
  }

  lemma NumbersShift(k: Config, e: Env, ds: seq<Default>, base: nat)
    requires ds != [] && !Numeric(k, e, ds[0], base)
    ensures SomeNumber(k, e, ds, base) <==> SomeNumber(k, e, ds[1..], base)
  {
    forall i | FirstNumber(k, e, ds, base, i) ensures FirstNumber(k, e, ds[1..], base, i - 1) {
      NumberShift(k, e, ds, base, i);
    }
    forall i | FirstNumber(k, e, ds[1..], base, i) ensures FirstNumber(k, e, ds, base, i + 1) {
      NumberShift(k, e, ds, base, i + 1);
    }
  }

  lemma LastsShift(e: Env, ds: seq<Default>)
    requires ds != []
    ensures SomeHolds(e, ds) <==> Holds(e, ds[0].cond) || SomeHolds(e, ds[1..])
  {
    LastShift(e, ds, 0);
    forall i | LastDefault(e, ds, i) ensures Holds(e, ds[0].cond) || SomeHolds(e, ds[1..]) {
      LastShift(e, ds, i);
    }
    forall i | LastDefault(e, ds[1..], i) ensures SomeHolds(e, ds) {
      LastShift(e, ds, i + 1);
    }
    if Holds(e, ds[0].cond) && !SomeHolds(e, ds[1..]) {
      assert LastDefault(e, ds, 0);
    }
  }

  /** A number within the bounds. */
  ghost predicate Usable(k: Config, r: Option<(int, int)>, text: string, base: nat) {
    var n := k.nums.parse(text, base);
    n.Some? && (r.None? || r.value.0 <= n.value <= r.value.1)
  }

  function BaseOf(typ: Type): nat {
    if typ == Hex then 16 else 10
  }

  ghost predicate NumberIs(k: Config, e: Env, ds: seq<Default>, r: Option<(int, int)>, base: nat,
                           vis: Tri, user: Option<string>, o: Outcome)
  {
    if vis != N && user.Some? && Usable(k, r, user.value, base) then o == Outcome(user.value, true)
    else DefaultsGive(k, e, ds, r, base, "", vis != N, o)
  }

  lemma NumOutcomeIs(k: Config, u: User, e: Env, s: Sym, d: Symbol, r: Option<(int, int)>)
    requires (d.typ == Int || d.typ == Hex) && RangeIs(k, e, d.ranges, BaseOf(d.typ), r)
    ensures NumberIs(k, e, d.defaults, r, BaseOf(d.typ), SymVis(k, e, d), Get(u.vals, s), NumOutcome(k, u, e, s, d))
  {
    var base := BaseOf(d.typ);
    ActiveRangeIs(k, e, d.ranges, base);
    RangeIsUnique(k, e, d.ranges, base, r, ActiveRange(k, e, d.ranges, base));
    NumDefaultIs(k, e, d.defaults, r, base, "", SymVis(k, e, d) != N);
  }

  /** An int or hex symbol is what the user set, if it is visible and that is a number within the
      bounds in force; else its first default that holds and is a number, moved to the nearer bound
      if it is outside; else the lower bound if that is positive, else the last default that holds,
      or nothing. */
  lemma NumberLaw(k: Config, u: User, s: Sym, r: Option<(int, int)>)
    requires Acyclic(k) && UserValid(k, u) && s in k.syms && k.syms[s].special == None
    requires k.syms[s].typ == Int || k.syms[s].typ == Hex
    requires RangeIs(k, FullEnv(k, u), k.syms[s].ranges, BaseOf(k.syms[s].typ), r)
    ensures var d := k.syms[s];
            NumberIs(k, FullEnv(k, u), d.defaults, r, BaseOf(d.typ), VisOf(k, u, s), Get(u.vals, s), Recompute(k, u, s))
  {
    RecomputeIsFixpoint(k, u, s);
    NumOutcomeIs(k, u, FullEnv(k, u), s, k.syms[s], r);
  }

  lemma RangeIsUnique(k: Config, e: Env, rs: seq<Range>, base: nat, r: Option<(int, int)>, r': Option<(int, int)>)
    requires RangeIs(k, e, rs, base, r) && RangeIs(k, e, rs, base, r')
    ensures r == r'
  {
    if i :| FirstRange(e, rs, i) {
    }
  }

  // ---- Visibility --------------------------------------------------------

  /** t is the greatest of the conditions, "n" if there are none. */
  ghost predicate GreatestOf(e: Env, cs: seq<Cond>, t: Tri) {
    && (forall i | 0 <= i < |cs| :: e.Cond(cs[i]).Rank() <= t.Rank())
    && (t == N || exists i | 0 <= i < |cs| :: t == e.Cond(cs[i]))
  }

  lemma {:induction false} PromptVisIsGreatest(e: Env, cs: seq<Cond>)
    ensures GreatestOf(e, cs, PromptVis(e, cs))
    decreases |cs|
  {
    if cs != [] {
      var front := cs[..|cs| - 1];
      PromptVisIsGreatest(e, front);
      PromptVisPromoted(e, front);
      var t := PromptVis(e, cs);
      assert t == Max(PromptVis(e, front), e.Cond(cs[|cs| - 1]));
      forall i | 0 <= i < |cs| ensures e.Cond(cs[i]).Rank() <= t.Rank() {
        assert i < |front| ==> front[i] == cs[i];
      }
      if t != N && t != e.Cond(cs[|cs| - 1]) {
        var i :| 0 <= i < |front| && t == e.Cond(front[i]);
        assert cs[i] == front[i];
      }
    }
  }

  /** A symbol is as visible as the greatest of its prompt conditions, and in a choice at most as
      visible as that; what is not a tristate is visible or not. */
  lemma VisibilityLaw(k: Config, u: User, s: Sym, t: Tri)
    requires Acyclic(k) && s in k.syms && GreatestOf(FullEnv(k, u), k.syms[s].prompts, t)
    ensures k.syms[s].choice.Some? ==> k.syms[s].choice.value in k.choices
    ensures var d := k.syms[s];
            var bound := if d.choice.Some? then Min(t, ChoiceVisOf(k, u, d.choice.value)) else t;
            VisOf(k, u, s) == if bound == M && d.typ != Tristate then Y else bound
  {
    assert SymbolOk(k, s);
    var e, d := FullEnv(k, u), k.syms[s];
    PromptVisIsGreatest(e, d.prompts);
    PromptVisPromoted(e, d.prompts);
    GreatestIsUnique(e, d.prompts, t, PromptVis(e, d.prompts));
    if d.choice.Some? {
      PromptVisPromoted(e, k.choices[d.choice.value].prompts);
    }
  }

  lemma ChoiceVisibilityLaw(k: Config, u: User, id: nat, t: Tri)
    requires Acyclic(k) && id in k.choices && GreatestOf(FullEnv(k, u), k.choices[id].prompts, t)
    ensures ChoiceVisOf(k, u, id) == if t == M && k.choices[id].typ != Tristate then Y else t
  {
    var e, c := FullEnv(k, u), k.choices[id];
    PromptVisIsGreatest(e, c.prompts);
    GreatestIsUnique(e, c.prompts, t, PromptVis(e, c.prompts));
  }

  lemma GreatestIsUnique(e: Env, cs: seq<Cond>, t: Tri, t': Tri)
    requires GreatestOf(e, cs, t) && GreatestOf(e, cs, t')
    ensures t == t'
  {
  }
}
