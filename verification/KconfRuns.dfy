/** Whole sessions with the engine of docs/kconfiglib.py: any sequence of assignments and queries
    answers as if nothing were ever cached. */
module KconfRuns {
  import opened Basics
  import opened KconfExpr
  import opened Kconfig
  import opened KconfFrame
  import opened KconfDeps
  import opened KconfCache

  datatype Op = Set(s: Sym, v: string) | Unset(s: Sym) | Value(s: Sym) | Visibility(s: Sym) | Pick(id: nat)

  datatype Answer = NoAnswer | AValue(v: string) | AVisibility(t: Tri) | APick(sel: Option<Sym>)

  predicate Known(k: Config, op: Op) {
    match op
    case Set(s, _) => s in k.syms
    case Unset(s) => s in k.syms
    case Value(s) => s in k.syms
    case Visibility(s) => s in k.syms
    case Pick(id) => id in k.choices
  }

  function Assign(k: Config, u: User, op: Op): User
    requires Known(k, op)
  {
    match op
    case Set(s, v) => SetUser(k, u, s, v)
    case Unset(s) => UnsetUser(k, u, s)
    case _ => u
  }

  /** What a cache-free engine answers. */
  ghost function Expected(k: Config, u: User, op: Op): Answer
    requires Acyclic(k) && Known(k, op)
  {
    match op
    case Value(s) => AValue(Recompute(k, u, s).val)
    case Visibility(s) => AVisibility(VisOf(k, u, s))
    case Pick(id) => APick(SelectionOf(k, u, id))
    case _ => NoAnswer
  }

  ghost predicate AllKnown(k: Config, ops: seq<Op>) {
    forall i | 0 <= i < |ops| :: Known(k, ops[i])
  }

  /** The user assignments after the first n operations. */
  ghost function UserAt(k: Config, u: User, ops: seq<Op>, n: nat): User
    requires n <= |ops| && AllKnown(k, ops)
  {
    if n == 0 then u else Assign(k, UserAt(k, u, ops, n - 1), ops[n - 1])
  }

  /** Unsetting MODULES, where it happens, does not change its value. */
  ghost predicate ModulesSteady(k: Config, u: User, ops: seq<Op>)
    requires Acyclic(k) && AllKnown(k, ops)
  {
    forall i {:trigger UserAt(k, u, ops, i)} | 0 <= i < |ops| && ops[i] == Unset(MODULES) ::
      ModulesSame(k, UserAt(k, u, ops, i), Assign(k, UserAt(k, u, ops, i), ops[i]))
  }

  /** The cache-free answers to the first n operations, each from the assignments of its moment. */
  ghost function RightAnswers(k: Config, u: User, ops: seq<Op>, n: nat): seq<Answer>
    requires Acyclic(k) && AllKnown(k, ops) && n <= |ops|
  {
    if n == 0 then [] else RightAnswers(k, u, ops, n - 1) + [Expected(k, UserAt(k, u, ops, n - 1), ops[n - 1])]
  }

  /** Under any interleaving of set_user_value, unset_user_value and the queries, every answer is
      the cache-free recomputation from the user values of that moment, and every cached entry is
      too at the end. Unsetting MODULES is the exception: only while it keeps its value. */
  method Session(e: Engine, ops: seq<Op>) returns (answers: seq<Answer>)
    requires e.Valid() && AllKnown(e.k, ops) && ModulesSteady(e.k, e.user, ops)
    modifies e
    ensures e.Valid() && e.user == UserAt(e.k, old(e.user), ops, |ops|)
    ensures answers == RightAnswers(e.k, old(e.user), ops, |ops|)
  {
    answers := [];
    ghost var u := e.user;
    for i := 0 to |ops|
      invariant e.Valid() && e.user == UserAt(e.k, u, ops, i)
      invariant answers == RightAnswers(e.k, u, ops, i)
    {
      OpIsFit(e.k, u, ops, i);
      var a := Do(e, ops[i]);
      answers := answers + [a];
    }
  }

  lemma OpIsFit(k: Config, u: User, ops: seq<Op>, i: nat)
    requires Acyclic(k) && AllKnown(k, ops) && ModulesSteady(k, u, ops) && i < |ops|
    ensures Known(k, ops[i])
    ensures ops[i] == Unset(MODULES) ==> ModulesSame(k, UserAt(k, u, ops, i), Assign(k, UserAt(k, u, ops, i), ops[i]))
    ensures UserAt(k, u, ops, i + 1) == Assign(k, UserAt(k, u, ops, i), ops[i])
  {
  }

  method Do(e: Engine, op: Op) returns (a: Answer)
    requires e.Valid() && Known(e.k, op)
    requires op == Unset(MODULES) ==> ModulesSame(e.k, e.user, Assign(e.k, e.user, op))
    modifies e
    ensures e.Valid() && e.user == Assign(e.k, old(e.user), op)
    ensures a == Expected(e.k, old(e.user), op)
  {
    match op {
      case Set(s, v) =>
        e.SetUserValue(s, v);
        a := NoAnswer;
      case Unset(s) =>
        e.UnsetUserValue(s);
        a := NoAnswer;
      case Value(s) =>
        var v := e.GetValue(s);
        a := AValue(v);
      case Visibility(s) =>
        var t := e.GetVisibility(s);
        a := AVisibility(t);
      case Pick(id) =>
        var r := e.GetSelection(id);
        a := APick(r);
    }
  }

  // ---- Unsetting MODULES -------------------------------------------------

  /** A configuration with MODULES and one tristate, both with an unconditional prompt. */
  function Sample(nums: Numerals): Config {
    Config(map[MODULES := Symbol(Bool, [None], [], EStr("n"), [], None, None, 0),
               "A" := Symbol(Tristate, [None], [], EStr("n"), [], None, None, 1)],
           map[], nums)
  }

  lemma SampleIsAcyclic(nums: Numerals)
    ensures Acyclic(Sample(nums))
  {
    var k := Sample(nums);
    forall s | s in k.syms
      ensures SymbolOk(k, s)
    {
      assert Refs(k, k.syms[s]) == {};
    }
  }

  const USER: User := User(map[MODULES := "y", "A" := "m"], map[], map[])

  lemma SampleModules(nums: Numerals, u: User)
    requires u == USER || u == UnsetUser(Sample(nums), USER, MODULES)
    ensures Acyclic(Sample(nums))
    ensures Recompute(Sample(nums), u, MODULES).val == if u == USER then "y" else "n"
  {
    SampleIsAcyclic(nums);
    var k := Sample(nums);
    var e := EnvFor(k, SourceValues(k, u, MODULES), MODULES);
    PlainPrompts(e.view, e.mods, e.mods, [None]);
  }

  lemma SampleA(nums: Numerals, u: User)
    requires u == USER || u == UnsetUser(Sample(nums), USER, MODULES)
    ensures Acyclic(Sample(nums))
    ensures Recompute(Sample(nums), u, "A") == Outcome(if u == USER then "m" else "y", true)
  {
    SampleModules(nums, u);
    var k := Sample(nums);
    assert Sources(k, "A") == {MODULES};
    var vals := SourceValues(k, u, "A");
    assert vals[MODULES] == Recompute(k, u, MODULES).val;
    var e := EnvFor(k, vals, "A");
    PlainPrompts(e.view, e.mods, e.mods, [None]);
    assert SymVis(k, e, k.syms["A"]) == Y;
    assert TriDefault(e, []) == None;
  }

  /** When unsetting MODULES does change its value, the cached value of a symbol that never
      mentions it goes stale: here "m" stays cached where recomputation gives "y". */
  lemma UnsetModulesLeavesStale(nums: Numerals)
    ensures var k := Sample(nums);
            var c := Cache(map["A" := "m"], {"A"}, map[], map[], map[]);
            && Acyclic(k) && UserValid(k, USER) && Coherent(k, USER, c)
            && !Coherent(k, UnsetUser(k, USER, MODULES), Drop(k, c, Affected(k, MODULES)))
  {
    var k := Sample(nums);
    SampleIsAcyclic(nums);
    var c := Cache(map["A" := "m"], {"A"}, map[], map[], map[]);
    var w := UnsetUser(k, USER, MODULES);
    SampleA(nums, USER);
    SampleA(nums, w);
    ClosureIsReachability(k, MODULES);
    assert Dep(k, MODULES) == {};
    assert Gathered(k, Group(k, MODULES)) == {};
    assert "A" in Drop(k, c, Affected(k, MODULES)).val;
  }
}
