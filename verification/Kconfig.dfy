/** A parsed Kconfig configuration and the value every symbol has, as docs/kconfiglib.py defines
    it, without any cache: visibilities, choice modes and selections, defaults, selects, ranges. */
module Kconfig {
  import opened Basics
  import opened KconfExpr

  datatype Type = Unknown | Bool | Tristate | String | Hex | Int

  datatype Default = Default(val: Expr, cond: Cond)

  datatype Range = Range(low: Operand, high: Operand, cond: Cond)

  /** A symbol after parsing. `special` is the fixed value of a symbol set from the environment
      or of n, m and y. `level` is its place in an evaluation order: one exists exactly when there
      are no circular references, and no value depends on the choice of it (module KconfLevels). */
  datatype Symbol = Symbol(
    typ: Type, prompts: seq<Cond>, defaults: seq<Default>, revDep: Expr, ranges: seq<Range>,
    choice: Option<nat>, special: Option<string>, level: nat)

  datatype ChoiceDefault = ChoiceDefault(sym: Sym, cond: Cond)

  datatype Choice = Choice(
    typ: Type, prompts: seq<Cond>, defaults: seq<ChoiceDefault>, actual: seq<Sym>, optional: bool, level: nat)

  /** Python's int(s, base), str(n) and hex(n), which the engine treats as given. */
  datatype Numerals = Numerals(parse: (string, nat) -> Option<int>, show: (int, nat) -> string)

  datatype Config = Config(syms: map<Sym, Symbol>, choices: map<nat, Choice>, nums: Numerals)

  /** What users assigned: values of symbols, and the selection and mode of choices. */
  datatype User = User(vals: map<Sym, string>, sel: map<nat, Sym>, mode: map<nat, Tri>)

  /** Everything an evaluation may look at. */
  datatype Env = Env(view: View, mods: bool) {
    function Cond(c: Cond): Tri {
      Eval(view, mods, c)
    }

    /** A tristate handed back to the evaluator as a constant. */
    function Again(t: Tri): Tri {
      Promote(mods, t)
    }

    function MinOf(a: Tri, b: Tri): Tri {
      Min(Again(a), Again(b))
    }
  }

  predicate IsTri(t: Type) {
    t == Bool || t == Tristate
  }

  function TriSyms(k: Config): set<Sym> {
    set s | s in k.syms && IsTri(k.syms[s].typ)
  }

  // ---- Visibility --------------------------------------------------------

  /** The maximum of the prompt conditions, "n" without prompts. */
  function PromptVis(env: Env, prompts: seq<Cond>): Tri {
    if prompts == [] then N
    else Max(env.Again(PromptVis(env, prompts[..|prompts| - 1])), env.Cond(prompts[|prompts| - 1]))
  }

  function NonTristate(t: Tri, typ: Type): Tri {
    if t == M && typ != Tristate then Y else t
  }

  function ChoiceVis(env: Env, c: Choice): Tri {
    NonTristate(PromptVis(env, c.prompts), c.typ)
  }

  function SymVis(k: Config, env: Env, d: Symbol): Tri {
    var vis := PromptVis(env, d.prompts);
    NonTristate(
      if d.choice.Some? && d.choice.value in k.choices
      then env.MinOf(vis, ChoiceVis(env, k.choices[d.choice.value])) else vis,
      d.typ)
  }

  // ---- Choices -----------------------------------------------------------

  function ModeOf(env: Env, c: Choice, userMode: Option<Tri>): Tri {
    var mode := if userMode.Some? then userMode.value else if c.optional then N else M;
    var mode := env.MinOf(mode, ChoiceVis(env, c));
    if mode == M && c.typ == Bool then Y else mode
  }

  function Visible(k: Config, env: Env, s: Sym): Tri {
    if s in k.syms then SymVis(k, env, k.syms[s]) else N
  }

  /** The first symbol of the list that is visible. */
  function FirstVisible(k: Config, env: Env, syms: seq<Sym>): Option<Sym> {
    if syms == [] then None
    else if Visible(k, env, syms[0]) != N then Some(syms[0])
    else FirstVisible(k, env, syms[1..])
  }

  /** The symbol of the first default whose condition holds, else the first actual symbol. */
  function DefaultSymbol(env: Env, defaults: seq<ChoiceDefault>, first: Sym): Sym {
    if defaults == [] then first
    else if env.Cond(defaults[0].cond) != N then defaults[0].sym
    else DefaultSymbol(env, defaults[1..], first)
  }

  /** `get_selection_from_defaults`. */
  function DefaultSelection(k: Config, env: Env, c: Choice): Option<Sym> {
    if c.actual == [] then None
    else
      var s := DefaultSymbol(env, c.defaults, c.actual[0]);
      if Visible(k, env, s) != N then Some(s) else FirstVisible(k, env, c.actual)
  }

  /** `get_selection`. */
  function Selection(k: Config, env: Env, c: Choice, userSel: Option<Sym>, userMode: Option<Tri>): Option<Sym> {
    if ModeOf(env, c, userMode) != Y then None
    else if userSel.Some? && Visible(k, env, userSel.value) == Y then userSel
    else if c.optional then None
    else DefaultSelection(k, env, c)
  }

  function Get<K, V>(m: map<K, V>, x: K): Option<V> {
    if x in m then Some(m[x]) else None
  }

  // ---- Values ------------------------------------------------------------

  /** A symbol's value and whether it gets a line in .config. */
  datatype Outcome = Outcome(val: string, write: bool)

  /** A symbol of a choice. */
  function ChoiceTri(k: Config, u: User, env: Env, s: Sym, id: nat, c: Choice, vis: Tri): (Tri, bool) {
    if vis == N then (N, false)
    else
      var mode := ModeOf(env, c, Get(u.mode, id));
      if mode == Y then
        (if Selection(k, env, c, Get(u.sel, id), Get(u.mode, id)) == Some(s) then Y else N, true)
      else if mode == M then
        (if Get(u.vals, s) == Some("m") || Get(u.vals, s) == Some("y") then M else N, true)
      else (N, false)
  }

  /** The first default whose condition holds, bounded by that condition. */
  function TriDefault(env: Env, defaults: seq<Default>): Option<Tri> {
    if defaults == [] then None
    else if env.Cond(defaults[0].cond) != N then
      Some(Min(env.Cond(Some(defaults[0].val)), env.Again(env.Cond(defaults[0].cond))))
    else TriDefault(env, defaults[1..])
  }

  /** The user value of a visible symbol, else its default. */
  function OwnTri(env: Env, d: Symbol, user: Option<string>, vis: Tri): (Tri, bool) {
    var dflt := TriDefault(env, d.defaults);
    (if vis != N && user.Some? then env.MinOf(ToTri(user.value), vis)
     else if dflt.Some? then dflt.value else N,
     vis != N || dflt.Some?)
  }

  /** A bool or tristate outside choices: its own value, raised by selects. */
  function PlainTri(env: Env, d: Symbol, user: Option<string>, vis: Tri): (Tri, bool) {
    var own := OwnTri(env, d, user, vis);
    var rev := env.Cond(Some(d.revDep));
    if rev != N then (Max(env.Again(own.0), env.Again(rev)), true) else own
  }

  function TriOutcome(k: Config, u: User, env: Env, s: Sym, d: Symbol): Outcome {
    var vis := SymVis(k, env, d);
    var r :=
      if d.choice.Some? then
        (if d.choice.value in k.choices
         then ChoiceTri(k, u, env, s, d.choice.value, k.choices[d.choice.value], vis) else (N, false))
      else PlainTri(env, d, Get(u.vals, s), vis);
    Outcome((if r.0 == M && d.typ == Bool then Y else r.0).Text(), r.1)
  }

  /** A default of a string, int or hex symbol is a symbol or a constant. */
  function ExprStr(v: View, e: Expr): string {
    match e
    case ESym(s) => v.Val(s)
    case EStr(t) => t
    case _ => ""
  }

  function StrDefault(env: Env, defaults: seq<Default>): Option<string> {
    if defaults == [] then None
    else if env.Cond(defaults[0].cond) != N then Some(ExprStr(env.view, defaults[0].val))
    else StrDefault(env, defaults[1..])
  }

  function StrOutcome(k: Config, u: User, env: Env, s: Sym, d: Symbol): Outcome {
    var vis := SymVis(k, env, d);
    var dflt := StrDefault(env, d.defaults);
    if vis != N && s in u.vals then Outcome(u.vals[s], true)
    else if dflt.Some? then Outcome(dflt.value, true)
    else Outcome("", vis != N)
  }

  function Base(typ: Type): nat {
    if typ == Hex then 16 else 10
  }

  function NumOr0(k: Config, v: string, base: nat): int {
    var n := k.nums.parse(v, base);
    if n.Some? then n.value else 0
  }

  /** The bounds of the first range whose condition holds. */
  function ActiveRange(k: Config, env: Env, ranges: seq<Range>, base: nat): Option<(int, int)> {
    if ranges == [] then None
    else if env.Cond(ranges[0].cond) != N then
      Some((NumOr0(k, StrVal(env.view, ranges[0].low), base), NumOr0(k, StrVal(env.view, ranges[0].high), base)))
    else ActiveRange(k, env, ranges[1..], base)
  }

  predicate InRange(range: Option<(int, int)>, n: int) {
    range.Some? ==> range.value.0 <= n <= range.value.1
  }

  /** A usable default is clamped to the range, and printed anew only then. */
  function Clamped(k: Config, range: Option<(int, int)>, v: string, n: int, base: nat): string {
    if range.None? then v
    else if n < range.value.0 then k.nums.show(range.value.0, base)
    else if n > range.value.1 then k.nums.show(range.value.1, base)
    else v
  }

  /** Defaults of a number: an active default that is not a number is kept only while no later
      one is, and without any number the lower end of a positive range wins. `v` and `write` are
      what earlier defaults left. */
  function NumDefault(k: Config, env: Env, defaults: seq<Default>, range: Option<(int, int)>, base: nat,
                      v: string, write: bool): Outcome
  {
    if defaults == [] then
      Outcome(if range.Some? && range.value.0 > 0 then k.nums.show(range.value.0, base) else v, write)
    else if env.Cond(defaults[0].cond) != N then
      var w := ExprStr(env.view, defaults[0].val);
      var n := k.nums.parse(w, base);
      if n.Some? then Outcome(Clamped(k, range, w, n.value, base), true)
      else NumDefault(k, env, defaults[1..], range, base, w, true)
    else NumDefault(k, env, defaults[1..], range, base, v, write)
  }

  /** A user value counts when it is a number within the active range. */
  predicate UsableNumber(k: Config, range: Option<(int, int)>, user: Option<string>, base: nat) {
    && user.Some?
    && k.nums.parse(user.value, base).Some?
    && InRange(range, k.nums.parse(user.value, base).value)
  }

  function NumOutcome(k: Config, u: User, env: Env, s: Sym, d: Symbol): Outcome {
    var vis := SymVis(k, env, d);
    var base := Base(d.typ);
    var range := ActiveRange(k, env, d.ranges, base);
    if vis != N && UsableNumber(k, range, Get(u.vals, s), base) then Outcome(u.vals[s], true)
    else NumDefault(k, env, d.defaults, range, base, "", vis != N)
  }

  /** `get_value` and `write_to_conf` in one environment. Undefined symbols are their own name. */
  function ValueIn(k: Config, u: User, env: Env, s: Sym, d: Symbol): Outcome {
    if d.special.Some? then Outcome(d.special.value, false)
    else match d.typ
      case Unknown => Outcome(s, false)
      case Bool => TriOutcome(k, u, env, s, d)
      case Tristate => TriOutcome(k, u, env, s, d)
      case String => StrOutcome(k, u, env, s, d)
      case Hex => NumOutcome(k, u, env, s, d)
      case Int => NumOutcome(k, u, env, s, d)
  }

  // ---- References and levels ---------------------------------------------

  function CondsSyms(cs: seq<Cond>): set<Sym> {
    set i, s | 0 <= i < |cs| && s in CondSyms(cs[i]) :: s
  }

  function DefaultsSyms(ds: seq<Default>): set<Sym> {
    set i, s | 0 <= i < |ds| && s in Syms(ds[i].val) + CondSyms(ds[i].cond) :: s
  }

  function RangesSyms(rs: seq<Range>): set<Sym> {
    set i, s | 0 <= i < |rs| && s in OperandSyms(rs[i].low) + OperandSyms(rs[i].high) + CondSyms(rs[i].cond) :: s
  }

  function ChoiceSyms(c: Choice): set<Sym> {
    CondsSyms(c.prompts) + set i, s | 0 <= i < |c.defaults| && s in CondSyms(c.defaults[i].cond) :: s
  }

  /** The symbols whose `dep` set `_build_dep` puts this one into. */
  function Refs(k: Config, d: Symbol): set<Sym> {
    CondsSyms(d.prompts) + DefaultsSyms(d.defaults) + Syms(d.revDep) + RangesSyms(d.ranges)
    + if d.choice.Some? && d.choice.value in k.choices then ChoiceSyms(k.choices[d.choice.value]) else {}
  }

  /** MODULES, if it is there, is constant or a bool driven by constants and the user alone. */
  predicate PlainModules(d: Symbol) {
    && (forall i | 0 <= i < |d.prompts| :: d.prompts[i] == None)
    && (|| d.special.Some?
        || d.typ == Unknown
        || (&& d.typ == Bool
            && (forall i | 0 <= i < |d.defaults| ::
                  d.defaults[i].cond == None && (d.defaults[i].val == EStr("y") || d.defaults[i].val == EStr("n")))
            && d.revDep == EStr("n")))
  }

  predicate Lower(k: Config, t: Sym, level: nat) {
    t in k.syms && k.syms[t].level < level
  }

  /** References are to known symbols of a lower level; a symbol of a choice shares its level; a
      special symbol has no prompt (the source never invalidates anything about it). */
  ghost predicate SymbolOk(k: Config, s: Sym)
    requires s in k.syms
  {
    var d := k.syms[s];
    && (forall t <- Refs(k, d) :: Lower(k, t, d.level))
    && (d.choice.Some? ==>
          && d.special == None
          && d.choice.value in k.choices
          && k.choices[d.choice.value].level == d.level
          && s in k.choices[d.choice.value].actual)
    && (d.special.Some? ==> d.prompts == [])
    && (s != MODULES && MODULES in k.syms ==> k.syms[MODULES].level < d.level)
  }

  /** A choice has symbols, and only they are its defaults. */
  ghost predicate ChoiceOk(k: Config, c: nat)
    requires c in k.choices
  {
    && k.choices[c].actual != []
    && (forall i | 0 <= i < |k.choices[c].actual| :: Member(k, k.choices[c].actual[i], c))
    && (forall i | 0 <= i < |k.choices[c].defaults| :: Member(k, k.choices[c].defaults[i].sym, c))
  }

  ghost predicate ModulesOk(k: Config) {
    MODULES in k.syms ==>
      PlainModules(k.syms[MODULES]) && Refs(k, k.syms[MODULES]) == {} && k.syms[MODULES].choice == None
  }

  /** What the engine assumes of a configuration. */
  ghost predicate Acyclic(k: Config) {
    && (forall s {:trigger SymbolOk(k, s)} | s in k.syms :: SymbolOk(k, s))
    && (forall c {:trigger ChoiceOk(k, c)} | c in k.choices :: ChoiceOk(k, c))
    && ModulesOk(k)
  }

  predicate Member(k: Config, s: Sym, c: nat) {
    s in k.syms && k.syms[s].choice == Some(c)
  }

  /** All that the value of a symbol is computed from: its own references, those of its siblings'
      prompts, and MODULES. */
  function Sources(k: Config, s: Sym): (R: set<Sym>)
    requires s in k.syms
  {
    var d := k.syms[s];
    Refs(k, d)
    + (if d.choice.Some? && d.choice.value in k.choices then SiblingRefs(k, k.choices[d.choice.value]) else {})
    + if MODULES in k.syms && s != MODULES then {MODULES} else {}
  }

  function SiblingRefs(k: Config, c: Choice): set<Sym> {
    set i, t | 0 <= i < |c.actual| && c.actual[i] in k.syms && t in CondsSyms(k.syms[c.actual[i]].prompts) :: t
  }

  lemma SourcesAreLower(k: Config, s: Sym)
    requires Acyclic(k) && s in k.syms
    ensures forall t <- Sources(k, s) :: t in k.syms && k.syms[t].level < k.syms[s].level
  {
    assert SymbolOk(k, s);
    forall t | t in Sources(k, s)
      ensures t in k.syms && k.syms[t].level < k.syms[s].level
    {
      var d := k.syms[s];
      if t in Refs(k, d) {
        assert Lower(k, t, d.level);
      } else if t != MODULES || s == MODULES || MODULES !in k.syms {
        var c := k.choices[d.choice.value];
        var i :| 0 <= i < |c.actual| && c.actual[i] in k.syms && t in CondsSyms(k.syms[c.actual[i]].prompts);
        assert ChoiceOk(k, d.choice.value) && Member(k, c.actual[i], d.choice.value);
        assert SymbolOk(k, c.actual[i]);
        assert t in Refs(k, k.syms[c.actual[i]]) && Lower(k, t, k.syms[c.actual[i]].level);
      }
    }
  }

  // ---- Recomputation -----------------------------------------------------

  /** The environment in which s is evaluated, from values of (at least) its sources. MODULES itself
      never meets an "m", so modules count as off there. */
  function EnvFor(k: Config, vals: map<Sym, string>, s: Sym): Env {
    Env(View(TriSyms(k), vals), s != MODULES && MODULES in k.syms && Get(vals, MODULES) == Some("y"))
  }

  /** The value of a symbol computed from the user's assignments alone, everything anew. */
  ghost function Recompute(k: Config, u: User, s: Sym): Outcome
    requires Acyclic(k) && s in k.syms
    decreases k.syms[s].level, 1
  {
    ValueIn(k, u, EnvFor(k, SourceValues(k, u, s), s), s, k.syms[s])
  }

  ghost function SourceValues(k: Config, u: User, s: Sym): map<Sym, string>
    requires Acyclic(k) && s in k.syms
    decreases k.syms[s].level, 0
  {
    SourcesAreLower(k, s);
    map t | t in Sources(k, s) :: Recompute(k, u, t).val
  }

  /** All values at once. */
  ghost function Values(k: Config, u: User): map<Sym, string>
    requires Acyclic(k)
  {
    map s | s in k.syms :: Recompute(k, u, s).val
  }

  ghost function FullEnv(k: Config, u: User): Env
    requires Acyclic(k)
  {
    var vals := Values(k, u);
    Env(View(TriSyms(k), vals), Get(vals, MODULES) == Some("y"))
  }
}
