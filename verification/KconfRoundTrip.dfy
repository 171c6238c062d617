/** The values of a configuration survive being written to .config and loaded again, when modules
    are not in play (docs/kconfiglib.py). */
module KconfRoundTrip {
  import opened Basics
  import opened KconfExpr
  import opened Kconfig
  import opened KconfFrame
  import opened KconfCache
  import opened KconfChoice
  import opened KconfText
  import opened KconfFile

  /** MODULES is not defined; it may still be mentioned. */
  predicate ModulesOff(k: Config) {
    MODULES in k.syms ==> k.syms[MODULES].typ == Unknown && k.syms[MODULES].special == None
  }

  lemma ModulesAreOff(k: Config, u: User)
    requires Acyclic(k) && ModulesOff(k)
    ensures !FullEnv(k, u).mods
  {
  }

  // ---- Without modules nothing is "m" ------------------------------------

  lemma {:induction false} PromptVisNotM(e: Env, prompts: seq<Cond>)
    requires !e.mods
    ensures PromptVis(e, prompts) != M
  {
  }

  lemma VisNotM(k: Config, e: Env, d: Symbol)
    requires !e.mods
    ensures SymVis(k, e, d) != M
  {
    PromptVisNotM(e, d.prompts);
  }

  lemma ModeNotM(e: Env, c: Choice, mode: Option<Tri>)
    requires !e.mods
    ensures ChoiceVis(e, c) != M && ModeOf(e, c, mode) != M
  {
    PromptVisNotM(e, c.prompts);
  }

  lemma {:induction false} DefaultNotM(e: Env, ds: seq<Default>)
    requires !e.mods
    ensures TriDefault(e, ds).Some? ==> TriDefault(e, ds).value != M
  {
    if ds != [] {
      DefaultNotM(e, ds[1..]);
    }
  }

  // ---- One symbol --------------------------------------------------------

  /** What the loader sets for an outcome: the value if it was written and is acceptable. */
  ghost predicate Kept(k: Config, typ: Type, r: Outcome, user: Option<string>) {
    user == if r.write && ValidValue(k, typ, r.val) then Some(r.val) else None
  }

  lemma PlainSame(k: Config, e: Env, d: Symbol, user: Option<string>, vis: Tri, user': Option<string>)
    requires !e.mods && vis != M && IsTri(d.typ)
    requires var r := PlainTri(e, d, user, vis); Kept(k, d.typ, Outcome(r.0.Text(), r.1), user')
    ensures PlainTri(e, d, user, vis).0 != M
    ensures PlainTri(e, d, user', vis).0 == PlainTri(e, d, user, vis).0
  {
    DefaultNotM(e, d.defaults);
  }

  lemma StrSame(k: Config, u: User, w: User, e: Env, s: Sym, d: Symbol)
    requires d.typ == String && Kept(k, d.typ, StrOutcome(k, u, e, s, d), Get(w.vals, s))
    ensures StrOutcome(k, w, e, s, d).val == StrOutcome(k, u, e, s, d).val
  {
  }

  lemma {:induction false} NumDefaultWrites(k: Config, e: Env, ds: seq<Default>, range: Option<(int, int)>, base: nat, v: string)
    ensures NumDefault(k, e, ds, range, base, v, true).write
    decreases |ds|
  {
    if ds != [] {
      NumDefaultWrites(k, e, ds[1..], range, base, ExprStr(e.view, ds[0].val));
      NumDefaultWrites(k, e, ds[1..], range, base, v);
    }
  }

  /** A number reloaded is either in range, and used as it is, or refused, and computed again. */
  lemma NumSame(k: Config, u: User, w: User, e: Env, s: Sym, d: Symbol)
    requires d.typ == Int || d.typ == Hex
    requires Kept(k, d.typ, NumOutcome(k, u, e, s, d), Get(w.vals, s))
    ensures NumOutcome(k, w, e, s, d).val == NumOutcome(k, u, e, s, d).val
  {
    var base := Base(d.typ);
    NumDefaultWrites(k, e, d.defaults, ActiveRange(k, e, d.ranges, base), base, "");
  }

  /** The selection and mode a reloaded choice ends up with: those of the symbol that was "y". */
  ghost predicate ChoiceKept(k: Config, id: nat, sel: Option<Sym>, w: User) {
    if sel.Some? then Get(w.sel, id) == sel && Get(w.mode, id) == Some(Y)
    else Get(w.sel, id) == None && Get(w.mode, id) == None
  }

  lemma ChoiceSame(k: Config, u: User, w: User, e: Env, s: Sym, id: nat, vis: Tri)
    requires Acyclic(k) && !e.mods && Member(k, s, id) && id in k.choices && vis == SymVis(k, e, k.syms[s])
    requires UserValid(k, u)
    requires var sel := Selection(k, e, k.choices[id], Get(u.sel, id), Get(u.mode, id)); ChoiceKept(k, id, sel, w)
    ensures ChoiceTri(k, w, e, s, id, k.choices[id], vis).0 == ChoiceTri(k, u, e, s, id, k.choices[id], vis).0 != M
  {
    var c := k.choices[id];
    var sel := Selection(k, e, c, Get(u.sel, id), Get(u.mode, id));
    ModeNotM(e, c, Get(u.mode, id));
    ModeNotM(e, c, Get(w.mode, id));
    VisNotM(k, e, k.syms[s]);
    if sel.Some? {
      SelectedIsVisibleMember(k, e, id, Get(u.sel, id), Get(u.mode, id));
      VisNotM(k, e, k.syms[sel.value]);
      assert Visible(k, e, sel.value) == Y;
    } else if vis != N && ModeOf(e, c, Get(u.mode, id)) == Y && !c.optional {
      VisibleMeansSelected(k, e, id, Get(u.sel, id), Get(u.mode, id), s);
    } else if vis != N {
      UnselectedStaysUnselected(k, e, c, Get(u.mode, id));
    }
  }

  /** With nothing selected and no assignments, an optional choice is off, and any other choice is
      in the mode it was in. */
  lemma UnselectedStaysUnselected(k: Config, e: Env, c: Choice, mode: Option<Tri>)
    requires !e.mods
    ensures c.optional ==> ModeOf(e, c, None) == N
    ensures !c.optional && ModeOf(e, c, mode) == N && mode != Some(N) ==> ModeOf(e, c, None) == N
  {
    PromptVisNotM(e, c.prompts);
  }

  // ---- All symbols -------------------------------------------------------

  /** Every symbol that is written occurs in the file order, exactly once. */
  ghost predicate FileOrder(k: Config, out: Outcomes, order: seq<Sym>) {
    && Covers(k, out, order)
    && (forall i, j | 0 <= i < j < |order| :: order[i] != order[j])
    && (forall s | s in k.syms && s in out && out[s].write :: s in order)
  }

  ghost predicate ChoicesAreTri(k: Config) {
    forall s | s in k.syms && k.syms[s].choice.Some? :: IsTri(k.syms[s].typ)
  }

  lemma OutcomesHaveNoM(k: Config, u: User)
    requires Acyclic(k) && UserValid(k, u) && ModulesOff(k) && ChoicesAreTri(k)
    ensures NoChoiceM(k, AllOutcomes(k, u))
  {
    ModulesAreOff(k, u);
    forall s | s in k.syms && k.syms[s].choice.Some?
      ensures AllOutcomes(k, u)[s].val != "m"
    {
      assert SymbolOk(k, s);
      var id := k.syms[s].choice.value;
      ChoiceValue(k, u, id, s);
      ModeNotM(FullEnv(k, u), k.choices[id], Get(u.mode, id));
    }
  }

  /** The facts about a reloaded user state that the per-symbol lemmas use. */
  ghost predicate Faithful(k: Config, u: User, w: User)
    requires Acyclic(k)
  {
    && (forall s | s in k.syms :: Get(w.vals, s) == Accepted(k, AllOutcomes(k, u), s))
    && (forall id | id in k.choices :: ChoiceKept(k, id, SelectionOf(k, u, id), w))
  }

  lemma WrittenOnceIsSeen(k: Config, out: Outcomes, order: seq<Sym>, w: User, s: Sym)
    requires FileOrder(k, out, order) && s in k.syms && s in out
    requires Within(k, out, Seen(order, |order|)) && Reloaded(k, out, Seen(order, |order|), w)
    ensures Get(w.vals, s) == Accepted(k, out, s)
  {
    if s in order {
      var i :| 0 <= i < |order| && order[i] == s;
      assert s in Seen(order, |order|);
    } else {
      assert s !in Seen(order, |order|);
    }
  }

  /** A choice elects the symbol that was selected: it is the only one written "y". */
  lemma ElectedIsSelected(k: Config, u: User, order: seq<Sym>, w: User, id: nat)
    requires Acyclic(k) && UserValid(k, u) && ModulesOff(k) && ChoicesAreTri(k) && id in k.choices
    requires FileOrder(k, AllOutcomes(k, u), order)
    requires Within(k, AllOutcomes(k, u), Seen(order, |order|)) && Reloaded(k, AllOutcomes(k, u), Seen(order, |order|), w)
    ensures ChoiceKept(k, id, SelectionOf(k, u, id), w)
  {
    var out, done := AllOutcomes(k, u), Seen(order, |order|);
    var sel := SelectionOf(k, u, id);
    if sel.Some? {
      SelectedIsWritten(k, u, id);
      var x := sel.value;
      var i :| 0 <= i < |order| && order[i] == x;
      assert x in done && Elected(k, out, done, id, x);
    }
    if id in w.sel {
      ElectedWasY(k, u, id, w.sel[id]);
    }
  }

  /** The selected symbol gets a line that says "y". */
  lemma SelectedIsWritten(k: Config, u: User, id: nat)
    requires Acyclic(k) && UserValid(k, u) && ModulesOff(k) && ChoicesAreTri(k) && id in k.choices
    requires SelectionOf(k, u, id).Some?
    ensures var x := SelectionOf(k, u, id).value;
            Member(k, x, id) && AllOutcomes(k, u)[x].write && Accepted(k, AllOutcomes(k, u), x) == Some("y")
  {
    SelectedIsVisibleMember(k, FullEnv(k, u), id, Get(u.sel, id), Get(u.mode, id));
    var x := SelectionOf(k, u, id).value;
    assert SymbolOk(k, x);
    OnlySelectedIsY(k, u, id, x);
    ChoiceValue(k, u, id, x);
  }

  lemma ElectedWasY(k: Config, u: User, id: nat, x: Sym)
    requires Acyclic(k) && UserValid(k, u) && ModulesOff(k) && ChoicesAreTri(k) && id in k.choices
    requires Member(k, x, id) && Val(k, u, x) == "y"
    ensures SelectionOf(k, u, id) == Some(x)
  {
    ModulesAreOff(k, u);
    ModeNotM(FullEnv(k, u), k.choices[id], Get(u.mode, id));
    ChoiceValue(k, u, id, x);
    if Mode(k, u, id) == Y {
      OnlySelectedIsY(k, u, id, x);
    }
  }

  /** The reloaded assignments give each symbol the value it had, among the values of the others. */
  lemma SameValueIn(k: Config, u: User, w: User, s: Sym)
    requires Acyclic(k) && UserValid(k, u) && ModulesOff(k) && ChoicesAreTri(k) && s in k.syms && Faithful(k, u, w)
    ensures ValueIn(k, w, FullEnv(k, u), s, k.syms[s]).val == Val(k, u, s)
  {
    RecomputeIsFixpoint(k, u, s);
    ModulesAreOff(k, u);
    var e, d := FullEnv(k, u), k.syms[s];
    assert SymbolOk(k, s);
    VisNotM(k, e, d);
    if d.special == None {
      match d.typ
      case Unknown =>
      case Bool => TriSame(k, u, w, e, s, d);
      case Tristate => TriSame(k, u, w, e, s, d);
      case String => StrSame(k, u, w, e, s, d);
      case Hex => NumSame(k, u, w, e, s, d);
      case Int => NumSame(k, u, w, e, s, d);
    }
  }

  lemma TriSame(k: Config, u: User, w: User, e: Env, s: Sym, d: Symbol)
    requires Acyclic(k) && UserValid(k, u) && !e.mods && s in k.syms && d == k.syms[s] && IsTri(d.typ)
    requires Kept(k, d.typ, TriOutcome(k, u, e, s, d), Get(w.vals, s))
    requires d.choice.Some? ==>
      && d.choice.value in k.choices
      && ChoiceKept(k, d.choice.value,
           Selection(k, e, k.choices[d.choice.value], Get(u.sel, d.choice.value), Get(u.mode, d.choice.value)), w)
    ensures TriOutcome(k, w, e, s, d).val == TriOutcome(k, u, e, s, d).val
  {
    VisNotM(k, e, d);
    var vis := SymVis(k, e, d);
    if d.choice.Some? {
      ChoiceSame(k, u, w, e, s, d.choice.value, vis);
    } else {
      PlainNotM(e, d, Get(u.vals, s), vis);
      PlainSame(k, e, d, Get(u.vals, s), vis, Get(w.vals, s));
    }
  }

  lemma PlainNotM(e: Env, d: Symbol, user: Option<string>, vis: Tri)
    requires !e.mods && vis != M
    ensures PlainTri(e, d, user, vis).0 != M
  {
    DefaultNotM(e, d.defaults);
  }

  /** Values that satisfy every symbol's own equation are the recomputed ones. */
  lemma {:induction false} FixpointIsUnique(k: Config, u: User, w: User, s: Sym)
    requires Acyclic(k) && ModulesOff(k) && UserValid(k, w) && s in k.syms
    requires forall t | t in k.syms :: ValueIn(k, w, FullEnv(k, u), t, k.syms[t]).val == Val(k, u, t)
    ensures Val(k, w, s) == Val(k, u, s)
    decreases k.syms[s].level
  {
    SourcesAreLower(k, s);
    forall t | t in Sources(k, s)
      ensures Val(k, w, t) == Val(k, u, t)
    {
      FixpointIsUnique(k, u, w, t);
    }
    ModulesAreOff(k, u);
    var part := EnvFor(k, SourceValues(k, w, s), s);
    assert !part.mods;
    assert EnvAgree(part, FullEnv(k, u), Sources(k, s));
    ValueFrame(k, w, w, part, FullEnv(k, u), s);
  }

  lemma {:induction false} ReloadIsValid(k: Config, out: Outcomes, order: seq<Sym>, n: nat)
    requires n <= |order| && Covers(k, out, order)
    ensures UserValid(k, Reload(k, out, order, n))
  {
    if n > 0 {
      ReloadIsValid(k, out, order, n - 1);
      SetUserDiffers(k, Reload(k, out, order, n - 1), order[n - 1], out[order[n - 1]].val);
    }
  }

  /** The loaded user state is faithful to the written one. */
  lemma LoadedIsFaithful(k: Config, u: User, order: seq<Sym>)
    requires Acyclic(k) && UserValid(k, u) && ModulesOff(k) && ChoicesAreTri(k)
    requires FileOrder(k, AllOutcomes(k, u), order) && Expressible(k, AllOutcomes(k, u), order)
    ensures var r := Load(k, NOBODY, Text(ConfLines(k, AllOutcomes(k, u), order, |order|)));
            r.Some? && UserValid(k, r.value) && Faithful(k, u, r.value)
  {
    var out := AllOutcomes(k, u);
    TextIsLoaded(k, out, order);
    OutcomesHaveNoM(k, u);
    ReloadIsReloaded(k, out, order, |order|);
    var w := Reload(k, out, order, |order|);
    ReloadIsValid(k, out, order, |order|);
    forall s | s in k.syms
      ensures Get(w.vals, s) == Accepted(k, out, s)
    {
      WrittenOnceIsSeen(k, out, order, w, s);
    }
    forall id | id in k.choices
      ensures ChoiceKept(k, id, SelectionOf(k, u, id), w)
    {
      ElectedIsSelected(k, u, order, w, id);
    }
  }

  lemma AllSame(k: Config, u: User, w: User)
    requires Acyclic(k) && UserValid(k, u) && UserValid(k, w) && ModulesOff(k) && ChoicesAreTri(k) && Faithful(k, u, w)
    ensures forall s | s in k.syms :: Val(k, w, s) == Val(k, u, s)
    ensures FullEnv(k, w) == FullEnv(k, u)
  {
    forall t | t in k.syms
      ensures ValueIn(k, w, FullEnv(k, u), t, k.syms[t]).val == Val(k, u, t)
    {
      SameValueIn(k, u, w, t);
    }
    forall s | s in k.syms
      ensures Val(k, w, s) == Val(k, u, s)
    {
      FixpointIsUnique(k, u, w, s);
    }
    assert Values(k, w) == Values(k, u);
  }

  /** Writing .config and loading it back into a configuration leaves every value unchanged. */
  lemma RoundTrip(k: Config, u: User, order: seq<Sym>)
    requires Acyclic(k) && UserValid(k, u) && ModulesOff(k) && ChoicesAreTri(k)
    requires FileOrder(k, AllOutcomes(k, u), order) && Expressible(k, AllOutcomes(k, u), order)
    ensures var r := Load(k, NOBODY, Text(ConfLines(k, AllOutcomes(k, u), order, |order|)));
            && r.Some? && UserValid(k, r.value)
            && forall s | s in k.syms :: Val(k, r.value, s) == Val(k, u, s)
  {
    LoadedIsFaithful(k, u, order);
    AllSame(k, u, Load(k, NOBODY, Text(ConfLines(k, AllOutcomes(k, u), order, |order|))).value);
  }

  // ---- Writing a second time ---------------------------------------------

  /** An optional choice that users have put into mode "y" without a selection taking effect. */
  ghost predicate Dangling(k: Config, u: User, id: nat)
    requires Acyclic(k) && id in k.choices
  {
    k.choices[id].optional && Mode(k, u, id) == Y && SelectionOf(k, u, id) == None
  }

  /** The symbols whose lines the second file lacks: visible ones of such a choice. */
  ghost predicate Lost(k: Config, u: User, s: Sym)
    requires Acyclic(k) && s in k.syms && IsTri(k.syms[s].typ)
  {
    && k.syms[s].choice.Some? && k.syms[s].choice.value in k.choices
    && VisOf(k, u, s) != N && Dangling(k, u, k.syms[s].choice.value)
  }

  lemma ChoiceFlag(k: Config, u: User, w: User, s: Sym, id: nat)
    requires Acyclic(k) && UserValid(k, u) && ModulesOff(k) && Member(k, s, id) && id in k.choices
    requires ChoiceKept(k, id, SelectionOf(k, u, id), w)
    ensures var e, vis := FullEnv(k, u), VisOf(k, u, s);
            var before, after := ChoiceTri(k, u, e, s, id, k.choices[id], vis).1, ChoiceTri(k, w, e, s, id, k.choices[id], vis).1;
            && (vis != N && Dangling(k, u, id) ==> before && !after)
            && (!(vis != N && Dangling(k, u, id)) ==> before == after)
  {
    ModulesAreOff(k, u);
    var e, c := FullEnv(k, u), k.choices[id];
    ModeNotM(e, c, Get(u.mode, id));
    ModeNotM(e, c, Get(w.mode, id));
    UnselectedStaysUnselected(k, e, c, Get(u.mode, id));
    if VisOf(k, u, s) != N && Mode(k, u, id) == Y && !c.optional {
      VisibleMeansSelected(k, e, id, Get(u.sel, id), Get(u.mode, id), s);
    }
  }

  /** The write flag of every other symbol does not depend on user values at all. */
  lemma PlainFlag(k: Config, u: User, w: User, e: Env, s: Sym)
    requires s in k.syms && (IsTri(k.syms[s].typ) ==> k.syms[s].choice == None)
    ensures ValueIn(k, u, e, s, k.syms[s]).write == ValueIn(k, w, e, s, k.syms[s]).write
  {
    var d := k.syms[s];
    var base := Base(d.typ);
    NumDefaultWrites(k, e, d.defaults, ActiveRange(k, e, d.ranges, base), base, "");
  }

  lemma FlagAfterReload(k: Config, u: User, w: User, s: Sym)
    requires Acyclic(k) && UserValid(k, u) && UserValid(k, w) && ModulesOff(k) && ChoicesAreTri(k) && Faithful(k, u, w)
    requires s in k.syms
    ensures if IsTri(k.syms[s].typ) && Lost(k, u, s) then Recompute(k, u, s).write && !Recompute(k, w, s).write
            else Recompute(k, u, s).write == Recompute(k, w, s).write
  {
    AllSame(k, u, w);
    RecomputeIsFixpoint(k, u, s);
    RecomputeIsFixpoint(k, w, s);
    assert SymbolOk(k, s);
    if k.syms[s].choice.Some? {
      ChoiceFlag(k, u, w, s, k.syms[s].choice.value);
      ChoiceValue(k, u, k.syms[s].choice.value, s);
      ChoiceValue(k, w, k.syms[s].choice.value, s);
    } else {
      PlainFlag(k, u, w, FullEnv(k, u), s);
    }
  }

  /** Dropping write flags can only drop lines. */
  lemma {:induction false} FewerLines(k: Config, a: Outcomes, b: Outcomes, order: seq<Sym>, n: nat)
    requires n <= |order| && Covers(k, a, order) && Covers(k, b, order)
    requires forall i | 0 <= i < |order| :: a[order[i]].val == b[order[i]].val && (b[order[i]].write ==> a[order[i]].write)
    ensures |ConfLines(k, b, order, n)| <= |ConfLines(k, a, order, n)|
    ensures (forall i | 0 <= i < n :: a[order[i]].write == b[order[i]].write) ==> ConfLines(k, a, order, n) == ConfLines(k, b, order, n)
    ensures (exists i | 0 <= i < n :: a[order[i]].write != b[order[i]].write) ==>
              |ConfLines(k, b, order, n)| < |ConfLines(k, a, order, n)|
  {
    if n > 0 {
      FewerLines(k, a, b, order, n - 1);
    }
  }

  /** The symbols whose lines get lost. */
  ghost function LostSyms(k: Config, u: User): set<Sym>
    requires Acyclic(k)
  {
    set s | s in k.syms && IsTri(k.syms[s].typ) && Lost(k, u, s)
  }

  lemma FlagsAfterReload(k: Config, u: User, w: User)
    requires Acyclic(k) && UserValid(k, u) && UserValid(k, w) && ModulesOff(k) && ChoicesAreTri(k) && Faithful(k, u, w)
    ensures Differs(k, AllOutcomes(k, u), AllOutcomes(k, w), LostSyms(k, u))
  {
    AllSame(k, u, w);
    forall s | s in k.syms
      ensures DiffersAt(AllOutcomes(k, u), AllOutcomes(k, w), LostSyms(k, u), s)
    {
      FlagAfterReload(k, u, w, s);
    }
  }

  /** b has the values of a, and its write flags but for the symbols of lost. */
  ghost predicate DiffersAt(a: Outcomes, b: Outcomes, lost: set<Sym>, s: Sym) {
    && s in a && s in b && a[s].val == b[s].val
    && if s in lost then a[s].write && !b[s].write else a[s].write == b[s].write
  }

  ghost predicate Differs(k: Config, a: Outcomes, b: Outcomes, lost: set<Sym>) {
    lost <= k.syms.Keys && forall s | s in k.syms :: DiffersAt(a, b, lost, s)
  }

  lemma LostLinesShow(k: Config, a: Outcomes, b: Outcomes, lost: set<Sym>, order: seq<Sym>)
    requires Differs(k, a, b, lost) && FileOrder(k, a, order)
    ensures Covers(k, b, order)
    ensures ConfLines(k, b, order, |order|) == ConfLines(k, a, order, |order|) <==> lost == {}
  {
    forall i | 0 <= i < |order|
      ensures DiffersAt(a, b, lost, order[i])
    {
    }
    FewerLines(k, a, b, order, |order|);
    if lost != {} {
      var s :| s in lost;
      assert DiffersAt(a, b, lost, s);
      var i :| 0 <= i < |order| && order[i] == s;
      assert a[order[i]].write != b[order[i]].write;
    }
  }

  /** The file written after reloading is the same file exactly when no visible symbol belongs to
      an optional choice left in mode "y" with nothing selected. */
  lemma SecondFileIsSame(k: Config, u: User, order: seq<Sym>)
    requires Acyclic(k) && UserValid(k, u) && ModulesOff(k) && ChoicesAreTri(k)
    requires FileOrder(k, AllOutcomes(k, u), order) && Expressible(k, AllOutcomes(k, u), order)
    ensures var first := ConfLines(k, AllOutcomes(k, u), order, |order|);
            var r := Load(k, NOBODY, Text(first));
            r.Some? && (ConfLines(k, AllOutcomes(k, r.value), order, |order|) == first <==> LostSyms(k, u) == {})
  {
    LoadedIsFaithful(k, u, order);
    var w := Load(k, NOBODY, Text(ConfLines(k, AllOutcomes(k, u), order, |order|))).value;
    FlagsAfterReload(k, u, w);
    LostLinesShow(k, AllOutcomes(k, u), AllOutcomes(k, w), LostSyms(k, u), order);
  }
}
