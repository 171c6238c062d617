/** What a symbol's value depends on: its sources and its own user assignments, nothing else. Hence
    recomputation from all values is the same as recomputation from scratch. */
module KconfFrame {
  import opened Basics
  import opened KconfExpr
  import opened Kconfig

  ghost predicate EnvAgree(e: Env, f: Env, R: set<Sym>) {
    e.mods == f.mods && Agree(e.view, f.view, R)
  }

  /** The user assignments that can matter to s. */
  ghost predicate UserAgree(k: Config, u: User, w: User, s: Sym)
    requires s in k.syms
  {
    && Get(u.vals, s) == Get(w.vals, s)
    && (k.syms[s].choice.Some? ==> ChoiceAgree(u, w, k.syms[s].choice.value))
  }

  ghost predicate ChoiceAgree(u: User, w: User, c: nat) {
    Get(u.sel, c) == Get(w.sel, c) && Get(u.mode, c) == Get(w.mode, c)
  }

  lemma CondFrame(e: Env, f: Env, c: Cond)
    requires EnvAgree(e, f, CondSyms(c))
    ensures e.Cond(c) == f.Cond(c)
  {
    if c.Some? {
      EvalFrame(e.view, f.view, c.value);
    }
  }

  lemma {:induction false} PromptVisFrame(e: Env, f: Env, prompts: seq<Cond>)
    requires EnvAgree(e, f, CondsSyms(prompts))
    ensures PromptVis(e, prompts) == PromptVis(f, prompts)
  {
    if prompts != [] {
      var n := |prompts| - 1;
      forall i | 0 <= i < n
        ensures prompts[..n][i] == prompts[i]
      {
      }
      assert CondsSyms(prompts[..n]) <= CondsSyms(prompts);
      PromptVisFrame(e, f, prompts[..n]);
      assert CondSyms(prompts[n]) <= CondsSyms(prompts);
      CondFrame(e, f, prompts[n]);
    }
  }

  lemma VisibleFrame(k: Config, e: Env, f: Env, s: Sym)
    requires s in k.syms && EnvAgree(e, f, CondsSyms(k.syms[s].prompts))
    requires k.syms[s].choice.Some? && k.syms[s].choice.value in k.choices ==>
               EnvAgree(e, f, CondsSyms(k.choices[k.syms[s].choice.value].prompts))
    ensures SymVis(k, e, k.syms[s]) == SymVis(k, f, k.syms[s])
  {
    PromptVisFrame(e, f, k.syms[s].prompts);
    if k.syms[s].choice.Some? && k.syms[s].choice.value in k.choices {
      PromptVisFrame(e, f, k.choices[k.syms[s].choice.value].prompts);
    }
  }

  /** Every symbol of the choice looks the same in both environments. */
  ghost predicate SameVisible(k: Config, e: Env, f: Env, id: nat) {
    forall s :: Member(k, s, id) ==> Visible(k, e, s) == Visible(k, f, s)
  }

  lemma {:induction false} FirstVisibleFrame(k: Config, e: Env, f: Env, id: nat, syms: seq<Sym>)
    requires SameVisible(k, e, f, id) && forall i | 0 <= i < |syms| :: Member(k, syms[i], id)
    ensures FirstVisible(k, e, syms) == FirstVisible(k, f, syms)
  {
    if syms != [] {
      assert Member(k, syms[0], id);
      FirstVisibleFrame(k, e, f, id, syms[1..]);
    }
  }

  lemma {:induction false} DefaultSymbolFrame(e: Env, f: Env, ds: seq<ChoiceDefault>, first: Sym)
    requires forall i | 0 <= i < |ds| :: EnvAgree(e, f, CondSyms(ds[i].cond))
    ensures DefaultSymbol(e, ds, first) == DefaultSymbol(f, ds, first)
  {
    if ds != [] {
      CondFrame(e, f, ds[0].cond);
      DefaultSymbolFrame(e, f, ds[1..], first);
    }
  }

  lemma {:induction false} DefaultIsMember(k: Config, e: Env, ds: seq<ChoiceDefault>, first: Sym, id: nat)
    requires Member(k, first, id) && forall i | 0 <= i < |ds| :: Member(k, ds[i].sym, id)
    ensures Member(k, DefaultSymbol(e, ds, first), id)
  {
    if ds != [] {
      DefaultIsMember(k, e, ds[1..], first, id);
    }
  }

  /** What assignments can lead to: accepted values, and for a choice one of its symbols and the
      mode "y" or "m". */
  ghost predicate UserValid(k: Config, u: User) {
    && (forall c <- u.sel :: Member(k, u.sel[c], c))
    && (forall c <- u.mode :: u.mode[c] != N)
    && (forall s <- u.vals :: s in k.syms && ValidValue(k, k.syms[s].typ, u.vals[s]))
  }

  /** The values `_set_user_value_no_invalidate` accepts. */
  predicate ValidValue(k: Config, typ: Type, v: string) {
    match typ
    case Unknown => false
    case Bool => v == "y" || v == "n"
    case Tristate => v == "y" || v == "m" || v == "n"
    case String => true
    case Int => k.nums.parse(v, 10).Some?
    case Hex => k.nums.parse(v, 16).Some?
  }

  lemma ModeFrame(e: Env, f: Env, c: Choice, mode: Option<Tri>)
    requires EnvAgree(e, f, ChoiceSyms(c))
    ensures ChoiceVis(e, c) == ChoiceVis(f, c)
    ensures ModeOf(e, c, mode) == ModeOf(f, c, mode)
  {
    assert CondsSyms(c.prompts) <= ChoiceSyms(c);
    PromptVisFrame(e, f, c.prompts);
  }

  lemma DefaultSelectionFrame(k: Config, e: Env, f: Env, id: nat)
    requires id in k.choices && ChoiceOk(k, id)
    requires SameVisible(k, e, f, id) && EnvAgree(e, f, ChoiceSyms(k.choices[id]))
    ensures DefaultSelection(k, e, k.choices[id]) == DefaultSelection(k, f, k.choices[id])
  {
    var c := k.choices[id];
    forall i | 0 <= i < |c.defaults|
      ensures EnvAgree(e, f, CondSyms(c.defaults[i].cond))
    {
      assert CondSyms(c.defaults[i].cond) <= ChoiceSyms(c);
    }
    DefaultSymbolFrame(e, f, c.defaults, c.actual[0]);
    assert Member(k, c.actual[0], id);
    DefaultIsMember(k, e, c.defaults, c.actual[0], id);
    FirstVisibleFrame(k, e, f, id, c.actual);
  }

  lemma SelectionFrame(k: Config, e: Env, f: Env, id: nat, sel: Option<Sym>, mode: Option<Tri>)
    requires id in k.choices && ChoiceOk(k, id)
    requires SameVisible(k, e, f, id) && EnvAgree(e, f, ChoiceSyms(k.choices[id]))
    requires sel.Some? ==> Member(k, sel.value, id)
    ensures Selection(k, e, k.choices[id], sel, mode) == Selection(k, f, k.choices[id], sel, mode)
  {
    ModeFrame(e, f, k.choices[id], mode);
    DefaultSelectionFrame(k, e, f, id);
  }

  lemma {:induction false} TriDefaultFrame(e: Env, f: Env, ds: seq<Default>)
    requires EnvAgree(e, f, DefaultsSyms(ds))
    ensures TriDefault(e, ds) == TriDefault(f, ds)
    ensures StrDefault(e, ds) == StrDefault(f, ds)
  {
    if ds != [] {
      HeadDefaultFrame(e, f, ds);
      TriDefaultFrame(e, f, ds[1..]);
    }
  }

  lemma HeadDefaultFrame(e: Env, f: Env, ds: seq<Default>)
    requires ds != [] && EnvAgree(e, f, DefaultsSyms(ds))
    ensures e.Cond(ds[0].cond) == f.Cond(ds[0].cond)
    ensures e.Cond(Some(ds[0].val)) == f.Cond(Some(ds[0].val))
    ensures ExprStr(e.view, ds[0].val) == ExprStr(f.view, ds[0].val)
    ensures EnvAgree(e, f, DefaultsSyms(ds[1..]))
  {
    assert Syms(ds[0].val) + CondSyms(ds[0].cond) <= DefaultsSyms(ds);
    CondFrame(e, f, ds[0].cond);
    CondFrame(e, f, Some(ds[0].val));
    forall i | 0 <= i < |ds| - 1
      ensures ds[1..][i] == ds[i + 1]
    {
    }
    assert DefaultsSyms(ds[1..]) <= DefaultsSyms(ds);
  }

  lemma {:induction false} NumDefaultFrame(k: Config, e: Env, f: Env, ds: seq<Default>, range: Option<(int, int)>,
                                            base: nat, v: string, write: bool)
    requires EnvAgree(e, f, DefaultsSyms(ds))
    ensures NumDefault(k, e, ds, range, base, v, write) == NumDefault(k, f, ds, range, base, v, write)
    decreases |ds|
  {
    if ds != [] {
      HeadDefaultFrame(e, f, ds);
      NumDefaultFrame(k, e, f, ds[1..], range, base, ExprStr(e.view, ds[0].val), true);
      NumDefaultFrame(k, e, f, ds[1..], range, base, v, write);
    }
  }

  lemma {:induction false} ActiveRangeFrame(k: Config, e: Env, f: Env, rs: seq<Range>, base: nat)
    requires EnvAgree(e, f, RangesSyms(rs))
    ensures ActiveRange(k, e, rs, base) == ActiveRange(k, f, rs, base)
  {
    if rs != [] {
      assert OperandSyms(rs[0].low) + OperandSyms(rs[0].high) + CondSyms(rs[0].cond) <= RangesSyms(rs);
      CondFrame(e, f, rs[0].cond);
      assert StrVal(e.view, rs[0].low) == StrVal(f.view, rs[0].low);
      assert StrVal(e.view, rs[0].high) == StrVal(f.view, rs[0].high);
      forall i | 0 <= i < |rs| - 1
        ensures rs[1..][i] == rs[i + 1]
      {
      }
      assert RangesSyms(rs[1..]) <= RangesSyms(rs);
      ActiveRangeFrame(k, e, f, rs[1..], base);
    }
  }

  lemma SiblingsFrame(k: Config, e: Env, f: Env, id: nat)
    requires id in k.choices && forall s | Member(k, s, id) :: s in k.choices[id].actual
    requires EnvAgree(e, f, SiblingRefs(k, k.choices[id]) + ChoiceSyms(k.choices[id]))
    ensures SameVisible(k, e, f, id)
  {
    var c := k.choices[id];
    forall s | Member(k, s, id)
      ensures Visible(k, e, s) == Visible(k, f, s)
    {
      var i :| 0 <= i < |c.actual| && c.actual[i] == s;
      assert CondsSyms(k.syms[s].prompts) <= SiblingRefs(k, c);
      assert CondsSyms(c.prompts) <= ChoiceSyms(c);
      VisibleFrame(k, e, f, s);
    }
  }

  lemma SymVisFrame(k: Config, e: Env, f: Env, s: Sym)
    requires s in k.syms && EnvAgree(e, f, Refs(k, k.syms[s]))
    ensures SymVis(k, e, k.syms[s]) == SymVis(k, f, k.syms[s])
  {
    var d := k.syms[s];
    assert CondsSyms(d.prompts) <= Refs(k, d);
    if d.choice.Some? && d.choice.value in k.choices {
      var c := k.choices[d.choice.value];
      assert CondsSyms(c.prompts) <= ChoiceSyms(c) <= Refs(k, d);
    }
    VisibleFrame(k, e, f, s);
  }

  lemma ChoiceTriFrame(k: Config, u: User, w: User, e: Env, f: Env, s: Sym, id: nat, vis: Tri)
    requires id in k.choices && ChoiceOk(k, id)
    requires SameVisible(k, e, f, id) && EnvAgree(e, f, ChoiceSyms(k.choices[id]))
    requires Get(u.vals, s) == Get(w.vals, s) && ChoiceAgree(u, w, id)
    requires Get(u.sel, id).Some? ==> Member(k, u.sel[id], id)
    ensures ChoiceTri(k, u, e, s, id, k.choices[id], vis) == ChoiceTri(k, w, f, s, id, k.choices[id], vis)
  {
    ModeFrame(e, f, k.choices[id], Get(u.mode, id));
    SelectionFrame(k, e, f, id, Get(u.sel, id), Get(u.mode, id));
  }

  lemma PlainTriFrame(k: Config, e: Env, f: Env, s: Sym, user: Option<string>, vis: Tri)
    requires s in k.syms && EnvAgree(e, f, Refs(k, k.syms[s]))
    ensures PlainTri(e, k.syms[s], user, vis) == PlainTri(f, k.syms[s], user, vis)
    ensures StrDefault(e, k.syms[s].defaults) == StrDefault(f, k.syms[s].defaults)
  {
    var d := k.syms[s];
    assert DefaultsSyms(d.defaults) <= Refs(k, d) && Syms(d.revDep) <= Refs(k, d);
    TriDefaultFrame(e, f, d.defaults);
    CondFrame(e, f, Some(d.revDep));
  }

  lemma TriOutcomeFrame(k: Config, u: User, w: User, e: Env, f: Env, s: Sym)
    requires Acyclic(k) && s in k.syms && EnvAgree(e, f, Sources(k, s))
    requires UserAgree(k, u, w, s) && UserValid(k, u)
    requires SymVis(k, e, k.syms[s]) == SymVis(k, f, k.syms[s])
    ensures TriOutcome(k, u, e, s, k.syms[s]) == TriOutcome(k, w, f, s, k.syms[s])
  {
    var d := k.syms[s];
    var vis := SymVis(k, e, d);
    if d.choice.Some? {
      MemberTriFrame(k, u, w, e, f, s, d.choice.value, vis);
    } else {
      assert Refs(k, d) <= Sources(k, s);
      PlainTriFrame(k, e, f, s, Get(u.vals, s), vis);
    }
  }

  lemma MemberTriFrame(k: Config, u: User, w: User, e: Env, f: Env, s: Sym, id: nat, vis: Tri)
    requires Acyclic(k) && Member(k, s, id) && EnvAgree(e, f, Sources(k, s))
    requires UserAgree(k, u, w, s) && UserValid(k, u)
    ensures id in k.choices && ChoiceTri(k, u, e, s, id, k.choices[id], vis) == ChoiceTri(k, w, f, s, id, k.choices[id], vis)
  {
    assert SymbolOk(k, s) && ChoiceOk(k, id);
    assert ChoiceSyms(k.choices[id]) <= Refs(k, k.syms[s]) <= Sources(k, s);
    assert SiblingRefs(k, k.choices[id]) <= Sources(k, s);
    forall t | Member(k, t, id)
      ensures t in k.choices[id].actual
    {
      assert SymbolOk(k, t);
    }
    SiblingsFrame(k, e, f, id);
    ChoiceTriFrame(k, u, w, e, f, s, id, vis);
  }

  /** A value is determined by its sources and by the assignments that concern it. */
  lemma ValueFrame(k: Config, u: User, w: User, e: Env, f: Env, s: Sym)
    requires Acyclic(k) && s in k.syms && EnvAgree(e, f, Sources(k, s))
    requires UserAgree(k, u, w, s) && UserValid(k, u)
    ensures ValueIn(k, u, e, s, k.syms[s]) == ValueIn(k, w, f, s, k.syms[s])
    ensures SymVis(k, e, k.syms[s]) == SymVis(k, f, k.syms[s])
  {
    var d := k.syms[s];
    assert Refs(k, d) <= Sources(k, s);
    SymVisFrame(k, e, f, s);
    match d.typ
    case Unknown =>
    case Bool => TriOutcomeFrame(k, u, w, e, f, s);
    case Tristate => TriOutcomeFrame(k, u, w, e, f, s);
    case String => PlainTriFrame(k, e, f, s, Get(u.vals, s), SymVis(k, e, d));
    case Hex => NumbersFrame(k, u, w, e, f, s);
    case Int => NumbersFrame(k, u, w, e, f, s);
  }

  lemma NumbersFrame(k: Config, u: User, w: User, e: Env, f: Env, s: Sym)
    requires s in k.syms && EnvAgree(e, f, Refs(k, k.syms[s]))
    requires Get(u.vals, s) == Get(w.vals, s)
    requires SymVis(k, e, k.syms[s]) == SymVis(k, f, k.syms[s])
    ensures NumOutcome(k, u, e, s, k.syms[s]) == NumOutcome(k, w, f, s, k.syms[s])
  {
    var d := k.syms[s];
    assert DefaultsSyms(d.defaults) <= Refs(k, d) && RangesSyms(d.ranges) <= Refs(k, d);
    var base := Base(d.typ);
    ActiveRangeFrame(k, e, f, d.ranges, base);
    NumDefaultFrame(k, e, f, d.defaults, ActiveRange(k, e, d.ranges, base), base, "", SymVis(k, e, d) != N);
  }

  // ---- Recomputation from all values -------------------------------------

  /** For MODULES it makes no difference whether modules count as on: no "m" ever comes up. */
  lemma ModulesIgnoresModules(k: Config, u: User, v: View, a: bool, b: bool)
    requires Acyclic(k) && UserValid(k, u) && MODULES in k.syms
    ensures ValueIn(k, u, Env(v, a), MODULES, k.syms[MODULES]) == ValueIn(k, u, Env(v, b), MODULES, k.syms[MODULES])
    ensures k.syms[MODULES].special == None && k.syms[MODULES].typ == Bool ==>
              SymVis(k, Env(v, a), k.syms[MODULES]) == SymVis(k, Env(v, b), k.syms[MODULES]) != M
  {
    var d := k.syms[MODULES];
    if d.special == None && d.typ == Bool {
      PlainPrompts(v, a, b, d.prompts);
      PlainDefaults(v, a, b, d.defaults);
    }
  }

  lemma {:induction false} PlainPrompts(v: View, a: bool, b: bool, prompts: seq<Cond>)
    requires forall i | 0 <= i < |prompts| :: prompts[i] == None
    ensures PromptVis(Env(v, a), prompts) == PromptVis(Env(v, b), prompts) == if prompts == [] then N else Y
  {
    if prompts != [] {
      PlainPrompts(v, a, b, prompts[..|prompts| - 1]);
    }
  }

  lemma {:induction false} PlainDefaults(v: View, a: bool, b: bool, ds: seq<Default>)
    requires forall i | 0 <= i < |ds| :: ds[i].cond == None && (ds[i].val == EStr("y") || ds[i].val == EStr("n"))
    ensures TriDefault(Env(v, a), ds) == TriDefault(Env(v, b), ds)
    ensures TriDefault(Env(v, a), ds).Some? ==> TriDefault(Env(v, a), ds).value != M
  {
    if ds != [] {
      PlainDefaults(v, a, b, ds[1..]);
    }
  }

  lemma SourceValuesAgree(k: Config, u: User, s: Sym)
    requires Acyclic(k) && s in k.syms
    ensures var part := EnvFor(k, SourceValues(k, u, s), s);
            EnvAgree(part, Env(FullEnv(k, u).view, part.mods), Sources(k, s))
    ensures s != MODULES ==> EnvFor(k, SourceValues(k, u, s), s).mods == FullEnv(k, u).mods
  {
    SourcesAreLower(k, s);
  }

  /** Recomputing a symbol alone and evaluating it among all recomputed values agree. */
  lemma RecomputeIsFixpoint(k: Config, u: User, s: Sym)
    requires Acyclic(k) && UserValid(k, u) && s in k.syms
    ensures Recompute(k, u, s) == ValueIn(k, u, FullEnv(k, u), s, k.syms[s])
  {
    SourceValuesAgree(k, u, s);
    var part := EnvFor(k, SourceValues(k, u, s), s);
    var full := FullEnv(k, u);
    ValueFrame(k, u, u, part, Env(full.view, part.mods), s);
    if s == MODULES {
      ModulesIgnoresModules(k, u, full.view, part.mods, full.mods);
    }
  }
}
