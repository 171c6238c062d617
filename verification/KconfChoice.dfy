/** What a choice guarantees about the values of its symbols (docs/kconfiglib.py). */
module KconfChoice {
  import opened Basics
  import opened KconfExpr
  import opened Kconfig
  import opened KconfFrame
  import opened KconfCache

  ghost function Mode(k: Config, u: User, id: nat): Tri
    requires Acyclic(k) && id in k.choices
  {
    ModeOf(FullEnv(k, u), k.choices[id], Get(u.mode, id))
  }

  ghost function Val(k: Config, u: User, s: Sym): string
    requires Acyclic(k) && s in k.syms
  {
    Recompute(k, u, s).val
  }

  /** The value of a choice symbol, in terms of mode, selection, visibility and its own assignment. */
  lemma ChoiceValue(k: Config, u: User, id: nat, s: Sym)
    requires Acyclic(k) && UserValid(k, u) && id in k.choices && Member(k, s, id) && IsTri(k.syms[s].typ)
    ensures var r := ChoiceTri(k, u, FullEnv(k, u), s, id, k.choices[id], VisOf(k, u, s));
            && Recompute(k, u, s).write == r.1
            && Val(k, u, s) == (if r.0 == M && k.syms[s].typ == Bool then Y else r.0).Text()
  {
    RecomputeIsFixpoint(k, u, s);
    ChoiceOutcome(k, u, FullEnv(k, u), id, s);
  }

  lemma ChoiceOutcome(k: Config, u: User, e: Env, id: nat, s: Sym)
    requires Acyclic(k) && id in k.choices && Member(k, s, id) && IsTri(k.syms[s].typ)
    ensures var d := k.syms[s];
            var r := ChoiceTri(k, u, e, s, id, k.choices[id], SymVis(k, e, d));
            ValueIn(k, u, e, s, d) == Outcome((if r.0 == M && d.typ == Bool then Y else r.0).Text(), r.1)
  {
    assert SymbolOk(k, s);
  }

  /** The same in the user's terms. What is not visible is "n" and not written, and so is everything
      in mode "n". In mode "y" the selection is "y" and the others are "n"; in mode "m" those the user
      asked for are "m" (a bool "y") and the others "n"; all are written. */
  lemma ChoiceSymbolLaw(k: Config, u: User, id: nat, s: Sym)
    requires Acyclic(k) && UserValid(k, u) && id in k.choices && Member(k, s, id) && IsTri(k.syms[s].typ)
    ensures var r, mode := Recompute(k, u, s), Mode(k, u, id);
            if VisOf(k, u, s) == N || mode == N then r == Outcome("n", false)
            else if mode == Y then r == Outcome(if SelectionOf(k, u, id) == Some(s) then "y" else "n", true)
            else r == Outcome(if s in u.vals && u.vals[s] in {"m", "y"}
                              then if k.syms[s].typ == Bool then "y" else "m" else "n", true)
  {
    ChoiceValue(k, u, id, s);
  }

  lemma {:induction false} FirstVisibleFound(k: Config, e: Env, syms: seq<Sym>, i: nat)
    requires i < |syms| && Visible(k, e, syms[i]) != N
    ensures FirstVisible(k, e, syms).Some?
  {
    if i > 0 && Visible(k, e, syms[0]) == N {
      FirstVisibleFound(k, e, syms[1..], i - 1);
    }
  }

  lemma {:induction false} FirstVisibleIsVisible(k: Config, e: Env, syms: seq<Sym>)
    requires FirstVisible(k, e, syms).Some?
    ensures FirstVisible(k, e, syms).value in syms && Visible(k, e, FirstVisible(k, e, syms).value) != N
  {
    if Visible(k, e, syms[0]) == N {
      FirstVisibleIsVisible(k, e, syms[1..]);
    }
  }

  /** A selected symbol belongs to the choice and is visible. */
  lemma SelectedIsVisibleMember(k: Config, e: Env, id: nat, sel: Option<Sym>, mode: Option<Tri>)
    requires Acyclic(k) && id in k.choices && (sel.Some? ==> Member(k, sel.value, id))
    requires Selection(k, e, k.choices[id], sel, mode).Some?
    ensures var s := Selection(k, e, k.choices[id], sel, mode).value;
            Member(k, s, id) && Visible(k, e, s) != N
  {
    var c := k.choices[id];
    assert ChoiceOk(k, id) && Member(k, c.actual[0], id);
    DefaultIsMember(k, e, c.defaults, c.actual[0], id);
    if FirstVisible(k, e, c.actual).Some? {
      FirstVisibleIsVisible(k, e, c.actual);
      var i :| 0 <= i < |c.actual| && c.actual[i] == FirstVisible(k, e, c.actual).value;
      assert Member(k, c.actual[i], id);
    }
  }

  /** In mode "y" a choice that is not optional selects something as soon as a symbol is visible. */
  lemma VisibleMeansSelected(k: Config, e: Env, id: nat, sel: Option<Sym>, mode: Option<Tri>, s: Sym)
    requires Acyclic(k) && id in k.choices && !k.choices[id].optional
    requires ModeOf(e, k.choices[id], mode) == Y && Member(k, s, id) && Visible(k, e, s) != N
    ensures Selection(k, e, k.choices[id], sel, mode).Some?
  {
    var c := k.choices[id];
    assert ChoiceOk(k, id) && SymbolOk(k, s);
    var i :| 0 <= i < |c.actual| && c.actual[i] == s;
    FirstVisibleFound(k, e, c.actual, i);
  }

  /** Only the selected symbol can be "y" in mode "y", and it is. */
  lemma OnlySelectedIsY(k: Config, u: User, id: nat, s: Sym)
    requires Acyclic(k) && UserValid(k, u) && id in k.choices && Member(k, s, id) && IsTri(k.syms[s].typ)
    requires Mode(k, u, id) == Y
    ensures Val(k, u, s) == "y" <==> SelectionOf(k, u, id) == Some(s)
    ensures Val(k, u, s) == "y" || Val(k, u, s) == "n"
  {
    ChoiceValue(k, u, id, s);
    if SelectionOf(k, u, id) == Some(s) {
      SelectedIsVisibleMember(k, FullEnv(k, u), id, Get(u.sel, id), Get(u.mode, id));
    }
  }

  /** For every user assignment: in mode "y" at most one symbol is "y", and exactly one when the
      choice is not optional and a symbol is visible; in mode "m" no tristate symbol is "y"; in
      mode "n" every symbol is "n". */
  lemma ChoiceGuarantee(k: Config, u: User, id: nat)
    requires Acyclic(k) && UserValid(k, u) && id in k.choices
    requires forall s | Member(k, s, id) :: IsTri(k.syms[s].typ)
    ensures Mode(k, u, id) == Y ==>
              forall s, t | Member(k, s, id) && Member(k, t, id) && Val(k, u, s) == "y" && Val(k, u, t) == "y" :: s == t
    ensures Mode(k, u, id) == Y && !k.choices[id].optional && (exists s :: Member(k, s, id) && VisOf(k, u, s) != N) ==>
              exists s :: Member(k, s, id) && Val(k, u, s) == "y"
    ensures Mode(k, u, id) == M ==>
              forall s | Member(k, s, id) && k.syms[s].typ == Tristate :: Val(k, u, s) != "y"
    ensures Mode(k, u, id) == N ==> forall s | Member(k, s, id) :: Val(k, u, s) == "n"
  {
    forall s | Member(k, s, id)
      ensures Mode(k, u, id) == Y ==> (Val(k, u, s) == "y" <==> SelectionOf(k, u, id) == Some(s))
      ensures Mode(k, u, id) == M && k.syms[s].typ == Tristate ==> Val(k, u, s) != "y"
      ensures Mode(k, u, id) == N ==> Val(k, u, s) == "n"
    {
      ChoiceValue(k, u, id, s);
      if Mode(k, u, id) == Y {
        OnlySelectedIsY(k, u, id, s);
      }
    }
    if Mode(k, u, id) == Y && !k.choices[id].optional && exists s :: Member(k, s, id) && VisOf(k, u, s) != N {
      var s :| Member(k, s, id) && VisOf(k, u, s) != N;
      VisibleMeansSelected(k, FullEnv(k, u), id, Get(u.sel, id), Get(u.mode, id), s);
      SelectedIsVisibleMember(k, FullEnv(k, u), id, Get(u.sel, id), Get(u.mode, id));
      var x := SelectionOf(k, u, id).value;
      assert Member(k, x, id) && Val(k, u, x) == "y";
    }
  }

  // ---- What is selected, and in which mode -------------------------------

  ghost predicate FirstChoiceDefault(e: Env, ds: seq<ChoiceDefault>, i: int) {
    0 <= i < |ds| && e.Cond(ds[i].cond) != N && forall j | 0 <= j < i :: e.Cond(ds[j].cond) == N
  }

  /** The symbol of the first default whose condition holds; the first of the choice if none does. */
  ghost predicate Preferred(e: Env, c: Choice, x: Sym) {
    if exists i :: FirstChoiceDefault(e, c.defaults, i) then
      forall i | FirstChoiceDefault(e, c.defaults, i) :: x == c.defaults[i].sym
    else c.actual != [] && x == c.actual[0]
  }

  lemma ChoiceDefaultShift(e: Env, ds: seq<ChoiceDefault>, i: int)
    requires ds != [] && e.Cond(ds[0].cond) == N
    ensures FirstChoiceDefault(e, ds, i) <==> FirstChoiceDefault(e, ds[1..], i - 1)
  {
    if FirstChoiceDefault(e, ds[1..], i - 1) {
      forall j | 0 <= j < i ensures e.Cond(ds[j].cond) == N {
        assert j > 0 ==> ds[1..][j - 1] == ds[j];
      }
    } else if 0 < i < |ds| && forall j | 0 <= j < i :: e.Cond(ds[j].cond) == N {
      forall j | 0 <= j < i - 1 ensures e.Cond(ds[1..][j].cond) == N {
        assert ds[1..][j] == ds[j + 1];
      }
    }
  }

  lemma {:induction false} DefaultSymbolIs(e: Env, ds: seq<ChoiceDefault>, first: Sym)
    ensures var x := DefaultSymbol(e, ds, first);
            if exists i :: FirstChoiceDefault(e, ds, i) then forall i | FirstChoiceDefault(e, ds, i) :: x == ds[i].sym
            else x == first
    decreases |ds|
  {
    if ds != [] {
      if e.Cond(ds[0].cond) != N {
        assert FirstChoiceDefault(e, ds, 0);
      } else {
        DefaultSymbolIs(e, ds[1..], first);
        forall i | FirstChoiceDefault(e, ds, i) ensures FirstChoiceDefault(e, ds[1..], i - 1) {
          ChoiceDefaultShift(e, ds, i);
        }
        forall i | FirstChoiceDefault(e, ds[1..], i) ensures FirstChoiceDefault(e, ds, i + 1) {
          ChoiceDefaultShift(e, ds, i + 1);
        }
      }
    }
  }

  /** x is the earliest visible symbol of the list, None if there is none. */
  ghost predicate Earliest(k: Config, e: Env, syms: seq<Sym>, x: Option<Sym>) {
    match x
    case None => forall i | 0 <= i < |syms| :: Visible(k, e, syms[i]) == N
    case Some(y) => exists i | 0 <= i < |syms| ::
      syms[i] == y && Visible(k, e, y) != N && forall j | 0 <= j < i :: Visible(k, e, syms[j]) == N
  }

  lemma {:induction false} FirstVisibleIs(k: Config, e: Env, syms: seq<Sym>)
    ensures Earliest(k, e, syms, FirstVisible(k, e, syms))
    decreases |syms|
  {
    if syms != [] {
      if Visible(k, e, syms[0]) == N {
        var x := FirstVisible(k, e, syms[1..]);
        FirstVisibleIs(k, e, syms[1..]);
        forall j | 0 < j < |syms| ensures syms[j] == syms[1..][j - 1] {
        }
        if x.Some? {
          var i :| 0 <= i < |syms| - 1 && syms[1..][i] == x.value && Visible(k, e, x.value) != N
                && forall j | 0 <= j < i :: Visible(k, e, syms[1..][j]) == N;
          assert syms[i + 1] == x.value;
          forall j | 0 <= j < i + 1 ensures Visible(k, e, syms[j]) == N {
            assert j > 0 ==> syms[j] == syms[1..][j - 1];
          }
        }
      } else {
        assert syms[0] == FirstVisible(k, e, syms).value;
      }
    }
  }

  /** What a choice selects: nothing unless its mode is "y"; then what the user selected, if that is
      fully visible; then nothing if it is optional; then the preferred symbol, if visible; then the
      earliest visible one. */
  lemma SelectionLaw(k: Config, u: User, id: nat, x: Sym)
    requires Acyclic(k) && id in k.choices && Preferred(FullEnv(k, u), k.choices[id], x)
    ensures var e, c, r := FullEnv(k, u), k.choices[id], SelectionOf(k, u, id);
            if Mode(k, u, id) != Y then r == None
            else if id in u.sel && Visible(k, e, u.sel[id]) == Y then r == Some(u.sel[id])
            else if c.optional then r == None
            else if Visible(k, e, x) != N then r == Some(x)
            else Earliest(k, e, c.actual, r)
  {
    var e, c := FullEnv(k, u), k.choices[id];
    assert ChoiceOk(k, id);
    DefaultSymbolIs(e, c.defaults, c.actual[0]);
    FirstVisibleIs(k, e, c.actual);
    if i :| FirstChoiceDefault(e, c.defaults, i) {
    }
  }

  /** The mode of a choice: "n" if it cannot be seen, or is optional and no one asked for a mode; "y"
      if that was asked for and it is fully visible; and without being asked, or if "m" was, "m" in a
      tristate choice while modules are on, and "y" if it is visible otherwise. */
  lemma ModeLaw(k: Config, u: User, id: nat)
    requires Acyclic(k) && id in k.choices
    ensures var c, vis, mods, mode := k.choices[id], ChoiceVisOf(k, u, id), FullEnv(k, u).mods, Mode(k, u, id);
            var asked := if id in u.mode then u.mode[id] else if c.optional then N else M;
            && (vis == N || asked == N ==> mode == N)
            && (vis == Y && asked == Y ==> mode == Y)
            && (vis != N && asked == M ==> mode == if c.typ != Bool && mods then M else Y)
            && (vis == M && asked == Y ==> mode == if c.typ != Bool && mods then M else Y)
  {
  }

  // ---- Assigning to a symbol of a choice ---------------------------------

  /** "y" selects the symbol and asks for mode "y"; "m" takes back any selection and asks for mode
      "m"; "n" does neither. Nothing else changes. */
  lemma SetOnChoice(k: Config, u: User, s: Sym, id: nat, v: string)
    requires Member(k, s, id) && k.syms[s].special == None && IsTri(k.syms[s].typ) && ValidValue(k, k.syms[s].typ, v)
    ensures var w := SetUser(k, u, s, v);
            && w.vals == u.vals[s := v]
            && (v == "y" ==> Get(w.sel, id) == Some(s) && Get(w.mode, id) == Some(Y))
            && (v == "m" ==> Get(w.sel, id) == None && Get(w.mode, id) == Some(M))
            && (v == "n" ==> w.sel == u.sel && w.mode == u.mode)
            && forall c | c != id :: Get(w.sel, c) == Get(u.sel, c) && Get(w.mode, c) == Get(u.mode, c)
  {
  }

  /** So "m" for a visible symbol of a visible tristate choice gives that symbol "m", while modules
      are on, and no symbol of the choice "y". */
  lemma SetMGives(k: Config, u: User, s: Sym, id: nat)
    requires Acyclic(k) && UserValid(k, u) && id in k.choices && Member(k, s, id)
    requires k.choices[id].typ == Tristate && forall x | Member(k, x, id) :: k.syms[x].typ == Tristate
    requires var w := SetUser(k, u, s, "m");
             FullEnv(k, w).mods && ChoiceVisOf(k, w, id) != N && VisOf(k, w, s) != N
    ensures var w := SetUser(k, u, s, "m");
            Mode(k, w, id) == M && Val(k, w, s) == "m" && forall x | Member(k, x, id) :: Val(k, w, x) != "y"
  {
    var w := SetUser(k, u, s, "m");
    assert SymbolOk(k, s);
    SetOnChoice(k, u, s, id, "m");
    SetUserDiffers(k, u, s, "m");
    ModeLaw(k, w, id);
    ChoiceGuarantee(k, w, id);
    ChoiceValue(k, w, id, s);
  }

  /** Unsetting a symbol of a choice forgets the selection and the mode of the choice as well. */
  lemma UnsetOnChoice(k: Config, u: User, s: Sym, id: nat)
    requires Member(k, s, id)
    ensures var w := UnsetUser(k, u, s);
            && w.vals == u.vals - {s} && Get(w.sel, id) == None && Get(w.mode, id) == None
            && forall c | c != id :: Get(w.sel, c) == Get(u.sel, c) && Get(w.mode, c) == Get(u.mode, c)
  {
  }

  /** So the choice is back to its defaults: an optional one is off, and any other selects, in mode
      "y", the preferred symbol if it is visible, else the earliest visible one. */
  lemma UnsetRestores(k: Config, u: User, s: Sym, id: nat, x: Sym)
    requires Acyclic(k) && UserValid(k, u) && id in k.choices && Member(k, s, id)
    requires forall t | Member(k, t, id) :: IsTri(k.syms[t].typ)
    requires Preferred(FullEnv(k, UnsetUser(k, u, s)), k.choices[id], x)
    ensures var w := UnsetUser(k, u, s);
            var e, c := FullEnv(k, w), k.choices[id];
            if c.optional then Mode(k, w, id) == N && forall t | Member(k, t, id) :: Val(k, w, t) == "n"
            else Mode(k, w, id) == Y ==>
              if Visible(k, e, x) != N then SelectionOf(k, w, id) == Some(x) else Earliest(k, e, c.actual, SelectionOf(k, w, id))
  {
    var w := UnsetUser(k, u, s);
    UnsetOnChoice(k, u, s, id);
    UnsetUserDiffers(k, u, s);
    ModeLaw(k, w, id);
    ChoiceGuarantee(k, w, id);
    SelectionLaw(k, w, id, x);
  }
}
