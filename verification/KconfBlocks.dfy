/** How docs/kconfiglib.py pushes the conditions of nested if, menu and choice blocks down to the
    prompts, defaults and selects of the items inside them. */
module KconfBlocks {
  import opened Basics
  import opened KconfExpr
  import opened Kconfig

  datatype Key = OfSym(sym: Sym) | OfChoice(id: nat)

  datatype Select = Select(target: Sym, cond: Cond)

  /** One definition of a symbol or choice as it is written: the condition of its prompt, its
      `depends on` lines, defaults and selects. */
  datatype Stmt = Stmt(
    key: Key, prompt: Option<Cond>, depends: seq<Expr>, defaults: seq<Default>, selects: seq<Select>)

  datatype Node =
    | Entry(stmt: Stmt)
    | IfBlock(cond: Expr, body: seq<Node>)
    | MenuBlock(depends: seq<Expr>, visible: seq<Expr>, body: seq<Node>)
    | ChoiceBlock(stmt: Stmt, body: seq<Node>)

  /** The properties gathered so far; a symbol may be defined several times. */
  datatype Props = Props(prompts: map<Key, seq<Cond>>, defaults: map<Key, seq<Default>>, rev: map<Sym, Cond>) {
    function Prompts(k: Key): seq<Cond> {
      if k in prompts then prompts[k] else []
    }

    function Defaults(k: Key): seq<Default> {
      if k in defaults then defaults[k] else []
    }

    function Rev(s: Sym): Cond {
      if s in rev then rev[s] else Some(EStr("n"))
    }
  }

  // ---- The parser's bookkeeping ------------------------------------------

  /** Several `depends on` or `visible if` lines. */
  function Conj(es: seq<Expr>): Cond {
    if es == [] then None else MakeAnd(Conj(es[..|es| - 1]), Some(es[|es| - 1]))
  }

  function PromptCond(cond: Cond, own: Cond, deps: Cond, vis: Cond): Cond {
    MakeAnd(MakeAnd(MakeAnd(cond, vis), own), deps)
  }

  function PlacedDefaults(ds: seq<Default>, own: Cond, deps: Cond): seq<Default> {
    if ds == [] then []
    else
      var d := ds[|ds| - 1];
      PlacedDefaults(ds[..|ds| - 1], own, deps) + [Default(d.val, MakeAnd(MakeAnd(d.cond, own), deps))]
  }

  function AddSelect(p: Props, who: Sym, sel: Select, own: Cond, deps: Cond): Props {
    var cond := MakeAnd(Some(ESym(who)), MakeAnd(MakeAnd(sel.cond, own), deps));
    p.(rev := p.rev[sel.target := MakeOr(p.Rev(sel.target), cond)])
  }

  function AddSelects(p: Props, who: Sym, sels: seq<Select>, own: Cond, deps: Cond): Props {
    if sels == [] then p
    else AddSelect(AddSelects(p, who, sels[..|sels| - 1], own, deps), who, sels[|sels| - 1], own, deps)
  }

  function AddPrompt(p: Props, st: Stmt, deps: Cond, vis: Cond): Props {
    if st.prompt.None? then p
    else
      var cond := PromptCond(st.prompt.value, Conj(st.depends), deps, vis);
      p.(prompts := p.prompts[st.key := p.Prompts(st.key) + [cond]])
  }

  function AddDefaults(p: Props, st: Stmt, deps: Cond): Props {
    p.(defaults := p.defaults[st.key := p.Defaults(st.key) + PlacedDefaults(st.defaults, Conj(st.depends), deps)])
  }

  /** The end of `_parse_properties`. Only symbols select. */
  function AddStmt(p: Props, st: Stmt, deps: Cond, vis: Cond): Props {
    var q := AddDefaults(AddPrompt(p, st, deps, vis), st, deps);
    if st.key.OfSym? then AddSelects(q, st.key.sym, st.selects, Conj(st.depends), deps) else q
  }

  function AddNode(p: Props, n: Node, deps: Cond, vis: Cond): Props
    decreases n, 1
  {
    match n
    case Entry(st) => AddStmt(p, st, deps, vis)
    case IfBlock(c, body) => AddNodes(p, body, MakeAnd(Some(c), deps), vis)
    case MenuBlock(ds, vs, body) => AddNodes(p, body, MakeAnd(Conj(ds), deps), MakeAnd(vis, Conj(vs)))
    case ChoiceBlock(st, body) => AddNodes(AddStmt(p, st, deps, vis), body, deps, vis)
  }

  function AddNodes(p: Props, ns: seq<Node>, deps: Cond, vis: Cond): Props
    decreases ns, 0
  {
    if ns == [] then p else AddNode(AddNodes(p, ns[..|ns| - 1], deps, vis), ns[|ns| - 1], deps, vis)
  }

  class Parser {
    var prompts: map<Key, seq<Cond>>
    var defaults: map<Key, seq<Default>>
    var rev: map<Sym, Cond>

    ghost function Gathered(): Props
      reads this
    {
      Props(prompts, defaults, rev)
    }

    constructor ()
      ensures Gathered() == Props(map[], map[], map[])
    {
      prompts, defaults, rev := map[], map[], map[];
    }

    method JoinLines(es: seq<Expr>) returns (c: Cond)
      ensures c == Conj(es)
    {
      c := None;
      for i := 0 to |es|
        invariant c == Conj(es[..i])
      {
        assert es[..i + 1][..i] == es[..i];
        c := MakeAnd(c, Some(es[i]));
      }
      assert es[..|es|] == es;
    }

    method PlaceDefaults(ds: seq<Default>, own: Cond, deps: Cond) returns (r: seq<Default>)
      ensures r == PlacedDefaults(ds, own, deps)
    {
      r := [];
      for i := 0 to |ds|
        invariant r == PlacedDefaults(ds[..i], own, deps)
      {
        assert ds[..i + 1][..i] == ds[..i];
        r := r + [Default(ds[i].val, MakeAnd(MakeAnd(ds[i].cond, own), deps))];
      }
      assert ds[..|ds|] == ds;
    }

    method RecordSelects(who: Sym, sels: seq<Select>, own: Cond, deps: Cond)
      modifies this
      ensures Gathered() == AddSelects(old(Gathered()), who, sels, own, deps)
    {
      for i := 0 to |sels|
        invariant Gathered() == AddSelects(old(Gathered()), who, sels[..i], own, deps)
      {
        assert sels[..i + 1][..i] == sels[..i];
        var cond := MakeAnd(Some(ESym(who)), MakeAnd(MakeAnd(sels[i].cond, own), deps));
        var before := if sels[i].target in rev then rev[sels[i].target] else Some(EStr("n"));
        rev := rev[sels[i].target := MakeOr(before, cond)];
      }
      assert sels[..|sels|] == sels;
    }

    method ParseProperties(st: Stmt, deps: Cond, vis: Cond)
      modifies this
      ensures Gathered() == AddStmt(old(Gathered()), st, deps, vis)
    {
      var own := JoinLines(st.depends);
      if st.prompt.Some? {
        var before := if st.key in prompts then prompts[st.key] else [];
        prompts := prompts[st.key := before + [MakeAnd(MakeAnd(MakeAnd(st.prompt.value, vis), own), deps)]];
      }
      var placed := PlaceDefaults(st.defaults, own, deps);
      var before := if st.key in defaults then defaults[st.key] else [];
      defaults := defaults[st.key := before + placed];
      if st.key.OfSym? {
        RecordSelects(st.key.sym, st.selects, own, deps);
      }
    }

    method ParseBlock(ns: seq<Node>, deps: Cond, vis: Cond)
      modifies this
      ensures Gathered() == AddNodes(old(Gathered()), ns, deps, vis)
      decreases ns, 0
    {
      for i := 0 to |ns|
        invariant Gathered() == AddNodes(old(Gathered()), ns[..i], deps, vis)
      {
        assert ns[..i + 1][..i] == ns[..i];
        ParseItem(ns[i], deps, vis);
      }
      assert ns[..|ns|] == ns;
    }

    method ParseItem(n: Node, deps: Cond, vis: Cond)
      modifies this
      ensures Gathered() == AddNode(old(Gathered()), n, deps, vis)
      decreases n, 1
    {
      match n
      case Entry(st) =>
        ParseProperties(st, deps, vis);
      case IfBlock(c, body) =>
        ParseBlock(body, MakeAnd(Some(c), deps), vis);
      case MenuBlock(ds, vs, body) =>
        var own := JoinLines(ds);
        var visible := JoinLines(vs);
        ParseBlock(body, MakeAnd(own, deps), MakeAnd(vis, visible));
      case ChoiceBlock(st, body) =>
        ParseProperties(st, deps, vis);
        ParseBlock(body, deps, vis);
    }
  }

  // ---- What a nested item means ------------------------------------------

  /** A definition with all the conditions of the blocks around it. */
  datatype Placed = Placed(stmt: Stmt, around: seq<Expr>, visible: seq<Expr>)

  /** The definitions below a node, `around` and `visible` being the conditions outside of it. */
  function Places(n: Node, around: seq<Expr>, visible: seq<Expr>): seq<Placed>
    decreases n, 1
  {
    match n
    case Entry(st) => [Placed(st, around, visible)]
    case IfBlock(c, body) => AllPlaces(body, around + [c], visible)
    case MenuBlock(ds, vs, body) => AllPlaces(body, around + ds, visible + vs)
    case ChoiceBlock(st, body) => [Placed(st, around, visible)] + AllPlaces(body, around, visible)
  }

  function AllPlaces(ns: seq<Node>, around: seq<Expr>, visible: seq<Expr>): seq<Placed>
    decreases ns, 0
  {
    if ns == [] then [] else AllPlaces(ns[..|ns| - 1], around, visible) + Places(ns[|ns| - 1], around, visible)
  }

  /** The least value of a list of conditions. */
  function Least(env: Env, es: seq<Expr>): Tri {
    if es == [] then Y else Min(Least(env, es[..|es| - 1]), env.Cond(Some(es[|es| - 1])))
  }

  /** A condition bounded by the definition's own dependencies and everything around it. */
  function Bounded(env: Env, pl: Placed, cond: Cond): Tri {
    Min(env.Cond(cond), Min(Least(env, pl.stmt.depends), Least(env, pl.around)))
  }

  /** The values of the prompts of `k`, definition by definition. */
  function PromptValues(env: Env, ps: seq<Placed>, k: Key): seq<Tri> {
    if ps == [] then []
    else
      var pl := ps[|ps| - 1];
      PromptValues(env, ps[..|ps| - 1], k) +
      if pl.stmt.key == k && pl.stmt.prompt.Some?
      then [Min(Bounded(env, pl, pl.stmt.prompt.value), Least(env, pl.visible))] else []
  }

  function BoundedDefaults(env: Env, pl: Placed, ds: seq<Default>): seq<(Expr, Tri)> {
    if ds == [] then []
    else
      var d := ds[|ds| - 1];
      BoundedDefaults(env, pl, ds[..|ds| - 1]) + [(d.val, Bounded(env, pl, d.cond))]
  }

  function DefaultValues(env: Env, ps: seq<Placed>, k: Key): seq<(Expr, Tri)> {
    if ps == [] then []
    else
      var pl := ps[|ps| - 1];
      DefaultValues(env, ps[..|ps| - 1], k) +
      if pl.stmt.key == k then BoundedDefaults(env, pl, pl.stmt.defaults) else []
  }

  /** The most that the selects of one definition give to `t`: each at most its own symbol. */
  function SelectedBy(env: Env, pl: Placed, sels: seq<Select>, t: Sym): Tri {
    if sels == [] || !pl.stmt.key.OfSym? then N
    else
      var sel := sels[|sels| - 1];
      Max(SelectedBy(env, pl, sels[..|sels| - 1], t),
          if sel.target == t then Min(env.Cond(Some(ESym(pl.stmt.key.sym))), Bounded(env, pl, sel.cond)) else N)
  }

  function Selected(env: Env, ps: seq<Placed>, t: Sym): Tri {
    if ps == [] then N
    else
      var pl := ps[|ps| - 1];
      Max(Selected(env, ps[..|ps| - 1], t), SelectedBy(env, pl, pl.stmt.selects, t))
  }

  // ---- Gathered conditions evaluated -------------------------------------

  function CondValues(env: Env, cs: seq<Cond>): seq<Tri> {
    if cs == [] then [] else CondValues(env, cs[..|cs| - 1]) + [env.Cond(cs[|cs| - 1])]
  }

  function DefaultConds(env: Env, ds: seq<Default>): seq<(Expr, Tri)> {
    if ds == [] then []
    else DefaultConds(env, ds[..|ds| - 1]) + [(ds[|ds| - 1].val, env.Cond(ds[|ds| - 1].cond))]
  }

  ghost predicate PromptsMean(env: Env, p: Props, ps: seq<Placed>) {
    forall k :: CondValues(env, p.Prompts(k)) == PromptValues(env, ps, k)
  }

  ghost predicate DefaultsMean(env: Env, p: Props, ps: seq<Placed>) {
    forall k :: DefaultConds(env, p.Defaults(k)) == DefaultValues(env, ps, k)
  }

  ghost predicate SelectsMean(env: Env, p: Props, ps: seq<Placed>) {
    forall t :: env.Cond(p.Rev(t)) == Selected(env, ps, t)
  }

  ghost predicate Means(env: Env, p: Props, ps: seq<Placed>) {
    PromptsMean(env, p, ps) && DefaultsMean(env, p, ps) && SelectsMean(env, p, ps)
  }

  lemma {:induction false} ConjIsLeast(env: Env, es: seq<Expr>)
    ensures env.Cond(Conj(es)) == Least(env, es)
    decreases |es|
  {
    if es != [] {
      ConjIsLeast(env, es[..|es| - 1]);
      MakeAndIsMin(env.view, env.mods, Conj(es[..|es| - 1]), Some(es[|es| - 1]));
    }
  }

  lemma {:induction false} LeastOfBoth(env: Env, a: seq<Expr>, b: seq<Expr>)
    ensures Least(env, a + b) == Min(Least(env, a), Least(env, b))
    decreases |b|
  {
    if b == [] {
      assert a + b == a;
    } else {
      LeastOfBoth(env, a, b[..|b| - 1]);
      assert (a + b)[..|a + b| - 1] == a + b[..|b| - 1];
    }
  }

  /** `Least` is the minimum: below every member, and reached by one unless it is "y". */
  lemma {:induction false} LeastIsMinimum(env: Env, es: seq<Expr>)
    ensures forall i | 0 <= i < |es| :: Least(env, es).Rank() <= env.Cond(Some(es[i])).Rank()
    ensures Least(env, es) == Y || exists i | 0 <= i < |es| :: Least(env, es) == env.Cond(Some(es[i]))
    decreases |es|
  {
    if es != [] {
      var front := es[..|es| - 1];
      LeastIsMinimum(env, front);
      forall i | 0 <= i < |es| ensures Least(env, es).Rank() <= env.Cond(Some(es[i])).Rank() {
        if i < |front| {
          assert es[i] == front[i];
        }
      }
      if Least(env, es) != Y {
        if Least(env, es) == env.Cond(Some(es[|es| - 1])) {
        } else {
          var i :| 0 <= i < |front| && Least(env, front) == env.Cond(Some(front[i]));
          assert es[i] == front[i];
        }
      }
    }
  }

  // ---- One definition ----------------------------------------------------

  /** The conditions handed down stand for the lists of conditions around. */
  ghost predicate Stands(env: Env, deps: Cond, vis: Cond, pl: Placed) {
    env.Cond(deps) == Least(env, pl.around) && env.Cond(vis) == Least(env, pl.visible)
  }

  lemma BoundedCond(env: Env, pl: Placed, cond: Cond, deps: Cond)
    requires env.Cond(deps) == Least(env, pl.around)
    ensures env.Cond(MakeAnd(MakeAnd(cond, Conj(pl.stmt.depends)), deps)) == Bounded(env, pl, cond)
  {
    var own := Conj(pl.stmt.depends);
    ConjIsLeast(env, pl.stmt.depends);
    MakeAndIsMin(env.view, env.mods, cond, own);
    MakeAndIsMin(env.view, env.mods, MakeAnd(cond, own), deps);
  }

  lemma PromptMeans(env: Env, pl: Placed, deps: Cond, vis: Cond, cond: Cond)
    requires Stands(env, deps, vis, pl)
    ensures env.Cond(PromptCond(cond, Conj(pl.stmt.depends), deps, vis))
         == Min(Bounded(env, pl, cond), Least(env, pl.visible))
  {
    BoundedCond(env, pl, MakeAnd(cond, vis), deps);
    MakeAndIsMin(env.view, env.mods, cond, vis);
  }

  lemma {:induction false} PlacedDefaultsMean(env: Env, pl: Placed, ds: seq<Default>, deps: Cond)
    requires env.Cond(deps) == Least(env, pl.around)
    ensures DefaultConds(env, PlacedDefaults(ds, Conj(pl.stmt.depends), deps)) == BoundedDefaults(env, pl, ds)
    decreases |ds|
  {
    if ds != [] {
      var own := Conj(pl.stmt.depends);
      var front := PlacedDefaults(ds[..|ds| - 1], own, deps);
      assert PlacedDefaults(ds, own, deps)[..|PlacedDefaults(ds, own, deps)| - 1] == front;
      PlacedDefaultsMean(env, pl, ds[..|ds| - 1], deps);
      BoundedCond(env, pl, ds[|ds| - 1].cond, deps);
    }
  }

  lemma {:induction false} DefaultCondsConcat(env: Env, a: seq<Default>, b: seq<Default>)
    ensures DefaultConds(env, a + b) == DefaultConds(env, a) + DefaultConds(env, b)
    decreases |b|
  {
    if b == [] {
      assert a + b == a;
    } else {
      assert (a + b)[..|a + b| - 1] == a + b[..|b| - 1];
      DefaultCondsConcat(env, a, b[..|b| - 1]);
    }
  }

  lemma SelectMeans(env: Env, p: Props, pl: Placed, sel: Select, deps: Cond, t: Sym)
    requires pl.stmt.key.OfSym? && env.Cond(deps) == Least(env, pl.around)
    ensures env.Cond(AddSelect(p, pl.stmt.key.sym, sel, Conj(pl.stmt.depends), deps).Rev(t))
         == if sel.target == t then Max(env.Cond(p.Rev(t)), Min(env.Cond(Some(ESym(pl.stmt.key.sym))), Bounded(env, pl, sel.cond)))
            else env.Cond(p.Rev(t))
  {
    var cond := MakeAnd(MakeAnd(sel.cond, Conj(pl.stmt.depends)), deps);
    BoundedCond(env, pl, sel.cond, deps);
    MakeAndIsMin(env.view, env.mods, Some(ESym(pl.stmt.key.sym)), cond);
    MakeOrIsMax(env.view, env.mods, p.Rev(t), MakeAnd(Some(ESym(pl.stmt.key.sym)), cond));
  }

  lemma {:induction false} SelectsMeanMax(env: Env, p: Props, pl: Placed, sels: seq<Select>, deps: Cond, t: Sym)
    requires pl.stmt.key.OfSym? && env.Cond(deps) == Least(env, pl.around)
    ensures var q := AddSelects(p, pl.stmt.key.sym, sels, Conj(pl.stmt.depends), deps);
            q.prompts == p.prompts && q.defaults == p.defaults &&
            env.Cond(q.Rev(t)) == Max(env.Cond(p.Rev(t)), SelectedBy(env, pl, sels, t))
    decreases |sels|
  {
    if sels != [] {
      var own := Conj(pl.stmt.depends);
      var front := AddSelects(p, pl.stmt.key.sym, sels[..|sels| - 1], own, deps);
      SelectsMeanMax(env, p, pl, sels[..|sels| - 1], deps, t);
      SelectMeans(env, front, pl, sels[|sels| - 1], deps, t);
    }
  }

  lemma {:induction false} AddSelectsFrame(p: Props, who: Sym, sels: seq<Select>, own: Cond, deps: Cond)
    ensures var q := AddSelects(p, who, sels, own, deps);
            q.prompts == p.prompts && q.defaults == p.defaults
    decreases |sels|
  {
    if sels != [] {
      AddSelectsFrame(p, who, sels[..|sels| - 1], own, deps);
    }
  }

  lemma StmtFrame(p: Props, st: Stmt, deps: Cond, vis: Cond)
    ensures AddStmt(p, st, deps, vis).prompts == AddPrompt(p, st, deps, vis).prompts
    ensures AddStmt(p, st, deps, vis).defaults == AddDefaults(p, st, deps).defaults
  {
    if st.key.OfSym? {
      AddSelectsFrame(AddDefaults(AddPrompt(p, st, deps, vis), st, deps), st.key.sym, st.selects, Conj(st.depends), deps);
    }
  }

  lemma CondValuesSnoc(env: Env, cs: seq<Cond>, c: Cond)
    ensures CondValues(env, cs + [c]) == CondValues(env, cs) + [env.Cond(c)]
  {
    assert (cs + [c])[..|cs|] == cs;
  }

  lemma PromptValuesSnoc(env: Env, ps: seq<Placed>, pl: Placed, k: Key)
    ensures PromptValues(env, ps + [pl], k) ==
      if pl.stmt.key == k && pl.stmt.prompt.Some?
      then PromptValues(env, ps, k) + [Min(Bounded(env, pl, pl.stmt.prompt.value), Least(env, pl.visible))]
      else PromptValues(env, ps, k)
  {
    assert (ps + [pl])[..|ps|] == ps;
  }

  lemma PromptAt(env: Env, p: Props, ps: seq<Placed>, pl: Placed, deps: Cond, vis: Cond, k: Key)
    requires CondValues(env, p.Prompts(k)) == PromptValues(env, ps, k) && Stands(env, deps, vis, pl)
    ensures CondValues(env, AddPrompt(p, pl.stmt, deps, vis).Prompts(k)) == PromptValues(env, ps + [pl], k)
  {
    var st := pl.stmt;
    PromptValuesSnoc(env, ps, pl, k);
    if st.key == k && st.prompt.Some? {
      var cond := PromptCond(st.prompt.value, Conj(st.depends), deps, vis);
      PromptMeans(env, pl, deps, vis, st.prompt.value);
      CondValuesSnoc(env, p.Prompts(k), cond);
      assert AddPrompt(p, st, deps, vis).Prompts(k) == p.Prompts(k) + [cond];
    }
  }

  lemma StmtPrompts(env: Env, p: Props, ps: seq<Placed>, pl: Placed, deps: Cond, vis: Cond)
    requires PromptsMean(env, p, ps) && Stands(env, deps, vis, pl)
    ensures PromptsMean(env, AddStmt(p, pl.stmt, deps, vis), ps + [pl])
  {
    StmtFrame(p, pl.stmt, deps, vis);
    forall k ensures CondValues(env, AddStmt(p, pl.stmt, deps, vis).Prompts(k)) == PromptValues(env, ps + [pl], k) {
      PromptAt(env, p, ps, pl, deps, vis, k);
    }
  }

  lemma StmtDefaults(env: Env, p: Props, ps: seq<Placed>, pl: Placed, deps: Cond, vis: Cond)
    requires DefaultsMean(env, p, ps) && Stands(env, deps, vis, pl)
    ensures DefaultsMean(env, AddStmt(p, pl.stmt, deps, vis), ps + [pl])
  {
    var st := pl.stmt;
    var q := AddDefaults(p, st, deps);
    StmtFrame(p, st, deps, vis);
    assert (ps + [pl])[..|ps|] == ps;
    PlacedDefaultsMean(env, pl, st.defaults, deps);
    DefaultCondsConcat(env, p.Defaults(st.key), PlacedDefaults(st.defaults, Conj(st.depends), deps));
    forall k ensures DefaultConds(env, q.Defaults(k)) == DefaultValues(env, ps + [pl], k) {
      assert st.key != k ==> q.Defaults(k) == p.Defaults(k);
    }
    forall k ensures AddStmt(p, pl.stmt, deps, vis).Defaults(k) == q.Defaults(k) {
    }
  }

  lemma StmtSelects(env: Env, p: Props, ps: seq<Placed>, pl: Placed, deps: Cond, vis: Cond)
    requires SelectsMean(env, p, ps) && Stands(env, deps, vis, pl)
    ensures SelectsMean(env, AddStmt(p, pl.stmt, deps, vis), ps + [pl])
  {
    var st := pl.stmt;
    var q := AddDefaults(AddPrompt(p, st, deps, vis), st, deps);
    assert (ps + [pl])[..|ps|] == ps;
    forall t ensures env.Cond(AddStmt(p, st, deps, vis).Rev(t)) == Selected(env, ps + [pl], t) {
      assert q.Rev(t) == p.Rev(t);
      if st.key.OfSym? {
        SelectsMeanMax(env, q, pl, st.selects, deps, t);
      }
    }
  }

  lemma StmtMeans(env: Env, p: Props, ps: seq<Placed>, pl: Placed, deps: Cond, vis: Cond)
    requires Means(env, p, ps) && Stands(env, deps, vis, pl)
    ensures Means(env, AddStmt(p, pl.stmt, deps, vis), ps + [pl])
  {
    StmtPrompts(env, p, ps, pl, deps, vis);
    StmtDefaults(env, p, ps, pl, deps, vis);
    StmtSelects(env, p, ps, pl, deps, vis);
  }

  // ---- All of the file ---------------------------------------------------

  /** The conditions handed down to a block stand for those around it. */
  ghost predicate HandsDown(env: Env, deps: Cond, vis: Cond, around: seq<Expr>, visible: seq<Expr>) {
    env.Cond(deps) == Least(env, around) && env.Cond(vis) == Least(env, visible)
  }

  lemma {:induction false} NodeMeans(env: Env, p: Props, ps: seq<Placed>, n: Node, deps: Cond, vis: Cond,
                                     around: seq<Expr>, visible: seq<Expr>)
    requires Means(env, p, ps) && HandsDown(env, deps, vis, around, visible)
    ensures Means(env, AddNode(p, n, deps, vis), ps + Places(n, around, visible))
    decreases n, 1
  {
    match n
    case Entry(st) =>
      StmtMeans(env, p, ps, Placed(st, around, visible), deps, vis);
    case IfBlock(c, body) =>
      IfHandsDown(env, deps, c, around);
      NodesMean(env, p, ps, body, MakeAnd(Some(c), deps), vis, around + [c], visible);
    case MenuBlock(ds, vs, body) =>
      MenuHandsDown(env, deps, vis, ds, vs, around, visible);
      NodesMean(env, p, ps, body, MakeAnd(Conj(ds), deps), MakeAnd(vis, Conj(vs)), around + ds, visible + vs);
    case ChoiceBlock(st, body) =>
      var pl := Placed(st, around, visible);
      StmtMeans(env, p, ps, pl, deps, vis);
      NodesMean(env, AddStmt(p, st, deps, vis), ps + [pl], body, deps, vis, around, visible);
      Regroup(ps, [pl], AllPlaces(body, around, visible));
  }

  lemma Regroup(a: seq<Placed>, b: seq<Placed>, c: seq<Placed>)
    ensures a + b + c == a + (b + c)
  {
  }

  lemma IfHandsDown(env: Env, deps: Cond, c: Expr, around: seq<Expr>)
    requires env.Cond(deps) == Least(env, around)
    ensures env.Cond(MakeAnd(Some(c), deps)) == Least(env, around + [c])
  {
    assert (around + [c])[..|around|] == around;
    MakeAndIsMin(env.view, env.mods, Some(c), deps);
  }

  lemma MenuHandsDown(env: Env, deps: Cond, vis: Cond, ds: seq<Expr>, vs: seq<Expr>,
                      around: seq<Expr>, visible: seq<Expr>)
    requires HandsDown(env, deps, vis, around, visible)
    ensures HandsDown(env, MakeAnd(Conj(ds), deps), MakeAnd(vis, Conj(vs)), around + ds, visible + vs)
  {
    ConjIsLeast(env, ds);
    ConjIsLeast(env, vs);
    LeastOfBoth(env, around, ds);
    LeastOfBoth(env, visible, vs);
    MakeAndIsMin(env.view, env.mods, Conj(ds), deps);
    MakeAndIsMin(env.view, env.mods, vis, Conj(vs));
  }

  lemma {:induction false} NodesMean(env: Env, p: Props, ps: seq<Placed>, ns: seq<Node>, deps: Cond, vis: Cond,
                                     around: seq<Expr>, visible: seq<Expr>)
    requires Means(env, p, ps) && HandsDown(env, deps, vis, around, visible)
    ensures Means(env, AddNodes(p, ns, deps, vis), ps + AllPlaces(ns, around, visible))
    decreases ns, 0
  {
    if ns == [] {
      assert ps + AllPlaces(ns, around, visible) == ps;
    } else {
      var front := ns[..|ns| - 1];
      var n := ns[|ns| - 1];
      NodesMean(env, p, ps, front, deps, vis, around, visible);
      NodeMeans(env, AddNodes(p, front, deps, vis), ps + AllPlaces(front, around, visible), n, deps, vis, around, visible);
      assert ps + AllPlaces(front, around, visible) + Places(n, around, visible) == ps + AllPlaces(ns, around, visible);
    }
  }

  /** Parsing a whole file, whatever its nesting: under every assignment each prompt evaluates to
      the minimum of its own condition, the definition's dependencies, every enclosing if and
      menu and every enclosing `visible if`; each default to that minimum without the last; and
      the reverse dependency of a symbol to the maximum over all selects of it of the minimum of
      the selecting symbol, the select's condition and everything around it. */
  lemma PropagationIsMinimum(env: Env, file: seq<Node>)
    ensures Means(env, AddNodes(Props(map[], map[], map[]), file, None, None), AllPlaces(file, [], []))
  {
    var p := Props(map[], map[], map[]);
    assert Means(env, p, []);
    NodesMean(env, p, [], file, None, None, [], []);
    assert [] + AllPlaces(file, [], []) == AllPlaces(file, [], []);
  }

  // ---- What it means for visibility --------------------------------------

  function Greatest(ts: seq<Tri>): Tri {
    if ts == [] then N else Max(Greatest(ts[..|ts| - 1]), ts[|ts| - 1])
  }

  lemma {:induction false} VisibilityIsGreatest(env: Env, cs: seq<Cond>)
    ensures PromptVis(env, cs) == Greatest(CondValues(env, cs))
    ensures env.Again(PromptVis(env, cs)) == PromptVis(env, cs)
    decreases |cs|
  {
    if cs != [] {
      VisibilityIsGreatest(env, cs[..|cs| - 1]);
    }
  }

  /** So the visibility computed from the gathered prompts is the greatest, over the definitions
      of the item, of the least of all the conditions a prompt is under. */
  lemma NestedVisibility(env: Env, file: seq<Node>, k: Key)
    ensures PromptVis(env, AddNodes(Props(map[], map[], map[]), file, None, None).Prompts(k))
         == Greatest(PromptValues(env, AllPlaces(file, [], []), k))
  {
    PropagationIsMinimum(env, file);
    VisibilityIsGreatest(env, AddNodes(Props(map[], map[], map[]), file, None, None).Prompts(k));
  }

  ghost predicate Dead(env: Env, around: seq<Expr>) {
    exists i | 0 <= i < |around| :: env.Cond(Some(around[i])) == N
  }

  /** Nothing below a block whose condition is "n" can be seen, or select anything. */
  lemma {:induction false} DeadBlock(env: Env, n: Node, around: seq<Expr>, visible: seq<Expr>, k: Key, t: Sym)
    requires Dead(env, around)
    ensures Greatest(PromptValues(env, Places(n, around, visible), k)) == N
    ensures Selected(env, Places(n, around, visible), t) == N
  {
    AroundStays(n, around, visible);
    InsideIsDead(env, Places(n, around, visible), around);
    DeadPrompts(env, Places(n, around, visible), k);
    DeadSelected(env, Places(n, around, visible), t);
  }

  ghost predicate Inside(ps: seq<Placed>, around: seq<Expr>) {
    forall i | 0 <= i < |ps| :: around <= ps[i].around
  }

  lemma {:induction false} AroundStays(n: Node, around: seq<Expr>, visible: seq<Expr>)
    ensures Inside(Places(n, around, visible), around)
    decreases n, 1
  {
    match n
    case Entry(_) =>
    case IfBlock(c, body) => AllAroundStay(body, around + [c], visible);
    case MenuBlock(ds, vs, body) => AllAroundStay(body, around + ds, visible + vs);
    case ChoiceBlock(_, body) => AllAroundStay(body, around, visible);
  }

  lemma {:induction false} AllAroundStay(ns: seq<Node>, around: seq<Expr>, visible: seq<Expr>)
    ensures Inside(AllPlaces(ns, around, visible), around)
    decreases ns, 0
  {
    if ns != [] {
      AllAroundStay(ns[..|ns| - 1], around, visible);
      AroundStays(ns[|ns| - 1], around, visible);
    }
  }

  lemma DeadAround(env: Env, around: seq<Expr>, more: seq<Expr>)
    requires Dead(env, around) && around <= more
    ensures Least(env, more) == N
  {
    var i :| 0 <= i < |around| && env.Cond(Some(around[i])) == N;
    assert around[i] == more[i];
    LeastIsMinimum(env, more);
  }

  /** Everything is under some condition that is "n". */
  ghost predicate AllDead(env: Env, ps: seq<Placed>) {
    forall i | 0 <= i < |ps| :: Least(env, ps[i].around) == N
  }

  lemma InsideIsDead(env: Env, ps: seq<Placed>, around: seq<Expr>)
    requires Inside(ps, around) && Dead(env, around)
    ensures AllDead(env, ps)
  {
    forall i | 0 <= i < |ps| ensures Least(env, ps[i].around) == N {
      DeadAround(env, around, ps[i].around);
    }
  }

  lemma DeadPrompt(env: Env, ps: seq<Placed>, k: Key)
    requires ps != [] && Least(env, ps[|ps| - 1].around) == N
    requires Greatest(PromptValues(env, ps[..|ps| - 1], k)) == N
    ensures Greatest(PromptValues(env, ps, k)) == N
  {
    var vs := PromptValues(env, ps[..|ps| - 1], k);
    GreatestSnoc(vs, N);
    assert PromptValues(env, ps, k) == vs + [N] || PromptValues(env, ps, k) == vs + [] == vs;
  }

  lemma {:induction false} DeadPrompts(env: Env, ps: seq<Placed>, k: Key)
    requires AllDead(env, ps)
    ensures Greatest(PromptValues(env, ps, k)) == N
    decreases |ps|
  {
    if ps != [] {
      DeadPrompts(env, ps[..|ps| - 1], k);
      DeadPrompt(env, ps, k);
    }
  }

  lemma {:induction false} DeadSelected(env: Env, ps: seq<Placed>, t: Sym)
    requires AllDead(env, ps)
    ensures Selected(env, ps, t) == N
    decreases |ps|
  {
    if ps != [] {
      var pl := ps[|ps| - 1];
      DeadSelected(env, ps[..|ps| - 1], t);
      DeadSelects(env, pl, pl.stmt.selects, t);
    }
  }

  lemma GreatestSnoc(ts: seq<Tri>, t: Tri)
    ensures Greatest(ts + [t]) == Max(Greatest(ts), t)
  {
    assert (ts + [t])[..|ts|] == ts;
  }

  lemma {:induction false} DeadSelects(env: Env, pl: Placed, sels: seq<Select>, t: Sym)
    requires Least(env, pl.around) == N
    ensures SelectedBy(env, pl, sels, t) == N
    decreases |sels|
  {
    if sels != [] {
      DeadSelects(env, pl, sels[..|sels| - 1], t);
    }
  }
}
