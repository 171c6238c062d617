/** The writer and the loader of .config files (docs/kconfiglib.py: _make_conf, write_config,
    load_config), and which assignments the loader makes of what the writer wrote. */
module KconfFile {
  import opened Basics
  import opened KconfExpr
  import opened Kconfig
  import opened KconfFrame
  import opened KconfCache
  import opened KconfChoice
  import opened KconfText

  const NOBODY: User := User(map[], map[], map[])

  /** `_make_conf` of one symbol. */
  function ConfLine(typ: Type, s: Sym, val: string): string {
    if IsTri(typ) then
      if val == "y" || val == "m" then SetLine(s, val) else UnsetLine(s)
    else if typ == String then StringLine(s, val)
    else SetLine(s, val)
  }

  /** The values and write flags of all symbols. */
  type Outcomes = map<Sym, Outcome>

  ghost function AllOutcomes(k: Config, u: User): Outcomes
    requires Acyclic(k)
  {
    map s | s in k.syms :: Recompute(k, u, s)
  }

  /** Every symbol to be written has an outcome. */
  ghost predicate Covers(k: Config, out: Outcomes, order: seq<Sym>) {
    forall i | 0 <= i < |order| :: order[i] in k.syms && order[i] in out
  }

  /** The lines for the first n symbols of the configuration, in file order. */
  ghost function ConfLines(k: Config, out: Outcomes, order: seq<Sym>, n: nat): seq<string>
    requires n <= |order| && Covers(k, out, order)
  {
    if n == 0 then []
    else
      var s := order[n - 1];
      ConfLines(k, out, order, n - 1)
      + if out[s].write then [ConfLine(k.syms[s].typ, s, out[s].val)] else []
  }

  /** What the user values `u` become by loading the first n lines, None for a malformed string
      literal. */
  function LoadFrom(k: Config, u: User, lines: seq<string>, n: nat): Option<User>
    requires n <= |lines|
  {
    if n == 0 then Some(u)
    else
      var before := LoadFrom(k, u, lines, n - 1);
      if before == None then None
      else
        var p := ParseLine(lines[n - 1]);
        if p.Malformed? then None
        else if p.Ignored? || p.name !in k.syms then before
        else Some(SetUser(k, before.value, p.name, p.val))
  }

  /** `load_config` from the text of the file, on top of `u`. */
  function Load(k: Config, u: User, text: string): Option<User> {
    LoadFrom(k, u, Lines(text), |Lines(text)|)
  }

  /** The user values that the lines of the first n symbols stand for. */
  ghost function Reload(k: Config, out: Outcomes, order: seq<Sym>, n: nat): User
    requires n <= |order| && Covers(k, out, order)
  {
    if n == 0 then NOBODY
    else
      var s := order[n - 1];
      var w := Reload(k, out, order, n - 1);
      if out[s].write then SetUser(k, w, s, out[s].val) else w
  }

  // ---- The two loops -----------------------------------------------------

  /** `write_config`: each symbol's value is fetched and, if flagged, written. */
  method WriteConfig(e: Engine, order: seq<Sym>) returns (lines: seq<string>)
    requires e.Valid() && Covers(e.k, AllOutcomes(e.k, e.user), order)
    modifies e`cache
    ensures e.Valid()
    ensures lines == ConfLines(e.k, AllOutcomes(e.k, e.user), order, |order|)
  {
    lines := [];
    ghost var k, u, out := e.k, e.user, AllOutcomes(e.k, e.user);
    for i := 0 to |order|
      invariant e.Valid() && e.k == k && e.user == u && lines == ConfLines(k, out, order, i)
    {
      OneMoreLine(k, u, order, i);
      lines := MakeConf(e, order[i], lines);
    }
  }

  /** `_make_conf`: the line of a symbol is appended if the symbol is to be written. */
  method MakeConf(e: Engine, s: Sym, lines: seq<string>) returns (more: seq<string>)
    requires e.Valid() && s in e.k.syms
    modifies e`cache
    ensures e.Valid()
    ensures var r := Recompute(e.k, e.user, s);
            more == lines + if r.write then [ConfLine(e.k.syms[s].typ, s, r.val)] else []
  {
    var r := Fetch(e, s);
    more := if r.write then lines + [ConfLine(e.k.syms[s].typ, s, r.val)] else lines;
  }

  lemma OneMoreLine(k: Config, u: User, order: seq<Sym>, i: nat)
    requires Acyclic(k) && i < |order| && Covers(k, AllOutcomes(k, u), order)
    ensures var out, r := AllOutcomes(k, u), Recompute(k, u, order[i]);
      ConfLines(k, out, order, i + 1) ==
      ConfLines(k, out, order, i) + if r.write then [ConfLine(k.syms[order[i]].typ, order[i], r.val)] else []
  {
  }

  /** get_value, and the write flag that it leaves behind. */
  method Fetch(e: Engine, s: Sym) returns (r: Outcome)
    requires e.Valid() && s in e.k.syms
    modifies e`cache
    ensures e.Valid() && r == Recompute(e.k, e.user, s)
  {
    var v := e.GetValue(s);
    r := Outcome(v, s in e.cache.write);
  }

  /** `load_config`: everything is invalidated and, to replace the old configuration, all values
      are unset; then each line assigns without invalidating. A malformed string literal raises
      half-way. */
  method LoadConfig(e: Engine, text: string, replace: bool) returns (ok: bool)
    requires e.Valid()
    modifies e
    ensures e.Valid()
    ensures ok == Load(e.k, if replace then NOBODY else old(e.user), text).Some?
    ensures ok ==> Load(e.k, if replace then NOBODY else old(e.user), text) == Some(e.user)
  {
    ghost var old_user, start := e.user, e.cache;
    if replace {
      e.UnsetAll();
    } else {
      e.InvalidateAll();
    }
    ok := LoadEach(e, Lines(text), old_user, start);
  }

  method LoadEach(e: Engine, lines: seq<string>, ghost u: User, ghost start: Cache) returns (ok: bool)
    requires e.Valid() && Coherent(e.k, u, start) && e.cache == Drop(e.k, start, e.k.syms.Keys)
    modifies e`user
    ensures e.Valid() && ok == LoadFrom(e.k, old(e.user), lines, |lines|).Some?
    ensures ok ==> LoadFrom(e.k, old(e.user), lines, |lines|) == Some(e.user)
  {
    for i := 0 to |lines|
      invariant e.Valid() && LoadFrom(e.k, old(e.user), lines, i) == Some(e.user)
    {
      ok := LoadLine(e, lines[i], u, start);
      if !ok {
        MalformedStops(e.k, old(e.user), lines, i + 1);
        return;
      }
    }
    ok := true;
  }

  /** What one line of the file does. */
  function LoadedLine(k: Config, u: User, line: string): Option<User> {
    var p := ParseLine(line);
    if p.Malformed? then None
    else if p.Ignored? || p.name !in k.syms then Some(u)
    else Some(SetUser(k, u, p.name, p.val))
  }

  method LoadLine(e: Engine, line: string, ghost u: User, ghost start: Cache) returns (ok: bool)
    requires e.Valid() && Coherent(e.k, u, start) && e.cache == Drop(e.k, start, e.k.syms.Keys)
    modifies e`user
    ensures e.Valid() && ok == LoadedLine(e.k, old(e.user), line).Some?
    ensures ok ==> e.user == LoadedLine(e.k, old(e.user), line).value
  {
    var p := ParseLine(line);
    if p.Malformed? {
      return false;
    }
    if p.Assign? && p.name in e.k.syms {
      AssignQuietly(e, p.name, p.val, u, start);
    }
    ok := true;
  }

  /** `_set_user_value_no_invalidate`, right after everything was invalidated. */
  method AssignQuietly(e: Engine, s: Sym, v: string, ghost u: User, ghost start: Cache)
    requires e.Valid() && s in e.k.syms
    requires Coherent(e.k, u, start) && e.cache == Drop(e.k, start, e.k.syms.Keys)
    modifies e`user
    ensures e.Valid() && e.user == SetUser(e.k, old(e.user), s, v)
  {
    SetUserDiffers(e.k, e.user, s, v);
    e.user := SetUser(e.k, e.user, s, v);
    DropAllIsCoherent(e.k, u, e.user, start);
  }

  lemma {:induction false} MalformedStops(k: Config, u: User, lines: seq<string>, n: nat)
    requires n <= |lines| && LoadFrom(k, u, lines, n) == None
    ensures LoadFrom(k, u, lines, |lines|) == None
    decreases |lines| - n
  {
    if n < |lines| {
      MalformedStops(k, u, lines, n + 1);
    }
  }

  // ---- Text --------------------------------------------------------------

  /** The values that can be written as a line: no newline in a string, no oddity in a number. */
  predicate Writable(typ: Type, val: string) {
    match typ
    case Unknown => false
    case Bool => val == "y" || val == "m" || val == "n"
    case Tristate => val == "y" || val == "m" || val == "n"
    case String => '\n' !in val
    case Hex => PlainText(val)
    case Int => PlainText(val)
  }

  lemma SetIsOneLine(s: Sym, val: string)
    requires '\n' !in s && OneLine(val)
    ensures OneLine(SetLine(s, val))
  {
    var line := SetLine(s, val);
    assert line[|line| - 1] == if val == [] then '=' else val[|val| - 1];
    assert '\n' !in PREFIX && '\n' !in "=";
  }

  lemma TriLineIsRead(typ: Type, s: Sym, val: string)
    requires WordName(s) && IsTri(typ) && Writable(typ, val)
    ensures ParseLine(ConfLine(typ, s, val)) == Assign(s, val)
    ensures OneLine(ConfLine(typ, s, val))
  {
    NameHasNoNewline(s);
    if val == "n" {
      ParseUnsetLine(s);
      UnsetIsOneLine(s);
    } else {
      ParseSetLine(s, val);
      SetIsOneLine(s, val);
    }
  }

  lemma StringLineIsRead(s: Sym, val: string)
    requires WordName(s) && '\n' !in val
    ensures ParseLine(StringLine(s, val)) == Assign(s, val)
    ensures OneLine(StringLine(s, val))
  {
    NameHasNoNewline(s);
    ParseStringLine(s, val);
    ReplaceKeepsOut(val, '\\', ['\\', '\\'], '\n');
    ReplaceKeepsOut(ReplaceChar(val, '\\', ['\\', '\\']), '"', ['\\', '"'], '\n');
    var q := "\"" + Escape(val) + "\"";
    assert q[|q| - 1] == '"';
    SetIsOneLine(s, q);
  }

  lemma LineIsRead(typ: Type, s: Sym, val: string)
    requires WordName(s) && Writable(typ, val)
    ensures ParseLine(ConfLine(typ, s, val)) == Assign(s, val)
    ensures OneLine(ConfLine(typ, s, val))
  {
    match typ
    case Bool => TriLineIsRead(typ, s, val);
    case Tristate => TriLineIsRead(typ, s, val);
    case String => StringLineIsRead(s, val);
    case Hex =>
      NameHasNoNewline(s);
      ParseSetLine(s, val);
      SetIsOneLine(s, val);
    case Int =>
      NameHasNoNewline(s);
      ParseSetLine(s, val);
      SetIsOneLine(s, val);
  }

  lemma UnsetIsOneLine(s: Sym)
    requires '\n' !in s
    ensures OneLine(UnsetLine(s))
  {
    var line := UnsetLine(s);
    assert line[|line| - 1] == 't';
  }

  lemma NameHasNoNewline(s: Sym)
    requires WordName(s)
    ensures '\n' !in s
  {
    assert !IsWord('\n');
  }

  /** What makes a configuration expressible as text: word names and writable values. */
  ghost predicate Expressible(k: Config, out: Outcomes, order: seq<Sym>)
    requires Covers(k, out, order)
  {
    forall i | 0 <= i < |order| && out[order[i]].write ::
      WordName(order[i]) && Writable(k.syms[order[i]].typ, out[order[i]].val)
  }

  lemma LoadOneMore(k: Config, lines: seq<string>, line: string, name: Sym, val: string, w: User)
    requires LoadFrom(k, NOBODY, lines, |lines|) == Some(w) && ParseLine(line) == Assign(name, val) && name in k.syms
    ensures LoadFrom(k, NOBODY, lines + [line], |lines| + 1) == Some(SetUser(k, w, name, val))
  {
    var more := lines + [line];
    LoadPrefix(k, lines, more, |lines|);
    assert more[|lines|] == line;
  }

  /** One more symbol: its line, if it has one, is one more assignment. */
  lemma SymbolIsLoaded(k: Config, out: Outcomes, order: seq<Sym>, n: nat, lines: seq<string>, w: User)
    requires 0 < n <= |order| && Covers(k, out, order) && Expressible(k, out, order) && out[order[n - 1]].write
    requires lines == ConfLines(k, out, order, n - 1) && w == Reload(k, out, order, n - 1)
    requires LoadFrom(k, NOBODY, lines, |lines|) == Some(w)
    ensures var more := ConfLines(k, out, order, n); LoadFrom(k, NOBODY, more, |more|) == Some(Reload(k, out, order, n))
  {
    var s := order[n - 1];
    var line := ConfLine(k.syms[s].typ, s, out[s].val);
    LineIsRead(k.syms[s].typ, s, out[s].val);
    LoadOneMore(k, lines, line, s, out[s].val, w);
    assert ConfLines(k, out, order, n) == lines + [line];
  }

  lemma {:induction false} LinesAreLoaded(k: Config, out: Outcomes, order: seq<Sym>, n: nat)
    requires n <= |order| && Covers(k, out, order) && Expressible(k, out, order)
    ensures var lines := ConfLines(k, out, order, n);
            LoadFrom(k, NOBODY, lines, |lines|) == Some(Reload(k, out, order, n))
  {
    if n > 0 {
      LinesAreLoaded(k, out, order, n - 1);
      if out[order[n - 1]].write {
        SymbolIsLoaded(k, out, order, n, ConfLines(k, out, order, n - 1), Reload(k, out, order, n - 1));
      } else {
        assert ConfLines(k, out, order, n) == ConfLines(k, out, order, n - 1);
      }
    }
  }

  lemma {:induction false} LinesAreLines(k: Config, out: Outcomes, order: seq<Sym>, n: nat)
    requires n <= |order| && Covers(k, out, order) && Expressible(k, out, order)
    ensures forall i | 0 <= i < |ConfLines(k, out, order, n)| :: OneLine(ConfLines(k, out, order, n)[i])
  {
    if n > 0 {
      LinesAreLines(k, out, order, n - 1);
      var s := order[n - 1];
      if out[s].write {
        LineIsRead(k.syms[s].typ, s, out[s].val);
      }
    }
  }

  lemma {:induction false} LoadPrefix(k: Config, a: seq<string>, b: seq<string>, n: nat)
    requires n <= |a| <= |b| && a == b[..|a|]
    ensures LoadFrom(k, NOBODY, a, n) == LoadFrom(k, NOBODY, b, n)
  {
    if n > 0 {
      LoadPrefix(k, a, b, n - 1);
    }
  }

  /** The loader recovers exactly the assignments the writer put into the file. */
  lemma TextIsLoaded(k: Config, out: Outcomes, order: seq<Sym>)
    requires Covers(k, out, order) && Expressible(k, out, order)
    ensures Load(k, NOBODY, Text(ConfLines(k, out, order, |order|))) == Some(Reload(k, out, order, |order|))
  {
    var lines := ConfLines(k, out, order, |order|);
    LinesAreLoaded(k, out, order, |order|);
    LinesAreLines(k, out, order, |order|);
    LinesOfText(lines);
    if lines == [] {
      assert Lines(Text(lines)) == [""];
      assert ParseLine("") == Ignored;
      assert LoadFrom(k, NOBODY, [""], 1) == LoadFrom(k, NOBODY, [""], 0);
    }
  }

  // ---- The reloaded assignments ------------------------------------------

  /** The written value of s, when the loader accepts it. */
  ghost function Accepted(k: Config, out: Outcomes, s: Sym): Option<string>
    requires s in k.syms && s in out
  {
    if out[s].write && k.syms[s].special == None && ValidValue(k, k.syms[s].typ, out[s].val)
    then Some(out[s].val) else None
  }

  /** No choice symbol has the value "m". */
  ghost predicate NoChoiceM(k: Config, out: Outcomes) {
    forall s | s in k.syms && s in out && k.syms[s].choice.Some? :: out[s].val != "m" && IsTri(k.syms[s].typ)
  }

  ghost predicate Within(k: Config, out: Outcomes, done: set<Sym>) {
    done <= k.syms.Keys && done <= out.Keys
  }

  /** Each symbol read so far has the value written for it. */
  ghost predicate ValsReloaded(k: Config, out: Outcomes, done: set<Sym>, vals: map<Sym, string>)
    requires Within(k, out, done)
  {
    && vals.Keys <= done
    && forall s | s in done :: Get(vals, s) == Accepted(k, out, s)
  }

  /** A selection comes from a symbol of the choice that was written "y", with mode "y". */
  ghost predicate SelReloaded(k: Config, out: Outcomes, done: set<Sym>, sel: map<nat, Sym>, mode: map<nat, Tri>)
    requires Within(k, out, done)
  {
    && sel.Keys == mode.Keys
    && forall id | id in sel :: mode[id] == Y && Elected(k, out, done, id, sel[id])
  }

  ghost predicate Elected(k: Config, out: Outcomes, done: set<Sym>, id: nat, x: Sym)
    requires Within(k, out, done)
  {
    Member(k, x, id) && x in done && Accepted(k, out, x) == Some("y")
  }

  /** And every such symbol has left one. */
  ghost predicate SelComplete(k: Config, out: Outcomes, done: set<Sym>, sel: map<nat, Sym>)
    requires Within(k, out, done)
  {
    forall id: nat, x {:trigger Elected(k, out, done, id, x)} :: Elected(k, out, done, id, x) ==> id in sel
  }

  /** After reloading, each symbol has its written value and each choice the symbol written "y". */
  ghost predicate Reloaded(k: Config, out: Outcomes, done: set<Sym>, w: User)
    requires Within(k, out, done)
  {
    ValsReloaded(k, out, done, w.vals) && SelReloaded(k, out, done, w.sel, w.mode) && SelComplete(k, out, done, w.sel)
  }

  ghost function Step(k: Config, out: Outcomes, s: Sym, w: User): User
    requires s in k.syms && s in out
  {
    if out[s].write then SetUser(k, w, s, out[s].val) else w
  }

  /** An accepted value is stored; "y" for a choice symbol also elects it. */
  lemma StepShape(k: Config, out: Outcomes, s: Sym, w: User)
    requires s in k.syms && s in out && NoChoiceM(k, out)
    ensures var v := Accepted(k, out, s);
            var w' := Step(k, out, s, w);
            && w'.vals == (if v.Some? then w.vals[s := v.value] else w.vals)
            && if v == Some("y") && k.syms[s].choice.Some?
               then w'.sel == w.sel[k.syms[s].choice.value := s] && w'.mode == w.mode[k.syms[s].choice.value := Y]
               else w'.sel == w.sel && w'.mode == w.mode
  {
  }

  lemma ReloadStep(k: Config, out: Outcomes, done: set<Sym>, s: Sym, w: User)
    requires s in k.syms && s in out && Within(k, out, done) && NoChoiceM(k, out) && Reloaded(k, out, done, w)
    requires s !in done
    ensures Reloaded(k, out, done + {s}, Step(k, out, s, w))
  {
    StepShape(k, out, s, w);
    var w', more := Step(k, out, s, w), done + {s};
    assert ValsReloaded(k, out, more, w'.vals);
    forall id | id in w'.sel
      ensures w'.mode[id] == Y && Elected(k, out, more, id, w'.sel[id])
    {
      if id in w.sel {
        assert Elected(k, out, done, id, w.sel[id]);
      }
    }
    forall id: nat, x | Elected(k, out, more, id, x)
      ensures id in w'.sel
    {
      if x != s {
        assert Elected(k, out, done, id, x);
      }
    }
  }

  ghost function Seen(order: seq<Sym>, n: nat): set<Sym>
    requires n <= |order|
  {
    set i | 0 <= i < n :: order[i]
  }

  lemma {:induction false} ReloadIsReloaded(k: Config, out: Outcomes, order: seq<Sym>, n: nat)
    requires n <= |order| && Covers(k, out, order) && NoChoiceM(k, out)
    requires forall i, j | 0 <= i < j < |order| :: order[i] != order[j]
    ensures Within(k, out, Seen(order, n)) && Reloaded(k, out, Seen(order, n), Reload(k, out, order, n))
  {
    if n > 0 {
      ReloadIsReloaded(k, out, order, n - 1);
      assert Seen(order, n) == Seen(order, n - 1) + {order[n - 1]};
      ReloadStep(k, out, Seen(order, n - 1), order[n - 1], Reload(k, out, order, n - 1));
    }
  }
}
