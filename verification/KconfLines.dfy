/** Which lines a .config file has, and which of several lines for one symbol counts
    (docs/kconfiglib.py: write_config, load_config). */
module KconfLines {
  import opened Basics
  import opened KconfExpr
  import opened Kconfig
  import opened KconfFrame
  import opened KconfCache
  import opened KconfText
  import opened KconfFile

  // ---- Writing -----------------------------------------------------------

  /** The format of a line: a bool or tristate that is off is written as a comment, and a string is
      quoted with backslashes before its quotes and backslashes. */
  lemma LineFormat(typ: Type, s: Sym, val: string)
    requires typ != Unknown
    ensures ConfLine(typ, s, val) ==
            if typ == String then "CONFIG_" + s + "=\"" + Escape(val) + "\""
            else if (typ == Bool || typ == Tristate) && val != "y" && val != "m" then "# CONFIG_" + s + " is not set"
            else "CONFIG_" + s + "=" + val
  {
    if typ == String {
      assert "CONFIG_" + s + "=" + ("\"" + Escape(val) + "\"") == "CONFIG_" + s + "=\"" + Escape(val) + "\"";
    }
  }

  /** The flagged symbols among the first n. */
  ghost function Flagged(k: Config, out: Outcomes, order: seq<Sym>, n: nat): set<int>
    requires n <= |order| && Covers(k, out, order)
  {
    set i: int | 0 <= i < n && out[order[i]].write
  }

  lemma FlaggedGrows(k: Config, out: Outcomes, order: seq<Sym>, n: nat)
    requires 0 < n <= |order| && Covers(k, out, order)
    ensures Flagged(k, out, order, n) == Flagged(k, out, order, n - 1) + if out[order[n - 1]].write then {n - 1} else {}
  {
    forall i: int
      ensures i in Flagged(k, out, order, n) <==>
              i in Flagged(k, out, order, n - 1) || (i == n - 1 && out[order[n - 1]].write)
    {
    }
  }

  lemma {:induction false} LineCount(k: Config, out: Outcomes, order: seq<Sym>, n: nat)
    requires n <= |order| && Covers(k, out, order)
    ensures |ConfLines(k, out, order, n)| == |Flagged(k, out, order, n)|
  {
    if n > 0 {
      LineCount(k, out, order, n - 1);
      FlaggedGrows(k, out, order, n);
      assert n - 1 !in Flagged(k, out, order, n - 1);
    }
  }

  /** There is one line for each flagged symbol, and it comes after as many lines as flagged symbols
      come before it. */
  lemma {:induction false} LinesInOrder(k: Config, out: Outcomes, order: seq<Sym>, n: nat, i: nat)
    requires i < n <= |order| && Covers(k, out, order) && out[order[i]].write
    ensures |ConfLines(k, out, order, n)| == |Flagged(k, out, order, n)|
    ensures var at, s := |Flagged(k, out, order, i)|, order[i];
            at < |ConfLines(k, out, order, n)| && ConfLines(k, out, order, n)[at] == ConfLine(k.syms[s].typ, s, out[s].val)
  {
    LineCount(k, out, order, n);
    if i == n - 1 {
      LineCount(k, out, order, i);
    } else {
      LinesInOrder(k, out, order, n - 1, i);
    }
  }

  // ---- Loading -----------------------------------------------------------

  /** The line gives the symbol the value v. */
  ghost predicate Gives(k: Config, line: string, s: Sym, v: string) {
    s in k.syms && k.syms[s].special == None && ValidValue(k, k.syms[s].typ, v) && ParseLine(line) == Assign(s, v)
  }

  ghost predicate GivesNothing(k: Config, line: string, s: Sym) {
    forall v :: !Gives(k, line, s, v)
  }

  /** The last line that gives a symbol a value counts, */
  lemma {:induction false} LastLineCounts(k: Config, u: User, lines: seq<string>, n: nat, i: nat, s: Sym, v: string)
    requires i < n <= |lines| && LoadFrom(k, u, lines, n).Some? && Gives(k, lines[i], s, v)
    requires forall j | i < j < n :: GivesNothing(k, lines[j], s)
    ensures Get(LoadFrom(k, u, lines, n).value.vals, s) == Some(v)
  {
    LineChanges(k, u, lines, n, s);
    if i < n - 1 {
      LastLineCounts(k, u, lines, n - 1, i, s, v);
    }
  }

  /** and without any the symbol keeps what it had. */
  lemma {:induction false} UnnamedKeeps(k: Config, u: User, lines: seq<string>, n: nat, s: Sym)
    requires n <= |lines| && LoadFrom(k, u, lines, n).Some?
    requires forall j | 0 <= j < n :: GivesNothing(k, lines[j], s)
    ensures Get(LoadFrom(k, u, lines, n).value.vals, s) == Get(u.vals, s)
  {
    if n > 0 {
      LineChanges(k, u, lines, n, s);
      UnnamedKeeps(k, u, lines, n - 1, s);
    }
  }

  lemma LineChanges(k: Config, u: User, lines: seq<string>, n: nat, s: Sym)
    requires 0 < n <= |lines| && LoadFrom(k, u, lines, n).Some?
    ensures LoadFrom(k, u, lines, n - 1).Some?
    ensures forall v | Gives(k, lines[n - 1], s, v) :: Get(LoadFrom(k, u, lines, n).value.vals, s) == Some(v)
    ensures GivesNothing(k, lines[n - 1], s) ==>
              Get(LoadFrom(k, u, lines, n).value.vals, s) == Get(LoadFrom(k, u, lines, n - 1).value.vals, s)
  {
    var p, w := ParseLine(lines[n - 1]), LoadFrom(k, u, lines, n - 1).value;
    if p.Assign? && p.name in k.syms {
      SetsOne(k, w, p.name, p.val, s);
      if p.name == s && GivesNothing(k, lines[n - 1], s) {
        assert !Gives(k, lines[n - 1], s, p.val);
      }
    }
  }

  lemma SetsOne(k: Config, u: User, t: Sym, v: string, s: Sym)
    requires t in k.syms
    ensures var w := SetUser(k, u, t, v);
            Get(w.vals, s) == if s == t && k.syms[t].special == None && ValidValue(k, k.syms[t].typ, v) then Some(v) else Get(u.vals, s)
  {
  }

  /** A malformed string anywhere is reported, and nothing else is. */
  lemma {:induction false} MalformedIsReported(k: Config, u: User, lines: seq<string>, n: nat)
    requires n <= |lines|
    ensures LoadFrom(k, u, lines, n).None? <==> exists i | 0 <= i < n :: ParseLine(lines[i]).Malformed?
  {
    if n > 0 {
      MalformedIsReported(k, u, lines, n - 1);
    }
  }
}
