/** Printing an expression and parsing it again: the result exactly, and its value. */
module KconfReparse {
  import opened Basics
  import opened KconfExpr
  import opened KconfParse

  /** The token after an operand does not turn it into the left side of a relation. */
  predicate Ends(rest: seq<Token>) {
    !StartsWith(rest, TEqual) && !StartsWith(rest, TUnequal)
  }

  lemma {:induction false} EnoughFactors(m: bool, es: seq<Expr>)
    requires AllProduced(false, es)
    ensures |Factors(m, es)| >= |es|
    decreases es
  {
    if es != [] {
      if es[0].And? {
        EnoughFactors(m, es[0].es);
      }
      EnoughFactors(m, es[1..]);
    }
  }

  lemma {:induction false} EnoughTerms(m: bool, es: seq<Expr>)
    requires AllProduced(false, es)
    ensures |Terms(m, es)| >= |es|
    decreases es
  {
    if es != [] {
      if es[0].Or? {
        EnoughTerms(m, es[0].es);
      }
      EnoughTerms(m, es[1..]);
    }
  }

  // ---- Parsing what was printed ------------------------------------------

  /** Whatever follows, as long as it cannot be taken for a continuation. */
  lemma {:induction false} ExprBack(m: bool, e: Expr, rest: seq<Token>)
    requires Produced(false, e)
    requires Ends(rest) && !StartsWith(rest, TAnd) && !StartsWith(rest, TOr)
    ensures ParseExpr(m, Print(e) + rest) == Got(Again(m, e), rest)
    decreases e, 3
  {
    if e.Or? {
      OrBack(m, e.es, rest);
      EnoughTerms(m, e.es);
    } else {
      TermBack(m, e, rest);
      OneTerm(m, Print(e) + rest);
    }
  }

  lemma {:induction false} TermBack(m: bool, e: Expr, rest: seq<Token>)
    requires Produced(false, e) && !e.Or?
    requires Ends(rest) && !StartsWith(rest, TAnd)
    ensures ParseTerm(m, Print(e) + rest) == Got(Again(m, e), rest)
    decreases e, 2
  {
    if e.And? {
      AndBack(m, e.es, rest);
      EnoughFactors(m, e.es);
    } else {
      FactorBack(m, e, rest);
      OneFactor(m, Print(e) + rest);
    }
  }

  lemma {:induction false} FactorBack(m: bool, e: Expr, rest: seq<Token>)
    requires Produced(false, e) && !e.Or? && !e.And?
    requires Ends(rest)
    ensures ParseFactor(m, Print(e) + rest) == Got(Again(m, e), rest)
    decreases e, 1
  {
    var ts := Print(e) + rest;
    if e.Not? {
      assert ts[1..] == Parens(!IsAtom(e.e), Print(e.e)) + rest;
      if IsAtom(e.e) {
        FactorBack(m, e.e, rest);
      } else {
        ParensBack(m, e.e, rest);
      }
    } else if IsAtom(e) {
      assert ts[1..] == rest;
    } else {
      assert ts[3..] == rest;
      assert !Ends(ts[1..]);
    }
  }

  lemma {:induction false} ParensBack(m: bool, e: Expr, rest: seq<Token>)
    requires Produced(false, e)
    ensures ParseFactor(m, Parens(true, Print(e)) + rest) == Got(Again(m, e), rest)
    decreases e, 4
  {
    ExprBack(m, e, [TClose] + rest);
    InParens(m, Print(e), Again(m, e), rest);
  }

  lemma InParens(m: bool, inner: seq<Token>, e: Expr, rest: seq<Token>)
    requires ParseExpr(m, inner + ([TClose] + rest)) == Got(e, [TClose] + rest)
    ensures ParseFactor(m, Parens(true, inner) + rest) == Got(e, rest)
  {
    var ts := Parens(true, inner) + rest;
    assert ts[0] == TOpen && ts[1..] == inner + ([TClose] + rest);
    assert ([TClose] + rest)[1..] == rest;
  }

  /** One operand of a &&, in parentheses or not, and what follows. */
  lemma {:induction false} OperandBack(m: bool, e: Expr, rest: seq<Token>)
    requires Produced(false, e)
    requires Ends(rest)
    ensures ParseFactors(m, Parens(e.Or?, Print(e)) + rest)
         == MoreFactors(m, if e.And? then Factors(m, e.es) else [Again(m, e)], rest)
    decreases e, 5
  {
    if e.And? {
      AndBack(m, e.es, rest);
    } else {
      if e.Or? {
        ParensBack(m, e, rest);
      } else {
        FactorBack(m, e, rest);
      }
      OpenFactors(m, Parens(e.Or?, Print(e)) + rest);
    }
  }

  lemma {:induction false} AndBack(m: bool, es: seq<Expr>, rest: seq<Token>)
    requires AllProduced(false, es) && es != []
    requires Ends(rest)
    ensures ParseFactors(m, PrintAnd(es) + rest) == MoreFactors(m, Factors(m, es), rest)
    decreases es, 0
  {
    var head := if es[0].And? then Factors(m, es[0].es) else [Again(m, es[0])];
    if |es| == 1 {
      assert Factors(m, es) == head + [] == head;
      OperandBack(m, es[0], rest);
    } else {
      var tail := PrintAnd(es[1..]) + rest;
      OperandBack(m, es[0], [TAnd] + tail);
      AndBack(m, es[1..], rest);
      Regroup(Parens(es[0].Or?, Print(es[0])), TAnd, PrintAnd(es[1..]), rest);
      MoreAfter(m, head, tail);
      FactorsJoin(m, head, Factors(m, es[1..]), rest);
    }
  }

  lemma Regroup(a: seq<Token>, t: Token, b: seq<Token>, rest: seq<Token>)
    ensures a + [t] + b + rest == a + ([t] + (b + rest))
  {
  }

  lemma MoreAfter(m: bool, es: seq<Expr>, tail: seq<Token>)
    ensures MoreFactors(m, es, [TAnd] + tail) == Prepend(es, ParseFactors(m, tail))
    ensures MoreTerms(m, es, [TOr] + tail) == Prepend(es, ParseTerms(m, tail))
  {
    assert ([TAnd] + tail)[1..] == tail;
    assert ([TOr] + tail)[1..] == tail;
  }

  lemma FactorsJoin(m: bool, a: seq<Expr>, b: seq<Expr>, rest: seq<Token>)
    ensures Prepend(a, MoreFactors(m, b, rest)) == MoreFactors(m, a + b, rest)
  {
    MoreFactorsIsPrepend(m, b, rest);
    MoreFactorsIsPrepend(m, a + b, rest);
    PrependPrepend(a, b, MoreFactors(m, [], rest));
  }

  /** One operand of a || and what follows. */
  lemma {:induction false} DisjunctBack(m: bool, e: Expr, rest: seq<Token>)
    requires Produced(false, e)
    requires Ends(rest) && !StartsWith(rest, TAnd)
    ensures ParseTerms(m, Print(e) + rest)
         == MoreTerms(m, if e.Or? then Terms(m, e.es) else [Again(m, e)], rest)
    decreases e, 5
  {
    if e.Or? {
      OrBack(m, e.es, rest);
    } else {
      TermBack(m, e, rest);
      OpenTerms(m, Print(e) + rest);
    }
  }

  lemma {:induction false} OrBack(m: bool, es: seq<Expr>, rest: seq<Token>)
    requires AllProduced(false, es) && es != []
    requires Ends(rest) && !StartsWith(rest, TAnd)
    ensures ParseTerms(m, PrintOr(es) + rest) == MoreTerms(m, Terms(m, es), rest)
    decreases es, 0
  {
    var head := if es[0].Or? then Terms(m, es[0].es) else [Again(m, es[0])];
    if |es| == 1 {
      assert Terms(m, es) == head + [] == head;
      DisjunctBack(m, es[0], rest);
    } else {
      var tail := PrintOr(es[1..]) + rest;
      DisjunctBack(m, es[0], [TOr] + tail);
      OrBack(m, es[1..], rest);
      Regroup(Print(es[0]), TOr, PrintOr(es[1..]), rest);
      MoreAfter(m, head, tail);
      TermsJoin(m, head, Terms(m, es[1..]), rest);
    }
  }

  lemma TermsJoin(m: bool, a: seq<Expr>, b: seq<Expr>, rest: seq<Token>)
    ensures Prepend(a, MoreTerms(m, b, rest)) == MoreTerms(m, a + b, rest)
  {
    MoreTermsIsPrepend(m, b, rest);
    MoreTermsIsPrepend(m, a + b, rest);
    PrependPrepend(a, b, MoreTerms(m, [], rest));
  }

  // ---- The value of the tree that comes back -----------------------------

  /** Rewriting a bare m is harmless under this assignment: m has its value "m", and MODULES is
      not "n". */
  ghost predicate MStands(v: View) {
    EvalRec(v, ESym("m")) == M && EvalRec(v, ESym(MODULES)) != N
  }

  /** An expression whose printed form may be read with the rewriting of `m`: where it holds a bare
      m at all, the assignment makes that harmless. */
  ghost predicate ReadsAs(v: View, m: bool, e: Expr) {
    Produced(m, e) || (Produced(false, e) && MStands(v))
  }

  ghost predicate AllReadAs(v: View, m: bool, es: seq<Expr>) {
    AllProduced(m, es) || (AllProduced(false, es) && MStands(v))
  }

  lemma MAndModulesValue(v: View)
    ensures EvalRec(v, MAndModules) == Min(M, EvalRec(v, ESym(MODULES)))
  {
    EvalConcat(v, [EStr("m")], [ESym(MODULES)]);
    assert MAndModules.es == [EStr("m")] + [ESym(MODULES)];
    EvalSingle(v, EStr("m"));
    EvalSingle(v, ESym(MODULES));
  }

  lemma {:induction false} AgainKeepsValue(v: View, m: bool, e: Expr)
    requires ReadsAs(v, m, e)
    ensures EvalRec(v, Again(m, e)) == EvalRec(v, e)
    decreases e, 1
  {
    if e == MAndModules {
      RewrittenTwice(v, m);
    } else {
      match e
      case And(es) => FactorsKeepValue(v, m, es);
      case Or(es) => TermsKeepValue(v, m, es);
      case Not(e1) => AgainKeepsValue(v, m, e1);
      case _ => MAndModulesValue(v);
    }
  }

  lemma RewrittenTwice(v: View, m: bool)
    ensures EvalRec(v, Again(m, MAndModules)) == EvalRec(v, MAndModules)
    ensures EvalAll(v, Factors(m, MAndModules.es)) == EvalRec(v, MAndModules)
  {
    var es := MAndModules.es;
    assert es[1..] == [ESym(MODULES)];
    assert es[1..][1..] == [];
    assert Factors(m, es[1..]) == [ESym(MODULES)];
    assert Factors(m, es) == [Rewritten(m, EStr("m"))] + [ESym(MODULES)];
    MAndModulesValue(v);
    EvalConcat(v, [Rewritten(m, EStr("m"))], [ESym(MODULES)]);
    EvalSingle(v, EStr("m"));
    EvalSingle(v, ESym(MODULES));
    EvalSingle(v, Rewritten(m, EStr("m")));
  }

  lemma {:induction false} FactorsKeepValue(v: View, m: bool, es: seq<Expr>)
    requires AllReadAs(v, m, es)
    ensures EvalAll(v, Factors(m, es)) == EvalAll(v, es)
    decreases es, 0
  {
    if es != [] {
      var head := if es[0].And? then Factors(m, es[0].es) else [Again(m, es[0])];
      if es[0] == MAndModules {
        RewrittenTwice(v, m);
      } else if es[0].And? {
        FactorsKeepValue(v, m, es[0].es);
      } else {
        AgainKeepsValue(v, m, es[0]);
        EvalSingle(v, Again(m, es[0]));
      }
      FactorsKeepValue(v, m, es[1..]);
      EvalConcat(v, head, Factors(m, es[1..]));
      EvalConcat(v, [es[0]], es[1..]);
      EvalSingle(v, es[0]);
      assert es == [es[0]] + es[1..];
    }
  }

  lemma {:induction false} TermsKeepValue(v: View, m: bool, es: seq<Expr>)
    requires AllReadAs(v, m, es)
    ensures EvalAny(v, Terms(m, es)) == EvalAny(v, es)
    decreases es, 0
  {
    if es != [] {
      var head := if es[0].Or? then Terms(m, es[0].es) else [Again(m, es[0])];
      if es[0].Or? {
        TermsKeepValue(v, m, es[0].es);
      } else {
        AgainKeepsValue(v, m, es[0]);
        EvalSingle(v, Again(m, es[0]));
      }
      TermsKeepValue(v, m, es[1..]);
      EvalConcat(v, head, Terms(m, es[1..]));
      EvalConcat(v, [es[0]], es[1..]);
      EvalSingle(v, es[0]);
      assert es == [es[0]] + es[1..];
    }
  }

  // ---- The main result ---------------------------------------------------

  /** Every expression the parser returns, with or without the rewriting of m, is read back from
      its printed form to the last token, with or without the rewriting, and what comes back has
      the same value: under every assignment unless it was parsed without the rewriting and is
      read back with it, and then under every assignment in which MODULES is not "n". */
  lemma PrintThenParse(m: bool, ts: seq<Token>, m': bool)
    requires ParseExpr(m, ts).Got?
    ensures var e := ParseExpr(m, ts).val;
            var back := ParseExpr(m', Print(e));
            && back == Got(Again(m', e), [])
            && forall v: View | (m' ==> m) || MStands(v) :: EvalRec(v, back.val) == EvalRec(v, e)
  {
    var e := ParseExpr(m, ts).val;
    ParserProduces(m, ts);
    if m {
      ProducedIsWeaker(e);
    }
    ExprBack(m', e, []);
    assert Print(e) + [] == Print(e);
    forall v: View | (m' ==> m) || MStands(v) ensures EvalRec(v, Again(m', e)) == EvalRec(v, e) {
      AgainKeepsValue(v, m', e);
    }
  }

  /** What was parsed without the rewriting keeps its value when it is read back as a condition. */
  ghost predicate Survives(v: View, ts: seq<Token>) {
    ParseExpr(false, ts).Got? ==>
      var e := ParseExpr(false, ts).val;
      var back := ParseExpr(true, Print(e));
      back.Got? && EvalRec(v, back.val) == EvalRec(v, e)
  }

  /** And that is the exact condition: in any assignment that gives the symbol m its value "m", all
      expressions parsed without the rewriting survive being read back as conditions if and only if
      MODULES is not "n". */
  lemma ConditionsSurviveExactly(v: View)
    requires EvalRec(v, ESym("m")) == M
    ensures (forall ts :: Survives(v, ts)) <==> EvalRec(v, ESym(MODULES)) != N
  {
    if EvalRec(v, ESym(MODULES)) != N {
      forall ts ensures Survives(v, ts) {
        if ParseExpr(false, ts).Got? {
          PrintThenParse(false, ts, true);
        }
      }
    } else {
      BareMChanges(v);
    }
  }

  /** The expression "m" is the witness. */
  lemma BareMChanges(v: View)
    requires EvalRec(v, ESym(MODULES)) == N
    ensures !Survives(v, [TStr("m")])
  {
    var ts := [TStr("m")];
    var e := EStr("m");
    assert ts[1..] == [];
    OneFactor(false, ts);
    OneTerm(false, ts);
    assert ParseExpr(false, ts) == Got(e, []);
    PrintThenParse(false, ts, true);
    MAndModulesValue(v);
  }

  // ---- What the tokens mean ----------------------------------------------

  /** An operand in parentheses. */
  function Grouped(e: Expr): seq<Token> {
    [TOpen] + Print(e) + [TClose]
  }

  lemma GroupedBack(m: bool, e: Expr, rest: seq<Token>)
    requires Produced(false, e)
    ensures ParseFactor(m, Grouped(e) + rest) == Got(Again(m, e), rest)
  {
    ParensBack(m, e, rest);
  }

  lemma SingleTerm(m: bool, e: Expr, rest: seq<Token>)
    requires Produced(false, e) && !StartsWith(rest, TAnd)
    ensures ParseTerm(m, Grouped(e) + rest) == Got(Again(m, e), rest)
  {
    GroupedBack(m, e, rest);
    OneFactor(m, Grouped(e) + rest);
  }

  lemma AndPair(m: bool, a: Expr, b: Expr, rest: seq<Token>)
    requires Produced(false, a) && Produced(false, b) && !StartsWith(rest, TAnd)
    ensures ParseTerm(m, Grouped(a) + ([TAnd] + (Grouped(b) + rest))) == Got(And([Again(m, a), Again(m, b)]), rest)
  {
    var tail := Grouped(b) + rest;
    var ts := Grouped(a) + ([TAnd] + tail);
    GroupedBack(m, a, [TAnd] + tail);
    GroupedBack(m, b, rest);
    OpenFactors(m, ts);
    OpenFactors(m, tail);
    MoreAfter(m, [Again(m, a)], tail);
    assert ParseFactors(m, tail) == Got([Again(m, b)], rest);
    assert [Again(m, a)] + [Again(m, b)] == [Again(m, a), Again(m, b)];
    assert ParseFactors(m, ts) == Got([Again(m, a), Again(m, b)], rest);
  }

  /** Reads the terms on both sides of a ||. */
  lemma OrPair(m: bool, ts: seq<Token>, a: Expr, tail: seq<Token>, b: Expr)
    requires ParseTerm(m, ts) == Got(a, [TOr] + tail) && ParseTerm(m, tail) == Got(b, [])
    ensures ParseExpr(m, ts) == Got(Or([a, b]), [])
  {
    OpenTerms(m, ts);
    OpenTerms(m, tail);
    MoreAfter(m, [a], tail);
    assert ParseTerms(m, tail) == Got([b], []);
    assert [a] + [b] == [a, b];
    assert ParseTerms(m, ts) == Got([a, b], []);
  }

  lemma PairValue(v: View, a: Expr, b: Expr)
    ensures EvalRec(v, And([a, b])) == Min(EvalRec(v, a), EvalRec(v, b))
    ensures EvalRec(v, Or([a, b])) == Max(EvalRec(v, a), EvalRec(v, b))
  {
    EvalSingle(v, a);
    EvalSingle(v, b);
    EvalConcat(v, [a], [b]);
    assert [a] + [b] == [a, b];
  }

  /** `&&` is the minimum, */
  lemma AndMeans(v: View, m: bool, a: Expr, b: Expr)
    requires Produced(false, a) && Produced(false, b) && ReadsAs(v, m, a) && ReadsAs(v, m, b)
    ensures var r := ParseExpr(m, Grouped(a) + ([TAnd] + Grouped(b)));
            r.Got? && r.rest == [] && EvalRec(v, r.val) == Min(EvalRec(v, a), EvalRec(v, b))
  {
    var ts := Grouped(a) + ([TAnd] + Grouped(b));
    assert Grouped(b) + [] == Grouped(b);
    AndPair(m, a, b, []);
    OneTerm(m, ts);
    PairValue(v, Again(m, a), Again(m, b));
    AgainKeepsValue(v, m, a);
    AgainKeepsValue(v, m, b);
  }

  /** `||` the maximum and weaker than `&&`, */
  lemma OrMeans(v: View, m: bool, a: Expr, b: Expr, c: Expr)
    requires Produced(false, a) && Produced(false, b) && Produced(false, c)
    requires ReadsAs(v, m, a) && ReadsAs(v, m, b) && ReadsAs(v, m, c)
    ensures var r := ParseExpr(m, Grouped(a) + ([TOr] + (Grouped(b) + ([TAnd] + Grouped(c)))));
            r.Got? && r.rest == [] &&
            EvalRec(v, r.val) == Max(EvalRec(v, a), Min(EvalRec(v, b), EvalRec(v, c)))
  {
    var tail := Grouped(b) + ([TAnd] + Grouped(c));
    assert Grouped(c) + [] == Grouped(c);
    SingleTerm(m, a, [TOr] + tail);
    AndPair(m, b, c, []);
    OrPair(m, Grouped(a) + ([TOr] + tail), Again(m, a), tail, And([Again(m, b), Again(m, c)]));
    PairValue(v, Again(m, b), Again(m, c));
    PairValue(v, Again(m, a), And([Again(m, b), Again(m, c)]));
    AgainKeepsValue(v, m, a);
    AgainKeepsValue(v, m, b);
    AgainKeepsValue(v, m, c);
  }

  /** `!` exchanges "y" and "n", */
  lemma NotMeans(v: View, m: bool, a: Expr)
    requires Produced(false, a) && ReadsAs(v, m, a)
    ensures var r := ParseExpr(m, [TNot] + Grouped(a));
            r.Got? && r.rest == [] && (EvalRec(v, r.val) == Y <==> EvalRec(v, a) == N) && (EvalRec(v, r.val) == N <==> EvalRec(v, a) == Y)
  {
    var ts := [TNot] + Grouped(a);
    assert ts[1..] == Grouped(a) + [];
    GroupedBack(m, a, []);
    assert ParseFactor(m, ts) == Got(Not(Again(m, a)), []);
    OneFactor(m, ts);
    OneTerm(m, ts);
    AgainKeepsValue(v, m, a);
    NotExchanges(v, Again(m, a));
  }

  /** a bare m is "m", and in a condition "m" only as far as MODULES is on, */
  lemma MMeans(v: View, t: Token)
    requires t == TStr("m") || (t == TSym("m") && EvalRec(v, ESym("m")) == M)
    ensures var p, q := ParseExpr(false, [t]), ParseExpr(true, [t]);
            && p.Got? && p.rest == [] && EvalRec(v, p.val) == M
            && q.Got? && q.rest == [] && EvalRec(v, q.val) == Min(M, EvalRec(v, ESym(MODULES)))
  {
    assert [t][1..] == [];
    OneFactor(false, [t]);
    OneTerm(false, [t]);
    OneFactor(true, [t]);
    OneTerm(true, [t]);
    MAndModulesValue(v);
  }

  /** and `=` and `!=` compare the texts of their operands. */
  lemma RelationMeans(v: View, m: bool, l: Token, r: Token, equal: bool)
    requires IsOperand(l) && IsOperand(r)
    ensures var p := ParseExpr(m, [l, if equal then TEqual else TUnequal, r]);
            var same := StrVal(v, ToOperand(l)) == StrVal(v, ToOperand(r));
            p.Got? && p.rest == [] && EvalRec(v, p.val) == if same == equal then Y else N
  {
    var ts := [l, if equal then TEqual else TUnequal, r];
    assert ts[1..][0] == ts[1] && ts[3..] == [];
    OneFactor(m, ts);
    OneTerm(m, ts);
  }
}
