/** The expression parser of docs/kconfiglib.py over its token feed, and the expression printer. */
module KconfParse {
  import opened Basics
  import opened KconfExpr

  datatype Token =
    | TSym(sym: Sym) | TStr(str: string)
    | TAnd | TOr | TNot | TOpen | TClose | TEqual | TUnequal
    | TKeyword

  datatype ParseError = MissingParen | Malformed | BadOperand

  datatype Parsed<+T> = Got(val: T, rest: seq<Token>) | Failed(error: ParseError)

  predicate StartsWith(ts: seq<Token>, t: Token) {
    |ts| > 0 && ts[0] == t
  }

  predicate IsOperand(t: Token) {
    t.TSym? || t.TStr?
  }

  function ToOperand(t: Token): Operand
    requires IsOperand(t)
  {
    if t.TSym? then OSym(t.sym) else OStr(t.str)
  }

  function Atom(t: Token): Expr
    requires IsOperand(t)
  {
    if t.TSym? then ESym(t.sym) else EStr(t.str)
  }

  /** The symbol m and the constant "m". */
  predicate IsM(e: Expr) {
    e == ESym("m") || e == EStr("m")
  }

  const MAndModules: Expr := And([EStr("m"), ESym(MODULES)])

  /** In conditions a bare m stands for "m" && MODULES. */
  function Rewritten(m: bool, e: Expr): Expr {
    if m && IsM(e) then MAndModules else e
  }

  // ---- The grammar -------------------------------------------------------

  /** An expression: terms separated by ||; a single term stands for itself. */
  function ParseExpr(m: bool, ts: seq<Token>): (r: Parsed<Expr>)
    ensures r.Got? ==> |r.rest| < |ts|
    decreases |ts|, 4
  {
    match ParseTerms(m, ts)
    case Failed(error) => Failed(error)
    case Got(es, rest) => Got(OrOf(es), rest)
  }

  function ParseTerms(m: bool, ts: seq<Token>): (r: Parsed<seq<Expr>>)
    ensures r.Got? ==> |r.val| > 0 && |r.rest| < |ts|
    decreases |ts|, 3
  {
    match ParseTerm(m, ts)
    case Failed(error) => Failed(error)
    case Got(e, rest) => MoreTerms(m, [e], rest)
  }

  /** What follows the terms `es`: further ones as long as there is a ||. */
  function MoreTerms(m: bool, es: seq<Expr>, ts: seq<Token>): (r: Parsed<seq<Expr>>)
    ensures r.Got? ==> |r.val| >= |es| && |r.rest| <= |ts|
    decreases |ts|, 3
  {
    if StartsWith(ts, TOr) then Prepend(es, ParseTerms(m, ts[1..])) else Got(es, ts)
  }

  /** A term: factors separated by &&. */
  function ParseTerm(m: bool, ts: seq<Token>): (r: Parsed<Expr>)
    ensures r.Got? ==> |r.rest| < |ts|
    decreases |ts|, 2
  {
    match ParseFactors(m, ts)
    case Failed(error) => Failed(error)
    case Got(es, rest) => Got(AndOf(es), rest)
  }

  function ParseFactors(m: bool, ts: seq<Token>): (r: Parsed<seq<Expr>>)
    ensures r.Got? ==> |r.val| > 0 && |r.rest| < |ts|
    decreases |ts|, 1
  {
    match ParseFactor(m, ts)
    case Failed(error) => Failed(error)
    case Got(e, rest) => MoreFactors(m, [e], rest)
  }

  function MoreFactors(m: bool, es: seq<Expr>, ts: seq<Token>): (r: Parsed<seq<Expr>>)
    ensures r.Got? ==> |r.val| >= |es| && |r.rest| <= |ts|
    decreases |ts|, 1
  {
    if StartsWith(ts, TAnd) then Prepend(es, ParseFactors(m, ts[1..])) else Got(es, ts)
  }

  function ParseFactor(m: bool, ts: seq<Token>): (r: Parsed<Expr>)
    ensures r.Got? ==> |r.rest| < |ts|
    decreases |ts|, 0
  {
    if ts == [] then Failed(Malformed)
    else if IsOperand(ts[0]) then ParseRelation(m, ts)
    else if ts[0] == TNot then
      match ParseFactor(m, ts[1..])
      case Failed(error) => Failed(error)
      case Got(e, rest) => Got(Not(e), rest)
    else if ts[0] == TOpen then
      match ParseExpr(m, ts[1..])
      case Failed(error) => Failed(error)
      case Got(e, rest) => if StartsWith(rest, TClose) then Got(e, rest[1..]) else Failed(MissingParen)
    else Failed(Malformed)
  }

  function ParseRelation(m: bool, ts: seq<Token>): (r: Parsed<Expr>)
    requires ts != [] && IsOperand(ts[0])
    ensures r.Got? ==> |r.rest| < |ts|
  {
    if !StartsWith(ts[1..], TEqual) && !StartsWith(ts[1..], TUnequal) then
      Got(Rewritten(m, Atom(ts[0])), ts[1..])
    else if |ts| < 3 || !IsOperand(ts[2]) then Failed(BadOperand)
    else if ts[1] == TEqual then Got(Equal(ToOperand(ts[0]), ToOperand(ts[2])), ts[3..])
    else Got(Unequal(ToOperand(ts[0]), ToOperand(ts[2])), ts[3..])
  }

  function OrOf(es: seq<Expr>): Expr
    requires |es| > 0
  {
    if |es| == 1 then es[0] else Or(es)
  }

  function AndOf(es: seq<Expr>): Expr
    requires |es| > 0
  {
    if |es| == 1 then es[0] else And(es)
  }

  function Prepend(es: seq<Expr>, r: Parsed<seq<Expr>>): Parsed<seq<Expr>> {
    match r
    case Failed(error) => Failed(error)
    case Got(fs, rest) => Got(es + fs, rest)
  }

  // ---- The parser as it runs ---------------------------------------------

  datatype Outcome<+T> = Value(e: T) | Error(error: ParseError)

  /** A token feed: the tokens and the position of the next one. */
  class Feed {
    const items: seq<Token>
    var i: nat

    ghost predicate Valid()
      reads this
    {
      i <= |items|
    }

    ghost function Ahead(): seq<Token>
      requires Valid()
      reads this
    {
      items[i..]
    }

    /** The outcome and the new position are those of a grammar function's result. */
    ghost predicate Follows<T>(r: Outcome<T>, spec: Parsed<T>)
      reads this
    {
      Valid() &&
      match spec
      case Failed(error) => r == Error(error)
      case Got(e, rest) => r == Value(e) && Ahead() == rest
    }

    constructor (items: seq<Token>)
      ensures Valid() && Ahead() == items
    {
      this.items := items;
      i := 0;
    }

    method GetNext() returns (t: Option<Token>)
      requires Valid()
      modifies this`i
      ensures Valid()
      ensures t == if old(Ahead()) == [] then None else Some(old(Ahead())[0])
      ensures Ahead() == if old(Ahead()) == [] then [] else old(Ahead())[1..]
    {
      if i >= |items| {
        return None;
      }
      t := Some(items[i]);
      i := i + 1;
    }

    method PeekNext() returns (t: Option<Token>)
      requires Valid()
      ensures t == if Ahead() == [] then None else Some(Ahead()[0])
    {
      t := if i >= |items| then None else Some(items[i]);
    }

    method Check(t: Token) returns (found: bool)
      requires Valid()
      modifies this`i
      ensures Valid()
      ensures found == StartsWith(old(Ahead()), t)
      ensures Ahead() == if found then old(Ahead())[1..] else old(Ahead())
    {
      if i < |items| && items[i] == t {
        i := i + 1;
        return true;
      }
      return false;
    }

    method ReadExpr(m: bool) returns (r: Outcome<Expr>)
      requires Valid()
      modifies this`i
      ensures Follows(r, ParseExpr(m, old(Ahead())))
      decreases |items| - i, 5
    {
      var first := ReadTerm(m);
      if first.Error? {
        return first;
      }
      var more := Check(TOr);
      if !more {
        OneTerm(m, old(Ahead()));
        return first;
      }
      var second := ReadTerm(m);
      OpenTerms(m, old(Ahead()));
      if second.Error? {
        return second;
      }
      TwoTerms(m, old(Ahead()));
      var all := ReadMoreTerms(m, [first.e, second.e]);
      r := if all.Error? then Error(all.error) else Value(Or(all.e));
    }

    /** The loop that goes on for as long as it finds the operator. */
    method ReadMoreTerms(m: bool, es: seq<Expr>) returns (r: Outcome<seq<Expr>>)
      requires Valid()
      modifies this`i
      ensures Follows(r, MoreTerms(m, es, old(Ahead())))
      decreases |items| - i, 4
    {
      var all := es;
      var more := Check(TOr);
      while more
        invariant Valid() && old(i) <= i
        invariant more ==> old(i) < i && MoreTerms(m, es, old(Ahead())) == Prepend(all, ParseTerms(m, Ahead()))
        invariant !more ==> MoreTerms(m, es, old(Ahead())) == Got(all, Ahead())
        decreases |items| - i, more
      {
        var next := ReadTerm(m);
        if next.Error? {
          return Error(next.error);
        }
        MoreTermsIsPrepend(m, [next.e], Ahead());
        PrependPrepend(all, [next.e], MoreTerms(m, [], Ahead()));
        all := all + [next.e];
        MoreTermsIsPrepend(m, all, Ahead());
        more := Check(TOr);
      }
      r := Value(all);
    }

    method ReadTerm(m: bool) returns (r: Outcome<Expr>)
      requires Valid()
      modifies this`i
      ensures Follows(r, ParseTerm(m, old(Ahead())))
      decreases |items| - i, 3
    {
      var first := ReadFactor(m);
      if first.Error? {
        return first;
      }
      var more := Check(TAnd);
      if !more {
        OneFactor(m, old(Ahead()));
        return first;
      }
      var second := ReadFactor(m);
      OpenFactors(m, old(Ahead()));
      if second.Error? {
        return second;
      }
      TwoFactors(m, old(Ahead()));
      var all := ReadMoreFactors(m, [first.e, second.e]);
      r := if all.Error? then Error(all.error) else Value(And(all.e));
    }

    /** The loop that goes on for as long as it finds the operator. */
    method ReadMoreFactors(m: bool, es: seq<Expr>) returns (r: Outcome<seq<Expr>>)
      requires Valid()
      modifies this`i
      ensures Follows(r, MoreFactors(m, es, old(Ahead())))
      decreases |items| - i, 2
    {
      var all := es;
      var more := Check(TAnd);
      while more
        invariant Valid() && old(i) <= i
        invariant more ==> old(i) < i && MoreFactors(m, es, old(Ahead())) == Prepend(all, ParseFactors(m, Ahead()))
        invariant !more ==> MoreFactors(m, es, old(Ahead())) == Got(all, Ahead())
        decreases |items| - i, more
      {
        var next := ReadFactor(m);
        if next.Error? {
          return Error(next.error);
        }
        MoreFactorsIsPrepend(m, [next.e], Ahead());
        PrependPrepend(all, [next.e], MoreFactors(m, [], Ahead()));
        all := all + [next.e];
        MoreFactorsIsPrepend(m, all, Ahead());
        more := Check(TAnd);
      }
      r := Value(all);
    }

    method ReadFactor(m: bool) returns (r: Outcome<Expr>)
      requires Valid()
      modifies this`i
      ensures Follows(r, ParseFactor(m, old(Ahead())))
      decreases |items| - i, 1
    {
      var token := GetNext();
      if token.Some? && IsOperand(token.value) {
        r := ReadRelation(m, token.value, old(Ahead()));
      } else if token == Some(TNot) {
        var e := ReadFactor(m);
        r := if e.Error? then e else Value(Not(e.e));
      } else if token == Some(TOpen) {
        r := ReadExpr(m);
        if r.Value? {
          var closed := Check(TClose);
          if !closed {
            r := Error(MissingParen);
          }
        }
      } else {
        r := Error(Malformed);
      }
    }

    /** The part of `_parse_factor` after a symbol or a string has been taken. */
    method ReadRelation(m: bool, token: Token, ghost ts: seq<Token>) returns (r: Outcome<Expr>)
      requires Valid() && IsOperand(token) && ts == [token] + Ahead()
      modifies this`i
      ensures Follows(r, ParseRelation(m, ts))
    {
      var next := PeekNext();
      if next != Some(TEqual) && next != Some(TUnequal) {
        return Value(Rewritten(m, Atom(token)));
      }
      var relation := GetNext();
      var token2 := GetNext();
      if token2.None? || !IsOperand(token2.value) {
        return Error(BadOperand);
      }
      if relation == Some(TEqual) {
        return Value(Equal(ToOperand(token), ToOperand(token2.value)));
      }
      return Value(Unequal(ToOperand(token), ToOperand(token2.value)));
    }
  }

  lemma PrependPrepend(a: seq<Expr>, b: seq<Expr>, r: Parsed<seq<Expr>>)
    ensures Prepend(a, Prepend(b, r)) == Prepend(a + b, r)
  {
    if r.Got? {
      assert a + (b + r.val) == a + b + r.val;
    }
  }

  lemma MoreTermsIsPrepend(m: bool, es: seq<Expr>, ts: seq<Token>)
    ensures MoreTerms(m, es, ts) == Prepend(es, MoreTerms(m, [], ts))
  {
    assert es + [] == es;
    if StartsWith(ts, TOr) {
      PrependPrepend(es, [], ParseTerms(m, ts[1..]));
    }
  }

  lemma MoreFactorsIsPrepend(m: bool, es: seq<Expr>, ts: seq<Token>)
    ensures MoreFactors(m, es, ts) == Prepend(es, MoreFactors(m, [], ts))
  {
    assert es + [] == es;
    if StartsWith(ts, TAnd) {
      PrependPrepend(es, [], ParseFactors(m, ts[1..]));
    }
  }

  lemma OpenTerms(m: bool, ts: seq<Token>)
    requires ParseTerm(m, ts).Got?
    ensures var first := ParseTerm(m, ts);
            ParseTerms(m, ts) == MoreTerms(m, [first.val], first.rest)
  {
  }

  lemma OneTerm(m: bool, ts: seq<Token>)
    requires ParseTerm(m, ts).Got? && !StartsWith(ParseTerm(m, ts).rest, TOr)
    ensures ParseExpr(m, ts) == ParseTerm(m, ts)
  {
    var first := ParseTerm(m, ts);
    OpenTerms(m, ts);
    assert ParseTerms(m, ts) == Got([first.val], first.rest);
  }

  lemma TwoTerms(m: bool, ts: seq<Token>)
    requires ParseTerm(m, ts).Got? && StartsWith(ParseTerm(m, ts).rest, TOr)
    requires ParseTerm(m, ParseTerm(m, ts).rest[1..]).Got?
    ensures var first := ParseTerm(m, ts);
            var second := ParseTerm(m, first.rest[1..]);
            ParseTerms(m, ts) == MoreTerms(m, [first.val, second.val], second.rest)
  {
    var first := ParseTerm(m, ts);
    var second := ParseTerm(m, first.rest[1..]);
    OpenTerms(m, ts);
    OpenTerms(m, first.rest[1..]);
    assert MoreTerms(m, [first.val], first.rest) == Prepend([first.val], ParseTerms(m, first.rest[1..]));
    MoreTermsIsPrepend(m, [second.val], second.rest);
    PrependPrepend([first.val], [second.val], MoreTerms(m, [], second.rest));
    MoreTermsIsPrepend(m, [first.val, second.val], second.rest);
    assert [first.val] + [second.val] == [first.val, second.val];
  }

  lemma OpenFactors(m: bool, ts: seq<Token>)
    requires ParseFactor(m, ts).Got?
    ensures var first := ParseFactor(m, ts);
            ParseFactors(m, ts) == MoreFactors(m, [first.val], first.rest)
  {
  }

  lemma OneFactor(m: bool, ts: seq<Token>)
    requires ParseFactor(m, ts).Got? && !StartsWith(ParseFactor(m, ts).rest, TAnd)
    ensures ParseTerm(m, ts) == ParseFactor(m, ts)
  {
    var first := ParseFactor(m, ts);
    OpenFactors(m, ts);
    assert ParseFactors(m, ts) == Got([first.val], first.rest);
  }

  lemma TwoFactors(m: bool, ts: seq<Token>)
    requires ParseFactor(m, ts).Got? && StartsWith(ParseFactor(m, ts).rest, TAnd)
    requires ParseFactor(m, ParseFactor(m, ts).rest[1..]).Got?
    ensures var first := ParseFactor(m, ts);
            var second := ParseFactor(m, first.rest[1..]);
            ParseFactors(m, ts) == MoreFactors(m, [first.val, second.val], second.rest)
  {
    var first := ParseFactor(m, ts);
    var second := ParseFactor(m, first.rest[1..]);
    OpenFactors(m, ts);
    OpenFactors(m, first.rest[1..]);
    assert MoreFactors(m, [first.val], first.rest) == Prepend([first.val], ParseFactors(m, first.rest[1..]));
    MoreFactorsIsPrepend(m, [second.val], second.rest);
    PrependPrepend([first.val], [second.val], MoreFactors(m, [], second.rest));
    MoreFactorsIsPrepend(m, [first.val, second.val], second.rest);
    assert [first.val] + [second.val] == [first.val, second.val];
  }

  // ---- The printer -------------------------------------------------------

  function OperandToken(o: Operand): Token {
    match o
    case OSym(s) => TSym(s)
    case OStr(t) => TStr(t)
  }

  predicate IsAtom(e: Expr) {
    e.ESym? || e.EStr?
  }

  function Parens(b: bool, ts: seq<Token>): seq<Token> {
    if b then [TOpen] + ts + [TClose] else ts
  }

  /** `_expr_to_str_rec`: only a || inside a && and a compound operand of ! get parentheses. */
  function Print(e: Expr): seq<Token>
    decreases e, 1
  {
    match e
    case ESym(s) => [TSym(s)]
    case EStr(t) => [TStr(t)]
    case And(es) => PrintAnd(es)
    case Or(es) => PrintOr(es)
    case Not(e1) => [TNot] + Parens(!IsAtom(e1), Print(e1))
    case Equal(l, r) => [OperandToken(l), TEqual, OperandToken(r)]
    case Unequal(l, r) => [OperandToken(l), TUnequal, OperandToken(r)]
  }

  function PrintAnd(es: seq<Expr>): seq<Token>
    decreases es, 0
  {
    if es == [] then []
    else if |es| == 1 then Parens(es[0].Or?, Print(es[0]))
    else Parens(es[0].Or?, Print(es[0])) + [TAnd] + PrintAnd(es[1..])
  }

  function PrintOr(es: seq<Expr>): seq<Token>
    decreases es, 0
  {
    if es == [] then []
    else if |es| == 1 then Print(es[0])
    else Print(es[0]) + [TOr] + PrintOr(es[1..])
  }

  // ---- What the parser produces ------------------------------------------

  /** Operator lists have at least two members; and in a condition (`m`) a bare m occurs only as
      what the rewriting made of it. */
  predicate Produced(m: bool, e: Expr)
    decreases e
  {
    e == MAndModules ||
    match e
    case ESym(_) => m ==> !IsM(e)
    case EStr(_) => m ==> !IsM(e)
    case And(es) => |es| >= 2 && forall i | 0 <= i < |es| :: Produced(m, es[i])
    case Or(es) => |es| >= 2 && forall i | 0 <= i < |es| :: Produced(m, es[i])
    case Not(e1) => Produced(m, e1)
    case Equal(_, _) => true
    case Unequal(_, _) => true
  }

  ghost predicate AllProduced(m: bool, es: seq<Expr>) {
    forall i | 0 <= i < |es| :: Produced(m, es[i])
  }

  lemma {:induction false} ParserProduces(m: bool, ts: seq<Token>)
    ensures ParseExpr(m, ts).Got? ==> Produced(m, ParseExpr(m, ts).val)
    decreases |ts|, 4
  {
    TermsProduce(m, ts);
  }

  lemma {:induction false} TermsProduce(m: bool, ts: seq<Token>)
    ensures ParseTerms(m, ts).Got? ==> AllProduced(m, ParseTerms(m, ts).val)
    decreases |ts|, 3
  {
    FactorsProduce(m, ts);
    var first := ParseTerm(m, ts);
    if first.Got? && StartsWith(first.rest, TOr) {
      TermsProduce(m, first.rest[1..]);
    }
  }

  lemma {:induction false} FactorsProduce(m: bool, ts: seq<Token>)
    ensures ParseFactors(m, ts).Got? ==> AllProduced(m, ParseFactors(m, ts).val)
    decreases |ts|, 2
  {
    FactorProduces(m, ts);
    var first := ParseFactor(m, ts);
    if first.Got? && StartsWith(first.rest, TAnd) {
      FactorsProduce(m, first.rest[1..]);
    }
  }

  lemma {:induction false} FactorProduces(m: bool, ts: seq<Token>)
    ensures ParseFactor(m, ts).Got? ==> Produced(m, ParseFactor(m, ts).val)
    decreases |ts|, 1
  {
    if |ts| > 0 && ts[0] == TNot {
      FactorProduces(m, ts[1..]);
    } else if |ts| > 0 && ts[0] == TOpen {
      ParserProduces(m, ts[1..]);
    }
  }

  lemma {:induction false} ProducedIsWeaker(e: Expr)
    requires Produced(true, e)
    ensures Produced(false, e)
    decreases e
  {
    match e
    case ESym(_) =>
    case EStr(_) =>
    case And(es) => forall i | 0 <= i < |es| && e != MAndModules ensures Produced(false, es[i]) { ProducedIsWeaker(es[i]); }
    case Or(es) => forall i | 0 <= i < |es| ensures Produced(false, es[i]) { ProducedIsWeaker(es[i]); }
    case Not(e1) => ProducedIsWeaker(e1);
    case Equal(_, _) =>
    case Unequal(_, _) =>
  }

  // ---- The tree that comes back ------------------------------------------

  /** The expression read back from the printed form of `e`: nested lists of one operator are
      flattened and bare m is rewritten once more. */
  function Again(m: bool, e: Expr): Expr
    decreases e, 1
  {
    match e
    case And(es) => And(Factors(m, es))
    case Or(es) => Or(Terms(m, es))
    case Not(e1) => Not(Again(m, e1))
    case _ => Rewritten(m, e)
  }

  function Factors(m: bool, es: seq<Expr>): seq<Expr>
    decreases es, 0
  {
    if es == [] then []
    else (if es[0].And? then Factors(m, es[0].es) else [Again(m, es[0])]) + Factors(m, es[1..])
  }

  function Terms(m: bool, es: seq<Expr>): seq<Expr>
    decreases es, 0
  {
    if es == [] then []
    else (if es[0].Or? then Terms(m, es[0].es) else [Again(m, es[0])]) + Terms(m, es[1..])
  }
}
