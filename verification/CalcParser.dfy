/** The recursive-descent parser of zoeken-client/src/lib/calcEval.ts.

    `SumOf` .. `PrimaryOf` are the pure reference: they build a concrete expression. The class
    `Parser` evaluates while it parses, as the source does, and never builds a tree. */
module CalcParser {
  import opened CalcGrammar

  datatype Parsed<+V> = Fail | Got(e: Expr<V>, rest: seq<Tok<V>>)

  function Head<V>(ts: seq<Tok<V>>): Tok<V> {
    if ts == [] then Eof else ts[0]
  }

  predicate StartsAdd<V>(ts: seq<Tok<V>>) { Head(ts).Sym? && IsAddOp(Head(ts).c) }

  predicate StartsMul<V>(ts: seq<Tok<V>>) { Head(ts).Sym? && IsMulOp(Head(ts).c) }

  predicate StartsPow<V>(ts: seq<Tok<V>>) { Head(ts) == Sym('^') }

  /** What a parse of `ts` at a level promises: it read a well-formed expression off the front. */
  ghost predicate ReadsOff<V>(p: Parsed<V>, ts: seq<Tok<V>>, level: nat) {
    p.Got? ==>
      && WellFormed(p.e) && Level(p.e) >= level
      && Yield(p.e) + p.rest == ts
  }

  function SumOf<V>(ts: seq<Tok<V>>): (p: Parsed<V>)
    ensures p.Got? ==> |p.rest| < |ts|
    decreases |ts|, 5
  {
    match ProductOf(ts)
    case Fail => Fail
    case Got(l, rest) => SumLoop(l, rest)
  }

  function SumLoop<V>(l: Expr<V>, ts: seq<Tok<V>>): (p: Parsed<V>)
    ensures p.Got? ==> |p.rest| <= |ts|
    decreases |ts|, 0
  {
    if StartsAdd(ts) then
      match ProductOf(ts[1..])
      case Fail => Fail
      case Got(r, rest) => SumLoop(Binary(ts[0].c, l, r), rest)
    else Got(l, ts)
  }

  function ProductOf<V>(ts: seq<Tok<V>>): (p: Parsed<V>)
    ensures p.Got? ==> |p.rest| < |ts|
    decreases |ts|, 4
  {
    match PowerOf(ts)
    case Fail => Fail
    case Got(l, rest) => ProductLoop(l, rest)
  }

  function ProductLoop<V>(l: Expr<V>, ts: seq<Tok<V>>): (p: Parsed<V>)
    ensures p.Got? ==> |p.rest| <= |ts|
    decreases |ts|, 0
  {
    if StartsMul(ts) then
      match PowerOf(ts[1..])
      case Fail => Fail
      case Got(r, rest) => ProductLoop(Binary(ts[0].c, l, r), rest)
    else Got(l, ts)
  }

  function PowerOf<V>(ts: seq<Tok<V>>): (p: Parsed<V>)
    ensures p.Got? ==> |p.rest| < |ts|
    decreases |ts|, 3
  {
    match UnaryOf(ts)
    case Fail => Fail
    case Got(base, rest) =>
      if StartsPow(rest) then
        match PowerOf(rest[1..])
        case Fail => Fail
        case Got(r, rest') => Got(Binary('^', base, r), rest')
      else Got(base, rest)
  }

  function UnaryOf<V>(ts: seq<Tok<V>>): (p: Parsed<V>)
    ensures p.Got? ==> |p.rest| < |ts|
    decreases |ts|, 2
  {
    if StartsAdd(ts) then
      match UnaryOf(ts[1..])
      case Fail => Fail
      case Got(arg, rest) => Got(Signed(ts[0].c, arg), rest)
    else PrimaryOf(ts)
  }

  function PrimaryOf<V>(ts: seq<Tok<V>>): (p: Parsed<V>)
    ensures p.Got? ==> |p.rest| < |ts|
    decreases |ts|, 1
  {
    match Head(ts)
    case Num(v) => Got(Lit(v), ts[1..])
    case Sym(c) =>
      if c != '(' then Fail else
      (match SumOf(ts[1..])
       case Fail => Fail
       case Got(inner, rest) => if Head(rest) == Sym(')') then Got(Paren(inner), rest[1..]) else Fail)
    case Eof => Fail
  }

  // ----- soundness: whatever is read is a sentence of the grammar -----

  lemma {:induction false} SumSound<V>(ts: seq<Tok<V>>)
    ensures ReadsOff(SumOf(ts), ts, 0)
    decreases |ts|, 5
  {
    ProductSound(ts);
    var p := ProductOf(ts);
    if p.Got? { SumLoopSound(p.e, p.rest); }
  }

  lemma {:induction false} SumLoopSound<V>(l: Expr<V>, ts: seq<Tok<V>>)
    requires WellFormed(l)
    ensures ReadsOff(SumLoop(l, ts), Yield(l) + ts, 0)
    decreases |ts|, 0
  {
    if StartsAdd(ts) {
      ProductSound(ts[1..]);
      var p := ProductOf(ts[1..]);
      if p.Got? {
        JoinTokens(l, ts, p.e, p.rest);
        SumLoopSound(Binary(ts[0].c, l, p.e), p.rest);
      }
    }
  }

  lemma {:induction false} ProductSound<V>(ts: seq<Tok<V>>)
    ensures ReadsOff(ProductOf(ts), ts, 1)
    decreases |ts|, 4
  {
    PowerSound(ts);
    var p := PowerOf(ts);
    if p.Got? { ProductLoopSound(p.e, p.rest); }
  }

  lemma {:induction false} ProductLoopSound<V>(l: Expr<V>, ts: seq<Tok<V>>)
    requires WellFormed(l) && Level(l) >= 1
    ensures ReadsOff(ProductLoop(l, ts), Yield(l) + ts, 1)
    decreases |ts|, 0
  {
    if StartsMul(ts) {
      PowerSound(ts[1..]);
      var p := PowerOf(ts[1..]);
      if p.Got? {
        JoinTokens(l, ts, p.e, p.rest);
        ProductLoopSound(Binary(ts[0].c, l, p.e), p.rest);
      }
    }
  }

  lemma {:induction false} PowerSound<V>(ts: seq<Tok<V>>)
    ensures ReadsOff(PowerOf(ts), ts, 2)
    decreases |ts|, 3
  {
    UnarySound(ts);
    var p := UnaryOf(ts);
    if p.Got? && StartsPow(p.rest) {
      PowerSound(p.rest[1..]);
      var q := PowerOf(p.rest[1..]);
      if q.Got? { JoinTokens(p.e, p.rest, q.e, q.rest); }
    }
  }

  lemma {:induction false} UnarySound<V>(ts: seq<Tok<V>>)
    ensures ReadsOff(UnaryOf(ts), ts, 3)
    decreases |ts|, 2
  {
    if StartsAdd(ts) {
      UnarySound(ts[1..]);
      assert ts == [ts[0]] + ts[1..];
    } else {
      PrimarySound(ts);
    }
  }

  lemma {:induction false} PrimarySound<V>(ts: seq<Tok<V>>)
    ensures ReadsOff(PrimaryOf(ts), ts, 4)
    decreases |ts|, 1
  {
    if Head(ts) == Sym('(') {
      SumSound(ts[1..]);
      var p := SumOf(ts[1..]);
      if p.Got? && Head(p.rest) == Sym(')') {
        assert p.rest == [Sym(')')] + p.rest[1..];
        assert ts == [Sym('(')] + (Yield(p.e) + p.rest);
        assert Yield(Paren(p.e)) + p.rest[1..] == ts;
      }
    }
  }

  lemma JoinTokens<V>(l: Expr<V>, ts: seq<Tok<V>>, r: Expr<V>, rest: seq<Tok<V>>)
    requires ts != [] && ts[0].Sym? && Yield(r) + rest == ts[1..]
    ensures Yield(Binary(ts[0].c, l, r)) + rest == Yield(l) + ts
  {
    assert ts == [ts[0]] + ts[1..];
    assert (Yield(l) + [Sym(ts[0].c)] + Yield(r)) + rest == Yield(l) + ([Sym(ts[0].c)] + (Yield(r) + rest));
  }

  // ----- completeness: every sentence of the grammar is read back as itself -----

  lemma SumLoopStep<V>(l: Expr<V>, op: char, r: Expr<V>, rest: seq<Tok<V>>)
    requires IsAddOp(op)
    requires ProductOf(Yield(r) + rest) == Got(r, rest)
    ensures SumLoop(l, [Sym(op)] + (Yield(r) + rest)) == SumLoop(Binary(op, l, r), rest)
  {
    assert ([Sym(op)] + (Yield(r) + rest))[1..] == Yield(r) + rest;
  }

  lemma ProductLoopStep<V>(l: Expr<V>, op: char, r: Expr<V>, rest: seq<Tok<V>>)
    requires IsMulOp(op)
    requires PowerOf(Yield(r) + rest) == Got(r, rest)
    ensures ProductLoop(l, [Sym(op)] + (Yield(r) + rest)) == ProductLoop(Binary(op, l, r), rest)
  {
    assert ([Sym(op)] + (Yield(r) + rest))[1..] == Yield(r) + rest;
  }

  lemma PowerStep<V>(l: Expr<V>, r: Expr<V>, rest: seq<Tok<V>>)
    requires UnaryOf(Yield(l) + ([Sym('^')] + (Yield(r) + rest))) == Got(l, [Sym('^')] + (Yield(r) + rest))
    requires PowerOf(Yield(r) + rest) == Got(r, rest)
    ensures PowerOf(Yield(l) + ([Sym('^')] + (Yield(r) + rest))) == Got(Binary('^', l, r), rest)
  {
    assert ([Sym('^')] + (Yield(r) + rest))[1..] == Yield(r) + rest;
  }

  lemma YieldSplit<V>(e: Expr<V>, rest: seq<Tok<V>>)
    requires e.Binary?
    ensures Yield(e) + rest == Yield(e.left) + ([Sym(e.op)] + (Yield(e.right) + rest))
  {
  }

  /** A sum is read up to its own end; what follows is left to the loop. */
  lemma {:induction false} SumComplete<V>(e: Expr<V>, rest: seq<Tok<V>>)
    requires WellFormed(e)
    requires !StartsMul(rest) && !StartsPow(rest)
    ensures SumOf(Yield(e) + rest) == SumLoop(e, rest)
    decreases e, 4
  {
    if Level(e) == 0 {
      YieldSplit(e, rest);
      SumComplete(e.left, [Sym(e.op)] + (Yield(e.right) + rest));
      ProductComplete(e.right, rest);
      SumLoopStep(e.left, e.op, e.right, rest);
    } else {
      ProductComplete(e, rest);
    }
  }

  lemma {:induction false} ProductComplete<V>(e: Expr<V>, rest: seq<Tok<V>>)
    requires WellFormed(e) && Level(e) >= 1
    requires !StartsPow(rest)
    ensures ProductOf(Yield(e) + rest) == ProductLoop(e, rest)
    decreases e, 3
  {
    if Level(e) == 1 {
      YieldSplit(e, rest);
      ProductComplete(e.left, [Sym(e.op)] + (Yield(e.right) + rest));
      PowerComplete(e.right, rest);
      ProductLoopStep(e.left, e.op, e.right, rest);
    } else {
      PowerComplete(e, rest);
    }
  }

  lemma {:induction false} PowerComplete<V>(e: Expr<V>, rest: seq<Tok<V>>)
    requires WellFormed(e) && Level(e) >= 2
    requires !StartsPow(rest)
    ensures PowerOf(Yield(e) + rest) == Got(e, rest)
    decreases e, 2
  {
    if Level(e) == 2 {
      YieldSplit(e, rest);
      UnaryComplete(e.left, [Sym('^')] + (Yield(e.right) + rest));
      PowerComplete(e.right, rest);
      PowerStep(e.left, e.right, rest);
    } else {
      UnaryComplete(e, rest);
    }
  }

  lemma {:induction false} UnaryComplete<V>(e: Expr<V>, rest: seq<Tok<V>>)
    requires WellFormed(e) && Level(e) >= 3
    ensures UnaryOf(Yield(e) + rest) == Got(e, rest)
    decreases e, 1
  {
    match e
    case Lit(_) =>
      assert (Yield(e) + rest)[1..] == rest;
    case Signed(sign, arg) =>
      UnaryComplete(arg, rest);
      assert (Yield(e) + rest)[1..] == Yield(arg) + rest;
    case Paren(inner) =>
      var tail := [Sym(')')] + rest;
      SumComplete(inner, tail);
      assert (Yield(e) + rest)[1..] == Yield(inner) + tail;
      assert tail[1..] == rest;
  }

  /** The whole input is one expression followed by the end marker. */
  function ParseAll<V>(ts: seq<Tok<V>>): Outcome<Expr<V>> {
    match SumOf(ts)
    case Fail => Err("syntax")
    case Got(e, rest) => if Head(rest) == Eof then Ok(e) else Err("unexpected trailing input")
  }

  /** Every well-formed expression, printed, parses back to itself. */
  lemma {:induction false} ParseOfYield<V>(e: Expr<V>)
    requires WellFormed(e)
    ensures ParseAll(Yield(e) + [Eof]) == Ok(e)
  {
    SumComplete(e, [Eof]);
  }

  /** The parser accepts exactly the sentences of the grammar, and the grammar is unambiguous. */
  lemma {:induction false} ParserDecidesGrammar<V>(body: seq<Tok<V>>)
    requires Eof !in body
    ensures ParseAll(body + [Eof]).Ok? <==> exists e: Expr<V> :: WellFormed(e) && Yield(e) == body
    ensures forall e: Expr<V> :: WellFormed(e) && Yield(e) == body ==> ParseAll(body + [Eof]) == Ok(e)
  {
    forall e: Expr<V> | WellFormed(e) && Yield(e) == body ensures ParseAll(body + [Eof]) == Ok(e) {
      ParseOfYield(e);
    }
    SumSound(body + [Eof]);
    match SumOf(body + [Eof])
    case Fail =>
    case Got(e, rest) =>
      if Head(rest) == Eof {
        OnlyEndIsEof(body, e, rest);
        assert WellFormed(e) && Yield(e) == body;
      }
  }

  lemma OnlyEndIsEof<V>(body: seq<Tok<V>>, e: Expr<V>, rest: seq<Tok<V>>)
    requires Eof !in body && Yield(e) + rest == body + [Eof] && Head(rest) == Eof
    ensures Yield(e) == body
  {
    var y, all := Yield(e), body + [Eof];
    assert forall k :: 0 <= k < |y| ==> all[k] == y[k];
    assert all[|body|] == Eof;
    assert forall k :: 0 <= k < |y| ==> y[k] in y;
    assert |y| <= |body|;
    assert rest != [];
    assert all[|y|] == rest[0];
    assert forall k :: 0 <= k < |body| ==> body[k] in body && all[k] == body[k];
    assert |y| == |body|;
    assert y == all[..|y|] == body;
  }

  /** Printing any tree and parsing it back recovers the tree. */
  lemma {:induction false} PrintParseRoundTrip<V>(t: Tree<V>)
    requires TreeOps(t)
    ensures var p := ParseAll(Yield(Print(t)) + [Eof]); p.Ok? && Erase(p.value) == t
  {
    PrintIsFaithful(t);
    ParseOfYield(Print(t));
  }

  // ----- evaluation while parsing -----

  /** A left operand that fails to evaluate makes the whole sum fail with the same error. */
  lemma {:induction false} SumKeepsError<V>(a: Arith<V>, l: Expr<V>, ts: seq<Tok<V>>)
    requires Value(a, Erase(l)).Err?
    ensures SumLoop(l, ts).Got? ==> Value(a, Erase(SumLoop(l, ts).e)) == Value(a, Erase(l))
    decreases |ts|
  {
    if StartsAdd(ts) {
      var p := ProductOf(ts[1..]);
      if p.Got? { SumKeepsError(a, Binary(ts[0].c, l, p.e), p.rest); }
    }
  }

  lemma {:induction false} ProductKeepsError<V>(a: Arith<V>, l: Expr<V>, ts: seq<Tok<V>>)
    requires Value(a, Erase(l)).Err?
    ensures ProductLoop(l, ts).Got? ==> Value(a, Erase(ProductLoop(l, ts).e)) == Value(a, Erase(l))
    decreases |ts|
  {
    if StartsMul(ts) {
      var p := PowerOf(ts[1..]);
      if p.Got? { ProductKeepsError(a, Binary(ts[0].c, l, p.e), p.rest); }
    }
  }

  /** `r` is the value of the expression that `p` reads; a syntax error is some error. */
  ghost predicate Agrees<V>(a: Arith<V>, p: Parsed<V>, r: Outcome<V>) {
    match p
    case Fail => r.Err?
    case Got(e, _) => r == Value(a, Erase(e))
  }

  class Parser<V> {
    const tokens: seq<Tok<V>>
    const arith: Arith<V>
    var i: nat

    constructor (arith: Arith<V>, tokens: seq<Tok<V>>)
      ensures this.arith == arith && this.tokens == tokens && i == 0
    {
      this.arith := arith;
      this.tokens := tokens;
      i := 0;
    }

    ghost predicate Valid()
      reads this`i
    {
      i <= |tokens|
    }

    /** Tokens not consumed yet. */
    function Rest(): seq<Tok<V>>
      requires Valid()
      reads this`i
    {
      tokens[i..]
    }

    function Peek(): (t: Tok<V>)
      requires Valid()
      reads this`i
      ensures t == Head(Rest())
    {
      if i < |tokens| then tokens[i] else Eof
    }

    method Take() returns (t: Tok<V>)
      requires Valid()
      modifies this`i
      ensures Valid() && t == Head(old(Rest()))
      ensures Rest() == if t == Eof then old(Rest()) else old(Rest())[1..]
      ensures t != Eof ==> i == old(i) + 1
    {
      t := Peek();
      if t != Eof { i := i + 1; }
    }

    method ExpectOp(c: char) returns (r: Outcome<()>)
      requires Valid()
      modifies this`i
      ensures Valid() && i >= old(i)
      ensures r.Ok? <==> Head(old(Rest())) == Sym(c)
      ensures r.Ok? ==> Rest() == old(Rest())[1..]
    {
      if Peek() == Sym(c) {
        var _ := Take();
        return Ok(());
      }
      return Err("expected '" + [c] + "'");
    }

    method ParseExpr() returns (r: Outcome<V>)
      requires Valid()
      modifies this`i
      ensures Valid()
      ensures Agrees(arith, SumOf(old(Rest())), r)
      ensures r.Ok? ==> Rest() == SumOf(old(Rest())).rest && i > old(i)
      decreases |tokens| - i, 5
    {
      ghost var goal := SumOf(Rest());
      ghost var first := ProductOf(Rest());
      var term := ParseTerm();
      if term.Err? && first.Got? { SumKeepsError(arith, first.e, first.rest); }
      var left :- term;
      ghost var e := first.e;
      while StartsAdd(Rest())
        invariant Valid() && i > old(i)
        invariant Value(arith, Erase(e)) == Ok(left)
        invariant SumLoop(e, Rest()) == goal
        decreases |tokens| - i
      {
        var t := Take();
        ghost var p := ProductOf(Rest());
        var right := ParseTerm();
        if p.Got? && right.Err? { SumKeepsError(arith, Binary(t.c, e, p.e), p.rest); }
        var y :- right;
        e := Binary(t.c, e, p.e);
        left := if t.c == '+' then arith.add(left, y) else arith.sub(left, y);
      }
      return Ok(left);
    }

    method ParseTerm() returns (r: Outcome<V>)
      requires Valid()
      modifies this`i
      ensures Valid()
      ensures Agrees(arith, ProductOf(old(Rest())), r)
      ensures r.Ok? ==> Rest() == ProductOf(old(Rest())).rest && i > old(i)
      decreases |tokens| - i, 3
    {
      ghost var goal := ProductOf(Rest());
      ghost var first := PowerOf(Rest());
      var base := ParsePower();
      if base.Err? && first.Got? { ProductKeepsError(arith, first.e, first.rest); }
      var left :- base;
      ghost var e := first.e;
      while StartsMul(Rest())
        invariant Valid() && i > old(i)
        invariant Value(arith, Erase(e)) == Ok(left)
        invariant ProductLoop(e, Rest()) == goal
        decreases |tokens| - i
      {
        var t := Take();
        ghost var p := PowerOf(Rest());
        var operand := ParsePower();
        if p.Got? && Value(arith, Erase(Binary(t.c, e, p.e))).Err? {
          ProductKeepsError(arith, Binary(t.c, e, p.e), p.rest);
        }
        var right :- operand;
        left :- Reduce(t.c, left, right);
        e := Binary(t.c, e, p.e);
      }
      return Ok(left);
    }

    /** The arithmetic of one loop step of `ParseTerm`. */
    method Reduce(op: char, left: V, right: V) returns (r: Outcome<V>)
      requires IsMulOp(op)
      ensures r == Apply(arith, op, left, right)
    {
      if op == '*' { return Ok(arith.mul(left, right)); }
      if op == '/' {
        if arith.isZero(right) { return Err("division by zero"); }
        return Ok(arith.div(left, right));
      }
      if arith.isZero(right) { return Err("modulo by zero"); }
      return Ok(arith.rem(left, right));
    }

    method ParsePower() returns (r: Outcome<V>)
      requires Valid()
      modifies this`i
      ensures Valid()
      ensures Agrees(arith, PowerOf(old(Rest())), r)
      ensures r.Ok? ==> Rest() == PowerOf(old(Rest())).rest && i > old(i)
      decreases |tokens| - i, 2
    {
      var base :- ParseUnary();
      if StartsPow(Rest()) {
        var _ := Take();
        var exp :- ParsePower();
        return Ok(arith.pow(base, exp));
      }
      return Ok(base);
    }

    method ParseUnary() returns (r: Outcome<V>)
      requires Valid()
      modifies this`i
      ensures Valid()
      ensures Agrees(arith, UnaryOf(old(Rest())), r)
      ensures r.Ok? ==> Rest() == UnaryOf(old(Rest())).rest && i > old(i)
      decreases |tokens| - i, 1
    {
      var t := Peek();
      if t == Sym('+') {
        var _ := Take();
        r := ParseUnary();
      } else if t == Sym('-') {
        var _ := Take();
        var v :- ParseUnary();
        return Ok(arith.neg(v));
      } else {
        r := ParsePrimary();
      }
    }

    method ParsePrimary() returns (r: Outcome<V>)
      requires Valid()
      modifies this`i
      ensures Valid()
      ensures Agrees(arith, PrimaryOf(old(Rest())), r)
      ensures r.Ok? ==> Rest() == PrimaryOf(old(Rest())).rest && i > old(i)
      decreases |tokens| - i, 0
    {
      var t := Take();
      if t.Num? { return Ok(t.value); }
      if t == Sym('(') {
        var value :- ParseExpr();
        var _ :- ExpectOp(')');
        return Ok(value);
      }
      return Err("expected number or '('");
    }

    /** Succeeds exactly when the tokens are one expression whose tree has a finite value, and then
        returns that value; an expression that does not evaluate reports its own error. */
    method Parse() returns (r: Outcome<V>)
      requires Valid()
      modifies this`i
      ensures Valid()
      ensures IsParseResult(arith, old(Rest()), r)
    {
      var value :- ParseExpr();
      if Peek() != Eof { return Err("unexpected trailing input"); }
      if !arith.isFinite(value) { return Err("non-finite result"); }
      return Ok(value);
    }
  }

  /** What `Parse` promises about its result. */
  ghost predicate IsParseResult<V>(a: Arith<V>, ts: seq<Tok<V>>, r: Outcome<V>) {
    match ParseAll(ts)
    case Err(_) => r.Err?
    case Ok(e) =>
      match Value(a, Erase(e))
      case Err(msg) => r == Err(msg)
      case Ok(v) => r == if a.isFinite(v) then Ok(v) else Err("non-finite result")
  }
}
