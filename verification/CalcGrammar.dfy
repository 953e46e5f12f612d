/** The expression language of the calculator: tokens, concrete expressions with their
    precedence levels, abstract trees, and the meaning of a tree.

    The number type `V` and its operations are parameters, so every statement holds for IEEE
    doubles as much as for any other arithmetic. */
module CalcGrammar {

  datatype Outcome<+T> = Ok(value: T) | Err(error: string) {
    predicate IsFailure() { Err? }
    function PropagateFailure<U>(): Outcome<U> requires Err? { Err(error) }
    function Extract(): T requires Ok? { value }
  }

  datatype Arith<!V> = Arith(
    add: (V, V) -> V, sub: (V, V) -> V, mul: (V, V) -> V,
    div: (V, V) -> V, rem: (V, V) -> V, pow: (V, V) -> V,
    neg: V -> V,
    isZero: V -> bool,
    isFinite: V -> bool,
    number: string -> V)

  datatype Tok<+V> = Num(value: V) | Sym(c: char) | Eof

  /** Abstract syntax: what the calculator means, without parentheses or unary plus. */
  datatype Tree<+V> = Leaf(value: V) | Minus(arg: Tree<V>) | Node(op: char, left: Tree<V>, right: Tree<V>)

  /** Concrete syntax: one constructor per production. */
  datatype Expr<+V> =
    | Lit(value: V)
    | Paren(inner: Expr<V>)
    | Signed(sign: char, arg: Expr<V>)
    | Binary(op: char, left: Expr<V>, right: Expr<V>)

  predicate IsAddOp(c: char) { c == '+' || c == '-' }

  predicate IsMulOp(c: char) { c == '*' || c == '/' || c == '%' }

  predicate IsBinOp(c: char) { IsAddOp(c) || IsMulOp(c) || c == '^' }

  /** 0 sum, 1 product, 2 power, 3 signed, 4 primary. */
  function OpLevel(op: char): nat {
    if IsAddOp(op) then 0 else if IsMulOp(op) then 1 else 2
  }

  function Level<V>(e: Expr<V>): nat {
    match e
    case Lit(_) => 4
    case Paren(_) => 4
    case Signed(_, _) => 3
    case Binary(op, _, _) => OpLevel(op)
  }

  /** Lowest level an operand may have: sums and products nest to the left, powers to the right. */
  function LeftLevel(op: char): nat {
    if op == '^' then 3 else OpLevel(op)
  }

  function RightLevel(op: char): nat {
    if op == '^' then 2 else OpLevel(op) + 1
  }

  /** The grammar: expr = term (+|- term)*, term = power (*|/|% power)*,
      power = unary (^ power)?, unary = (+|-) unary | primary, primary = number | ( expr ). */
  predicate WellFormed<V>(e: Expr<V>) {
    match e
    case Lit(_) => true
    case Paren(inner) => WellFormed(inner)
    case Signed(sign, arg) => IsAddOp(sign) && WellFormed(arg) && Level(arg) >= 3
    case Binary(op, l, r) =>
      && IsBinOp(op)
      && WellFormed(l) && Level(l) >= LeftLevel(op)
      && WellFormed(r) && Level(r) >= RightLevel(op)
  }

  /** The tokens an expression is written with. */
  function Yield<V>(e: Expr<V>): (ts: seq<Tok<V>>)
    ensures |ts| > 0
    ensures Eof !in ts
  {
    match e
    case Lit(v) => [Num(v)]
    case Paren(inner) => [Sym('(')] + Yield(inner) + [Sym(')')]
    case Signed(sign, arg) => [Sym(sign)] + Yield(arg)
    case Binary(op, l, r) => Yield(l) + [Sym(op)] + Yield(r)
  }

  function Erase<V>(e: Expr<V>): Tree<V> {
    match e
    case Lit(v) => Leaf(v)
    case Paren(inner) => Erase(inner)
    case Signed(sign, arg) => if sign == '-' then Minus(Erase(arg)) else Erase(arg)
    case Binary(op, l, r) => Node(op, Erase(l), Erase(r))
  }

  function Apply<V>(a: Arith<V>, op: char, l: V, r: V): Outcome<V> {
    if op == '+' then Ok(a.add(l, r))
    else if op == '-' then Ok(a.sub(l, r))
    else if op == '*' then Ok(a.mul(l, r))
    else if op == '/' then if a.isZero(r) then Err("division by zero") else Ok(a.div(l, r))
    else if op == '%' then if a.isZero(r) then Err("modulo by zero") else Ok(a.rem(l, r))
    else Ok(a.pow(l, r))
  }

  /** The reference meaning: evaluate the tree bottom-up, left operand first. */
  function Value<V>(a: Arith<V>, t: Tree<V>): Outcome<V> {
    match t
    case Leaf(v) => Ok(v)
    case Minus(arg) => var v :- Value(a, arg); Ok(a.neg(v))
    case Node(op, l, r) =>
      var x :- Value(a, l);
      var y :- Value(a, r);
      Apply(a, op, x, y)
  }

  // ----- the printer -----

  predicate TreeOps<V>(t: Tree<V>) {
    match t
    case Leaf(_) => true
    case Minus(arg) => TreeOps(arg)
    case Node(op, l, r) => IsBinOp(op) && TreeOps(l) && TreeOps(r)
  }

  function Wrap<V>(e: Expr<V>, level: nat): Expr<V> {
    if Level(e) >= level then e else Paren(e)
  }

  /** Print with parentheses only where the grammar needs them. */
  function Print<V>(t: Tree<V>): Expr<V> {
    match t
    case Leaf(v) => Lit(v)
    case Minus(arg) => Signed('-', Wrap(Print(arg), 3))
    case Node(op, l, r) => Binary(op, Wrap(Print(l), LeftLevel(op)), Wrap(Print(r), RightLevel(op)))
  }

  /** The printer writes a sentence of the grammar that stands for exactly the tree. */
  lemma {:induction false} PrintIsFaithful<V>(t: Tree<V>)
    requires TreeOps(t)
    ensures WellFormed(Print(t)) && Erase(Print(t)) == t
  {
    match t
    case Leaf(_) =>
    case Minus(arg) => PrintIsFaithful(arg);
    case Node(_, l, r) => PrintIsFaithful(l); PrintIsFaithful(r);
  }
}
