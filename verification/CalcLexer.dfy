/** The tokenizer and the entry point of zoeken-client/src/lib/calcEval.ts, from characters to
    value. Regular-expression replacements and `trim` are library calls and appear as functions;
    the scanning loops are the methods. */
module CalcLexer {
  import opened Ordering
  import opened Wrappers
  import opened CalcGrammar
  import opened CalcParser

  predicate IsDigit(c: char) { '0' <= c <= '9' }

  predicate IsOpChar(c: char) { IsBinOp(c) || c == '(' || c == ')' }

  /** The characters the language is written with. */
  predicate IsCalcChar(c: char) { IsDigit(c) || c == '.' || IsOpChar(c) }

  // ----- rewriting of the input -----

  function ReplaceChar(s: string, from: char, to: char): string {
    seq(|s|, i requires 0 <= i < |s| => if s[i] == from then to else s[i])
  }

  /** `**` becomes `^`, scanning from the left. */
  function ReplaceStars(s: string): string {
    if |s| < 2 then s
    else if s[0] == '*' && s[1] == '*' then "^" + ReplaceStars(s[2..])
    else s[..1] + ReplaceStars(s[1..])
  }

  function DropSpaces(isSpace: char -> bool, s: string): string {
    if s == "" then "" else (if isSpace(s[0]) then "" else s[..1]) + DropSpaces(isSpace, s[1..])
  }

  function Preprocess(isSpace: char -> bool, s: string): string {
    var signs := ReplaceChar(ReplaceChar(ReplaceChar(s, '\U{d7}', '*'), '\U{f7}', '/'), '\U{2212}', '-');
    DropSpaces(isSpace, ReplaceStars(signs))
  }

  /** The sign a character stands for: multiplication, division and minus have typographic forms. */
  function Plain(c: char): char {
    if c == '\U{d7}' then '*' else if c == '\U{f7}' then '/' else if c == '\U{2212}' then '-' else c
  }

  /** A typographic sign means what the plain one does. */
  lemma SignsMean(isSpace: char -> bool, s: string, t: string)
    requires |s| == |t| && forall i :: 0 <= i < |s| ==> Plain(s[i]) == Plain(t[i])
    ensures Preprocess(isSpace, s) == Preprocess(isSpace, t)
  {
    SignsPlain(s);
    SignsPlain(t);
    assert PlainText(s) == PlainText(t);
  }

  function PlainText(s: string): string { seq(|s|, i requires 0 <= i < |s| => Plain(s[i])) }

  lemma SignsPlain(s: string)
    ensures ReplaceChar(ReplaceChar(ReplaceChar(s, '\U{d7}', '*'), '\U{f7}', '/'), '\U{2212}', '-') == PlainText(s)
  {
  }

  lemma StarsOne(c: char, rest: string)
    requires c != '*' || rest == "" || rest[0] != '*'
    ensures ReplaceStars([c] + rest) == [c] + ReplaceStars(rest)
  {
    assert ([c] + rest)[1..] == rest && ([c] + rest)[..1] == [c];
  }

  lemma StarsTwo(rest: string)
    ensures ReplaceStars("**" + rest) == "^" + ReplaceStars(rest)
  {
    assert ("**" + rest)[2..] == rest;
  }

  lemma {:induction false} StarsConcat(s: string, t: string)
    requires s == "" || t == "" || s[|s| - 1] != '*' || t[0] != '*'
    ensures ReplaceStars(s + t) == ReplaceStars(s) + ReplaceStars(t)
    decreases |s|
  {
    if s == "" {
      assert s + t == t;
    } else if StartsWith(s, "**") {
      StarsConcat(s[2..], t);
      StarsTwo(s[2..]);
      StarsTwo(s[2..] + t);
      Prefixed("**", s[2..], t, s);
      ConcatAssociates("^", ReplaceStars(s[2..]), ReplaceStars(t));
    } else {
      StarsConcat(s[1..], t);
      assert |s| >= 2 ==> s[..2] == [s[0], s[1]];
      StarsOne(s[0], s[1..]);
      StarsOne(s[0], s[1..] + t);
      Prefixed([s[0]], s[1..], t, s);
      ConcatAssociates([s[0]], ReplaceStars(s[1..]), ReplaceStars(t));
    }
  }

  lemma Prefixed(head: string, rest: string, t: string, s: string)
    requires |head| <= |s| && head == s[..|head|] && rest == s[|head|..]
    ensures s == head + rest && s + t == head + (rest + t)
  {
  }

  lemma {:induction false} SpacesConcat(isSpace: char -> bool, s: string, t: string)
    ensures DropSpaces(isSpace, s + t) == DropSpaces(isSpace, s) + DropSpaces(isSpace, t)
  {
    if s == "" {
      assert s + t == t;
    } else {
      SpacesConcat(isSpace, s[1..], t);
      assert (s + t)[1..] == s[1..] + t && (s + t)[..1] == s[..1];
    }
  }

  /** Neither text ends, or begins, so that stars of both could form a power. */
  predicate StarsApart(s: string, t: string) { s == "" || t == "" || Plain(s[|s| - 1]) != '*' || Plain(t[0]) != '*' }

  /** What stands apart is rewritten apart. */
  lemma PreprocessConcat(isSpace: char -> bool, s: string, t: string)
    requires StarsApart(s, t)
    ensures Preprocess(isSpace, s + t) == Preprocess(isSpace, s) + Preprocess(isSpace, t)
  {
    SignsPlain(s);
    SignsPlain(t);
    SignsPlain(s + t);
    assert PlainText(s + t) == PlainText(s) + PlainText(t);
    StarsConcat(PlainText(s), PlainText(t));
    SpacesConcat(isSpace, ReplaceStars(PlainText(s)), ReplaceStars(PlainText(t)));
  }

  /** Two stars make a power, */
  lemma StarsMean(isSpace: char -> bool)
    ensures Preprocess(isSpace, "**") == Preprocess(isSpace, "^")
    ensures !isSpace('^') ==> Preprocess(isSpace, "**") == "^"
  {
    SignsPlain("**");
    SignsPlain("^");
    assert PlainText("**") == "**" && PlainText("^") == "^";
    assert "**"[2..] == "" && "^"[1..] == "";
  }

  /** a blank is dropped, and any other character stands for itself or its sign. */
  lemma CharMeans(isSpace: char -> bool, c: char)
    ensures Preprocess(isSpace, [c]) == if isSpace(Plain(c)) then "" else [Plain(c)]
  {
    SignsPlain([c]);
    var x := Plain(c);
    assert PlainText([c]) == [x];
    StarsOne(x, "");
    assert [x] + "" == [x] && [x][1..] == "" && [x][..1] == [x];
    assert DropSpaces(isSpace, [x]) == (if isSpace(x) then "" else [x]) + DropSpaces(isSpace, "");
  }

  // ----- the reference tokenizer -----

  /** Length of the longest numeral prefix: digits with at most one dot. */
  function NumeralEnd(s: string, seenDot: bool): (n: nat)
    ensures n <= |s|
  {
    if s == "" then 0
    else if IsDigit(s[0]) then 1 + NumeralEnd(s[1..], seenDot)
    else if s[0] == '.' && !seenDot then 1 + NumeralEnd(s[1..], true)
    else 0
  }

  function Lex<V>(a: Arith<V>, s: string): Outcome<seq<string>> {
    if s == "" then Ok([])
    else if IsDigit(s[0]) || s[0] == '.' then
      var n := NumeralEnd(s, false);
      if s[..n] == "." || !a.isFinite(a.number(s[..n])) then Err("invalid number")
      else var tail :- Lex(a, s[n..]); Ok([s[..n]] + tail)
    else if IsOpChar(s[0]) then var tail :- Lex(a, s[1..]); Ok([s[..1]] + tail)
    else Err("unexpected character: " + s[..1])
  }

  function Onto(done: seq<string>, o: Outcome<seq<string>>): Outcome<seq<string>> {
    match o
    case Err(msg) => Err(msg)
    case Ok(lx) => Ok(done + lx)
  }

  predicate IsNumeral<V>(a: Arith<V>, s: string) {
    s != "" && s != "." && NumeralEnd(s, false) == |s| && a.isFinite(a.number(s))
  }

  predicate IsOpLexeme(s: string) { |s| == 1 && IsOpChar(s[0]) }

  predicate IsLexeme<V>(a: Arith<V>, s: string) { IsOpLexeme(s) || IsNumeral(a, s) }

  /** `t` cannot continue the numeral `s`. */
  predicate Separate(s: string, t: string) {
    t == "" || IsOpChar(t[0]) || (t[0] == '.' && '.' in s)
  }

  /** Lexemes cut by maximal munch. */
  predicate IsLexing<V>(a: Arith<V>, lx: seq<string>) {
    && (forall k :: 0 <= k < |lx| ==> IsLexeme(a, lx[k]))
    && (forall k :: 0 <= k < |lx| - 1 && IsNumeral(a, lx[k]) ==> Separate(lx[k], lx[k + 1]))
  }

  lemma {:induction false} NumeralChars(s: string, seenDot: bool)
    ensures forall k :: 0 <= k < NumeralEnd(s, seenDot) ==> IsDigit(s[k]) || s[k] == '.'
    ensures NumeralEnd(s, seenDot) == NumeralEnd(s[..NumeralEnd(s, seenDot)], seenDot)
    ensures var n := NumeralEnd(s, seenDot); n < |s| ==>
              !IsDigit(s[n]) && (s[n] == '.' ==> seenDot || '.' in s[..n])
  {
    if s != "" && (IsDigit(s[0]) || (s[0] == '.' && !seenDot)) {
      var dot := seenDot || s[0] == '.';
      NumeralChars(s[1..], dot);
      var n := NumeralEnd(s, seenDot);
      assert s[..n][1..] == s[1..][..n - 1];
      assert s[..n] == s[..1] + s[1..n];
    }
  }

  /** A text is one numeral exactly if it is made of digits and at most one dot; with `seenDot` there
      was a dot before. */
  lemma {:induction false} NumeralIff(s: string, seenDot: bool)
    ensures NumeralEnd(s, seenDot) == |s| <==>
            && (forall i :: 0 <= i < |s| ==> s[i] in "0123456789.")
            && multiset(s)['.'] <= if seenDot then 0 else 1
  {
    if s != "" {
      var dot := seenDot || s[0] == '.';
      NumeralIff(s[1..], dot);
      assert s == [s[0]] + s[1..];
      assert multiset(s)['.'] == multiset(s[1..])['.'] + if s[0] == '.' then 1 else 0;
      DigitChars(s[0]);
      if forall i :: 0 <= i < |s| ==> s[i] in "0123456789." {
        forall i | 0 <= i < |s[1..]| ensures s[1..][i] in "0123456789." { assert s[1..][i] == s[i + 1]; }
      }
    }
  }

  lemma DigitChars(c: char)
    ensures IsDigit(c) || c == '.' <==> c in "0123456789."
  {
    var d := "0123456789.";
    assert c in d <==> exists i :: 0 <= i < 11 && d[i] == c;
    if IsDigit(c) { assert d[c as int - '0' as int] == c; }
  }

  lemma {:induction false} NumeralStops(s: string, t: string, seenDot: bool)
    requires NumeralEnd(s, seenDot) == |s|
    requires t == "" || (!IsDigit(t[0]) && (t[0] == '.' ==> seenDot || '.' in s))
    ensures NumeralEnd(s + t, seenDot) == |s|
  {
    if s == "" {
      assert s + t == t;
    } else {
      NumeralStops(s[1..], t, seenDot || s[0] == '.');
      assert (s + t)[1..] == s[1..] + t;
      assert s == s[..1] + s[1..];
    }
  }

  lemma NumeralIsNotOp<V>(a: Arith<V>, s: string)
    requires IsNumeral(a, s)
    ensures !IsOpLexeme(s) && !IsOpChar(s[0]) && (IsDigit(s[0]) || s[0] == '.')
  {
    NumeralChars(s, false);
  }

  lemma ConcatHead(lx: seq<string>)
    requires lx != [] && lx[0] != ""
    ensures Concat(lx) != "" && Concat(lx)[0] == lx[0][0]
  {
  }

  lemma PrependLexeme<V>(a: Arith<V>, head: string, tail: seq<string>)
    requires IsLexeme(a, head) && IsLexing(a, tail)
    requires tail != [] && IsNumeral(a, head) ==> Separate(head, tail[0])
    ensures Concat([head] + tail) == head + Concat(tail) && IsLexing(a, [head] + tail)
  {
    assert ([head] + tail)[1..] == tail;
  }

  /** Nothing is lost: the lexemes spell the source and are cut by maximal munch. */
  lemma {:induction false} LexIsLossless<V>(a: Arith<V>, s: string)
    ensures Lex(a, s).Ok? ==> Concat(Lex(a, s).value) == s && IsLexing(a, Lex(a, s).value)
    decreases |s|
  {
    if s != "" {
      NumeralChars(s, false);
      var n := if IsDigit(s[0]) || s[0] == '.' then NumeralEnd(s, false) else 1;
      LexIsLossless(a, s[n..]);
      if Lex(a, s).Ok? {
        var lx, tail := Lex(a, s).value, Lex(a, s[n..]).value;
        assert lx == [s[..n]] + tail;
        assert s == s[..n] + s[n..];
        if tail != [] { ConcatHead(tail); }
        PrependLexeme(a, s[..n], tail);
      }
    }
  }

  lemma LexOneNumeral<V>(a: Arith<V>, s: string, rest: string)
    requires IsNumeral(a, s) && Separate(s, rest)
    ensures Lex(a, s + rest) == Onto([s], Lex(a, rest))
  {
    NumeralIsNotOp(a, s);
    NumeralStops(s, rest, false);
    assert (s + rest)[|s|..] == rest && (s + rest)[..|s|] == s;
  }

  lemma LexOneOp<V>(a: Arith<V>, s: string, rest: string)
    requires IsOpLexeme(s)
    ensures Lex(a, s + rest) == Onto([s], Lex(a, rest))
  {
    assert (s + rest)[1..] == rest && (s + rest)[..1] == s;
  }

  /** Any maximal-munch cutting of a source is the one the tokenizer finds. */
  lemma {:induction false} LexOfConcat<V>(a: Arith<V>, lx: seq<string>)
    requires IsLexing(a, lx)
    ensures Lex(a, Concat(lx)) == Ok(lx)
  {
    if lx != [] {
      var s, tail := lx[0], lx[1..];
      LexOfConcat(a, tail);
      assert lx == [s] + tail;
      if IsOpLexeme(s) {
        LexOneOp(a, s, Concat(tail));
      } else {
        if tail != [] { assert Separate(s, tail[0]); ConcatHead(tail); }
        LexOneNumeral(a, s, Concat(tail));
      }
    }
  }

  /** The tokenizer is exactly maximal munch. */
  lemma LexDecidesLexings<V>(a: Arith<V>, s: string, lx: seq<string>)
    ensures Lex(a, s) == Ok(lx) <==> Concat(lx) == s && IsLexing(a, lx)
  {
    LexIsLossless(a, s);
    if Concat(lx) == s && IsLexing(a, lx) { LexOfConcat(a, lx); }
  }

  // ----- the tokenizer -----

  function ToTok<V>(a: Arith<V>, s: string): Tok<V> {
    if IsOpLexeme(s) then Sym(s[0]) else Num(a.number(s))
  }

  function ToToks<V>(a: Arith<V>, lx: seq<string>): seq<Tok<V>> {
    seq(|lx|, i requires 0 <= i < |lx| => ToTok(a, lx[i]))
  }

  /** The tokens of a lexing, with the end marker. */
  function TokensOf<V>(a: Arith<V>, o: Outcome<seq<string>>): Outcome<seq<Tok<V>>> {
    match o
    case Err(msg) => Err(msg)
    case Ok(lx) => Ok(ToToks(a, lx) + [Eof])
  }

  lemma OntoStep(done: seq<string>, head: string, o: Outcome<seq<string>>)
    ensures Onto(done, Onto([head], o)) == Onto(done + [head], o)
  {
    if o.Ok? { assert done + ([head] + o.value) == (done + [head]) + o.value; }
  }

  /** One step of the reference tokenizer, seen from inside the source. */
  lemma LexAt<V>(a: Arith<V>, src: string, i: nat, j: nat)
    requires i < |src| && (IsDigit(src[i]) || src[i] == '.' || IsOpChar(src[i]))
    requires j == if IsOpChar(src[i]) then i + 1 else i + NumeralEnd(src[i..], false)
    ensures i < j <= |src|
    ensures Lex(a, src[i..]) ==
            if !IsOpChar(src[i]) && (src[i..j] == "." || !a.isFinite(a.number(src[i..j])))
            then Err("invalid number")
            else Onto([src[i..j]], Lex(a, src[j..]))
  {
    var s := src[i..];
    assert s[..j - i] == src[i..j] && s[j - i..] == src[j..];
  }

  method ScanNumeral(src: string, i: nat) returns (j: nat)
    requires i < |src|
    ensures j == i + NumeralEnd(src[i..], false)
  {
    j := i;
    var seenDot := false;
    while j < |src|
      invariant i <= j <= |src|
      invariant j - i + NumeralEnd(src[j..], seenDot) == NumeralEnd(src[i..], false)
    {
      var c := src[j];
      assert src[j..][0] == c && src[j..][1..] == src[j + 1..];
      if IsDigit(c) {
        j := j + 1;
      } else if c == '.' && !seenDot {
        seenDot := true;
        j := j + 1;
      } else {
        break;
      }
    }
  }

  method Tokenize<V>(a: Arith<V>, isSpace: char -> bool, input: string) returns (r: Outcome<seq<Tok<V>>>)
    ensures r == TokensOf(a, Lex(a, Preprocess(isSpace, input)))
  {
    r := Scan(a, Preprocess(isSpace, input));
  }

  method Scan<V>(a: Arith<V>, src: string) returns (r: Outcome<seq<Tok<V>>>)
    ensures r == TokensOf(a, Lex(a, src))
  {
    var out: seq<Tok<V>> := [];
    ghost var done: seq<string> := [];
    var i := 0;
    assert src[0..] == src;
    OntoNothing(Lex(a, src));
    while i < |src|
      invariant 0 <= i <= |src|
      invariant out == ToToks(a, done)
      invariant Lex(a, src) == Onto(done, Lex(a, src[i..]))
    {
      var ch := src[i];
      if IsDigit(ch) || ch == '.' {
        var j := ScanNumeral(src, i);
        LexAt(a, src, i, j);
        var raw := src[i..j];
        if raw == "." || raw == "" { return Err("invalid number"); }
        var value := a.number(raw);
        if !a.isFinite(value) { return Err("invalid number"); }
        NumeralSlice(a, src, i, j);
        ToToksSnoc(a, done, raw);
        OntoStep(done, raw, Lex(a, src[j..]));
        out, done, i := out + [Num(value)], done + [raw], j;
      } else if IsOpChar(ch) {
        LexAt(a, src, i, i + 1);
        assert src[i..i + 1] == [ch];
        ToToksSnoc(a, done, [ch]);
        OntoStep(done, [ch], Lex(a, src[i + 1..]));
        out, done, i := out + [Sym(ch)], done + [[ch]], i + 1;
      } else {
        assert src[i..][..1] == [ch];
        return Err("unexpected character: " + [ch]);
      }
    }
    assert src[i..] == "" && done + [] == done;
    return Ok(out + [Eof]);
  }

  lemma ToToksSnoc<V>(a: Arith<V>, lx: seq<string>, s: string)
    ensures ToToks(a, lx + [s]) == ToToks(a, lx) + [ToTok(a, s)]
  {
  }

  lemma OntoNothing(o: Outcome<seq<string>>)
    ensures Onto([], o) == o
  {
    if o.Ok? { assert [] + o.value == o.value; }
  }

  lemma NumeralSlice<V>(a: Arith<V>, src: string, i: nat, j: nat)
    requires i < j <= |src| && j == i + NumeralEnd(src[i..], false)
    requires src[i..j] != "." && a.isFinite(a.number(src[i..j]))
    ensures ToTok(a, src[i..j]) == Num(a.number(src[i..j]))
  {
    NumeralChars(src[i..], false);
    assert src[i..][..j - i] == src[i..j];
    NumeralIsNotOp(a, src[i..j]);
  }

  ghost predicate IsCalcResult<V>(a: Arith<V>, isSpace: char -> bool, expression: string, r: Outcome<V>) {
    var trimmed := Trim(isSpace, expression);
    if trimmed == "" then r == Err("empty expression")
    else match Lex(a, Preprocess(isSpace, trimmed))
         case Err(msg) => r == Err(msg)
         case Ok(lx) => IsParseResult(a, ToToks(a, lx) + [Eof], r)
  }

  method CalcEval<V>(a: Arith<V>, isSpace: char -> bool, expression: string) returns (r: Outcome<V>)
    ensures IsCalcResult(a, isSpace, expression, r)
  {
    var trimmed := Trim(isSpace, expression);
    if trimmed == "" { return Err("empty expression"); }
    var tokens :- Tokenize(a, isSpace, trimmed);
    var parser := new Parser(a, tokens);
    assert parser.Rest() == tokens;
    r := parser.Parse();
  }

  // ----- from a tree to text and back -----

  function Lexeme(t: Tok<string>): string {
    match t
    case Num(s) => s
    case Sym(c) => [c]
    case Eof => ""
  }

  function Lexemes(ts: seq<Tok<string>>): seq<string> {
    seq(|ts|, i requires 0 <= i < |ts| => Lexeme(ts[i]))
  }

  /** The text of a tree whose leaves are numerals. */
  function Show(t: Tree<string>): string {
    Concat(Lexemes(Yield(Print(t))))
  }

  predicate Numerals<V>(a: Arith<V>, t: Tree<string>) {
    match t
    case Leaf(s) => IsNumeral(a, s)
    case Minus(arg) => Numerals(a, arg)
    case Node(op, l, r) => IsBinOp(op) && Numerals(a, l) && Numerals(a, r)
  }

  /** The tree of numbers that a tree of numerals denotes. */
  function Denote<V>(a: Arith<V>, t: Tree<string>): Tree<V> {
    match t
    case Leaf(s) => Leaf(a.number(s))
    case Minus(arg) => Minus(Denote(a, arg))
    case Node(op, l, r) => Node(op, Denote(a, l), Denote(a, r))
  }

  /** No two numbers and no two stars are neighbours. */
  predicate Spaced(ts: seq<Tok<string>>) {
    forall k :: 0 <= k < |ts| - 1 ==>
                  !(ts[k].Num? && ts[k + 1].Num?) && !(ts[k] == Sym('*') && ts[k + 1] == Sym('*'))
  }

  predicate Printable<V>(a: Arith<V>, t: Tok<string>) {
    match t
    case Num(s) => IsNumeral(a, s)
    case Sym(c) => IsOpChar(c)
    case Eof => false
  }

  /** How a sentence may begin and end. */
  predicate Framed(ts: seq<Tok<string>>) {
    && |ts| > 0
    && (ts[0].Num? || ts[0] == Sym('(') || ts[0] == Sym('+') || ts[0] == Sym('-'))
    && (ts[|ts| - 1].Num? || ts[|ts| - 1] == Sym(')'))
  }

  predicate Neat<V>(a: Arith<V>, ts: seq<Tok<string>>) {
    Spaced(ts) && Framed(ts) && forall k :: 0 <= k < |ts| ==> Printable(a, ts[k])
  }

  lemma NeatJoin<V>(a: Arith<V>, x: seq<Tok<string>>, op: char, y: seq<Tok<string>>)
    requires IsBinOp(op) && Neat(a, x) && Neat(a, y)
    ensures Neat(a, x + [Sym(op)] + y)
  {
  }

  lemma NeatSign<V>(a: Arith<V>, y: seq<Tok<string>>)
    requires Neat(a, y)
    ensures Neat(a, [Sym('-')] + y)
  {
  }

  lemma NeatWrap<V>(a: Arith<V>, e: Expr<string>, level: nat)
    requires Neat(a, Yield(e))
    ensures Neat(a, Yield(Wrap(e, level)))
  {
    var y := Yield(e);
    var w := [Sym('(')] + y + [Sym(')')];
    assert Spaced(w) && Framed(w);
    assert Yield(Paren(e)) == w;
  }

  lemma {:induction false} PrintIsNeat<V>(a: Arith<V>, t: Tree<string>)
    requires Numerals(a, t)
    ensures Neat(a, Yield(Print(t)))
  {
    match t
    case Leaf(_) =>
    case Minus(arg) =>
      PrintIsNeat(a, arg);
      NeatWrap(a, Print(arg), 3);
      NeatSign(a, Yield(Wrap(Print(arg), 3)));
    case Node(op, l, r) =>
      PrintIsNeat(a, l);
      PrintIsNeat(a, r);
      NeatWrap(a, Print(l), LeftLevel(op));
      NeatWrap(a, Print(r), RightLevel(op));
      NeatJoin(a, Yield(Wrap(Print(l), LeftLevel(op))), op, Yield(Wrap(Print(r), RightLevel(op))));
  }

  function Read<V>(a: Arith<V>, ts: seq<Tok<string>>): seq<Tok<V>> {
    ToToks(a, Lexemes(ts))
  }

  lemma ReadConcat<V>(a: Arith<V>, x: seq<Tok<string>>, y: seq<Tok<string>>)
    ensures Read(a, x + y) == Read(a, x) + Read(a, y)
  {
  }

  lemma ReadSym<V>(a: Arith<V>, c: char)
    requires IsOpChar(c)
    ensures Read(a, [Sym(c)]) == [Sym(c)]
  {
  }

  lemma WrapDenotes<V>(a: Arith<V>, e: Expr<string>, f: Expr<V>, level: nat)
    requires Level(f) == Level(e) && Yield(f) == Read(a, Yield(e))
    ensures Yield(Wrap(f, level)) == Read(a, Yield(Wrap(e, level)))
  {
    ReadConcat(a, [Sym('(')], Yield(e));
    ReadConcat(a, [Sym('(')] + Yield(e), [Sym(')')]);
    ReadSym(a, '(');
    ReadSym(a, ')');
  }

  /** Reading the printed numerals as numbers gives the print of the denoted tree. */
  lemma {:induction false} YieldDenotes<V>(a: Arith<V>, t: Tree<string>)
    requires Numerals(a, t)
    ensures Level(Print(Denote(a, t))) == Level(Print(t))
    ensures Yield(Print(Denote(a, t))) == Read(a, Yield(Print(t)))
  {
    match t
    case Leaf(s) => NumeralIsNotOp(a, s);
    case Minus(arg) =>
      YieldDenotes(a, arg);
      WrapDenotes(a, Print(arg), Print(Denote(a, arg)), 3);
      ReadConcat(a, [Sym('-')], Yield(Wrap(Print(arg), 3)));
      ReadSym(a, '-');
    case Node(op, l, r) =>
      YieldDenotes(a, l);
      YieldDenotes(a, r);
      WrapDenotes(a, Print(l), Print(Denote(a, l)), LeftLevel(op));
      WrapDenotes(a, Print(r), Print(Denote(a, r)), RightLevel(op));
      var x, y := Yield(Wrap(Print(l), LeftLevel(op))), Yield(Wrap(Print(r), RightLevel(op)));
      ReadConcat(a, x, [Sym(op)]);
      ReadConcat(a, x + [Sym(op)], y);
      ReadSym(a, op);
  }

  lemma DenotedOps<V>(a: Arith<V>, t: Tree<string>)
    requires Numerals(a, t)
    ensures TreeOps(Denote(a, t))
  {
  }

  // Text without foreign characters and without `**` is left alone by the rewriting.

  predicate Clean(s: string) {
    && (forall k :: 0 <= k < |s| ==> IsCalcChar(s[k]))
    && (forall k :: 0 <= k < |s| - 1 ==> !(s[k] == '*' && s[k + 1] == '*'))
  }

  lemma {:induction false} CleanStars(s: string)
    requires Clean(s)
    ensures ReplaceStars(s) == s
  {
    if |s| >= 2 {
      assert forall k :: 0 <= k < |s| - 1 ==> s[1..][k] == s[k + 1];
      CleanStars(s[1..]);
    }
  }

  lemma {:induction false} CleanSpaces(isSpace: char -> bool, s: string)
    requires forall k :: 0 <= k < |s| ==> !isSpace(s[k])
    ensures DropSpaces(isSpace, s) == s && Trim(isSpace, s) == s
  {
    if s != "" { CleanSpaces(isSpace, s[1..]); }
  }

  lemma CleanIsStable(isSpace: char -> bool, s: string)
    requires Clean(s)
    requires forall c | IsCalcChar(c) :: !isSpace(c)
    ensures Trim(isSpace, s) == s && Preprocess(isSpace, s) == s
  {
    CleanSpaces(isSpace, s);
    CleanStars(s);
    assert ReplaceChar(s, '\U{d7}', '*') == s;
    assert ReplaceChar(s, '\U{f7}', '/') == s;
    assert ReplaceChar(s, '\U{2212}', '-') == s;
  }

  lemma {:induction false} SpacedTextIsClean<V>(a: Arith<V>, ts: seq<Tok<string>>)
    requires Spaced(ts) && forall k :: 0 <= k < |ts| ==> Printable(a, ts[k])
    ensures Clean(Concat(Lexemes(ts))) && IsLexing(a, Lexemes(ts))
  {
    if ts != [] {
      var head, tail := Lexeme(ts[0]), Lexemes(ts[1..]);
      SpacedTextIsClean(a, ts[1..]);
      assert Lexemes(ts) == [head] + tail;
      if ts[0].Num? { NumeralIsNotOp(a, head); NumeralChars(head, false); }
      if tail != [] { ConcatHead(tail); }
    }
  }

  /** The value of a tree, or its error, after the finiteness check. */
  function Answer<V>(a: Arith<V>, t: Tree<V>): Outcome<V> {
    var v :- Value(a, t);
    if a.isFinite(v) then Ok(v) else Err("non-finite result")
  }

  /** Writing out any tree of numerals and calling the calculator on the text gives the value of
      that tree, or the tree's own evaluation error. */
  lemma CalcEvalOfShow<V>(a: Arith<V>, isSpace: char -> bool, t: Tree<string>, r: Outcome<V>)
    requires Numerals(a, t)
    requires forall c | IsCalcChar(c) :: !isSpace(c)
    requires IsCalcResult(a, isSpace, Show(t), r)
    ensures r == Answer(a, Denote(a, t))
  {
    var ts := Yield(Print(t));
    PrintIsNeat(a, t);
    SpacedTextIsClean(a, ts);
    CleanIsStable(isSpace, Show(t));
    LexOfConcat(a, Lexemes(ts));
    YieldDenotes(a, t);
    DenotedOps(a, t);
    PrintParseRoundTrip(Denote(a, t));
    ConcatHead(Lexemes(ts));
  }
}
