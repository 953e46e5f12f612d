/** The optional value and the text helpers the components share. */
module Wrappers {
  datatype Option<+T> = None | Some(value: T)

  /** The number a text of decimal digits stands for; the empty text stands for 0. */
  function DigitsValue(s: string): Option<int> {
    if s == "" then Some(0)
    else
      var d := s[|s| - 1];
      match DigitsValue(s[..|s| - 1])
      case None => None
      case Some(v) => if '0' <= d <= '9' then Some(10 * v + (d as int - '0' as int)) else None
  }

  /** Text before the first separator, and the text after it if there is one. */
  function SplitOnce(s: string, sep: char): (string, Option<string>) {
    if s == "" then ("", None)
    else if s[0] == sep then ("", Some(s[1..]))
    else var rest := SplitOnce(s[1..], sep); (s[..1] + rest.0, rest.1)
  }

  function Decimal(n: nat): string {
    var d := [(n % 10 + '0' as int) as char];
    if n < 10 then d else Decimal(n / 10) + d
  }

  lemma {:induction false} DecimalValue(n: nat)
    ensures Decimal(n) != "" && DigitsValue(Decimal(n)) == Some(n)
  {
    var s := Decimal(n);
    if n < 10 {
      assert s[..0] == "";
    } else {
      DecimalValue(n / 10);
      assert s[..|s| - 1] == Decimal(n / 10);
    }
  }

  /** Exactly the texts of digits stand for a number. */
  lemma {:induction false} DigitsIff(s: string)
    ensures DigitsValue(s).Some? <==> forall i :: 0 <= i < |s| ==> '0' <= s[i] <= '9'
  {
    if s != "" {
      DigitsIff(s[..|s| - 1]);
      assert s == s[..|s| - 1] + [s[|s| - 1]];
    }
  }

  /** Text before a separator that it does not hold itself. */
  lemma {:induction false} SplitAtFirst(head: string, sep: char, tail: string)
    requires sep !in head
    ensures SplitOnce(head + [sep] + tail, sep) == (head, Some(tail))
    ensures SplitOnce(head, sep) == (head, None)
  {
    var s := head + [sep] + tail;
    if head == "" {
      assert s[1..] == tail;
    } else {
      SplitAtFirst(head[1..], sep, tail);
      assert s[1..] == head[1..] + [sep] + tail;
      assert s[..1] + head[1..] == head && head[..1] + head[1..] == head;
    }
  }

  lemma {:induction false} SplitJoins(s: string, sep: char)
    ensures var (a, b) := SplitOnce(s, sep); s == (a + if b.Some? then [sep] + b.value else "") && sep !in a
  {
    if s != "" && s[0] != sep { SplitJoins(s[1..], sep); }
  }

  function Min(a: int, b: int): int { if a < b then a else b }

  function Max(a: int, b: int): int { if a < b then b else a }

  predicate StartsWith(s: string, prefix: string) { prefix <= s }

  function Concat(ss: seq<string>): string {
    if ss == [] then "" else ss[0] + Concat(ss[1..])
  }

  function TrimStart(isSpace: char -> bool, s: string): string {
    if s != "" && isSpace(s[0]) then TrimStart(isSpace, s[1..]) else s
  }

  function TrimEnd(isSpace: char -> bool, s: string): string {
    if s != "" && isSpace(s[|s| - 1]) then TrimEnd(isSpace, s[..|s| - 1]) else s
  }

  function Trim(isSpace: char -> bool, s: string): string { TrimEnd(isSpace, TrimStart(isSpace, s)) }

  predicate AllSpace(isSpace: char -> bool, s: string) { forall i :: 0 <= i < |s| ==> isSpace(s[i]) }

  lemma {:induction false} TrimStartMeans(isSpace: char -> bool, s: string)
    ensures exists before :: AllSpace(isSpace, before) && s == before + TrimStart(isSpace, s)
    ensures TrimStart(isSpace, s) != "" ==> !isSpace(TrimStart(isSpace, s)[0])
  {
    if s != "" && isSpace(s[0]) {
      TrimStartMeans(isSpace, s[1..]);
      var before :| AllSpace(isSpace, before) && s[1..] == before + TrimStart(isSpace, s[1..]);
      assert AllSpace(isSpace, [s[0]] + before) && s == [s[0]] + before + TrimStart(isSpace, s);
    } else {
      assert AllSpace(isSpace, "") && s == "" + s;
    }
  }

  lemma {:induction false} TrimEndMeans(isSpace: char -> bool, s: string)
    ensures exists after :: AllSpace(isSpace, after) && s == TrimEnd(isSpace, s) + after
    ensures TrimEnd(isSpace, s) <= s
    ensures var t := TrimEnd(isSpace, s); t != "" ==> !isSpace(t[|t| - 1])
  {
    if s != "" && isSpace(s[|s| - 1]) {
      var init, last := s[..|s| - 1], s[|s| - 1];
      TrimEndMeans(isSpace, init);
      var after :| AllSpace(isSpace, after) && init == TrimEnd(isSpace, init) + after;
      assert AllSpace(isSpace, after + [last]) && s == TrimEnd(isSpace, s) + (after + [last]);
    } else {
      assert AllSpace(isSpace, "") && s == s + "";
    }
  }

  /** Trimming takes whitespace away at both ends and nothing else, and leaves none there. */
  lemma TrimMeans(isSpace: char -> bool, s: string)
    ensures var t := Trim(isSpace, s);
            && (t != "" ==> !isSpace(t[0]) && !isSpace(t[|t| - 1]))
            && exists before, after ::
                 AllSpace(isSpace, before) && AllSpace(isSpace, after) && s == before + t + after
  {
    TrimStartMeans(isSpace, s);
    var rest := TrimStart(isSpace, s);
    TrimEndMeans(isSpace, rest);
    var t := Trim(isSpace, s);
    var before :| AllSpace(isSpace, before) && s == before + rest;
    var after :| AllSpace(isSpace, after) && rest == t + after;
    assert t != "" ==> t[0] == rest[0];
    assert s == before + t + after;
  }
}
