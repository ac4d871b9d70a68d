/**
  Conditions as text. The rewritten statement is printed and SQLite reads it again, so
  what counts is the tree SQLite finds in the text: the main operator of a text is the
  last, outside all parentheses, of those that bind loosest. From loose to tight: OR;
  AND; NOT; = and BETWEEN; the order comparisons.
 */
module SqlText {
  import opened Common
  import opened Sql

  /** Words of a printed condition; `Upto` is the AND that belongs to a BETWEEN. */
  datatype Token = Leaf(e: Expr) | Open | Close | Infix(op: Op) | Negate | Within | Upto

  predicate IsLeaf(e: Expr) {
    !e.Paren? && !e.Not? && !e.Binary? && !e.Between?
  }

  function Print(e: Expr): seq<Token> {
    match e
    case Paren(x) => [Open] + Print(x) + [Close]
    case Not(x) => [Negate] + Print(x)
    case Binary(op, x, y) => Print(x) + [Infix(op)] + Print(y)
    case Between(x, lo, hi) => Print(x) + [Within] + Print(lo) + [Upto] + Print(hi)
    case _ => [Leaf(e)]
  }

  const TIGHT := 5

  function OpLevel(op: Op): nat {
    match op
    case Or => 0
    case And => 1
    case Eq | Ne => 3
    case _ => 4
  }

  function Level(e: Expr): nat {
    match e
    case Binary(op, _, _) => OpLevel(op)
    case Not(_) => 2
    case Between(_, _, _) => 3
    case _ => TIGHT
  }

  function TokenLevel(t: Token): nat {
    match t
    case Infix(op) => OpLevel(op)
    case Negate => 2
    case Within | Upto => 3
    case _ => TIGHT
  }

  /** How far a text has been scanned: open parentheses, and the best operator so far. */
  datatype Scan = Scan(depth: int, n: nat, best: Option<nat>, level: nat)

  const START := Scan(0, 0, None, TIGHT)

  function See(s: Scan, t: Token): Scan {
    match t
    case Open => s.(depth := s.depth + 1, n := s.n + 1)
    case Close => s.(depth := s.depth - 1, n := s.n + 1)
    case _ =>
      if s.depth == 0 && TokenLevel(t) < TIGHT && TokenLevel(t) <= s.level
      then Scan(0, s.n + 1, Some(s.n), TokenLevel(t)) else s.(n := s.n + 1)
  }

  function SeeAll(s: Scan, ts: seq<Token>): Scan {
    if ts == [] then s else See(SeeAll(s, ts[..|ts| - 1]), ts[|ts| - 1])
  }

  lemma {:induction false} SeeAppend(s: Scan, a: seq<Token>, b: seq<Token>)
    ensures SeeAll(s, a + b) == SeeAll(SeeAll(s, a), b)
    decreases |b|
  {
    if b == [] {
      assert a + b == a;
    } else {
      var front, last := b[..|b| - 1], b[|b| - 1];
      assert (a + b)[..|a + b| - 1] == a + front;
      SeeAppend(s, a, front);
    }
  }

  /** Where the scan stands after a text, whatever it is. */
  lemma {:induction false} SeeBounds(s: Scan, ts: seq<Token>)
    requires s.best.Some? ==> s.best.value < s.n
    ensures var r := SeeAll(s, ts); r.n == s.n + |ts| && (r.best.Some? ==> r.best.value < r.n) && r.level <= s.level
    ensures var r := SeeAll(s, ts); r.best == s.best ==> r.level == s.level
    ensures var r := SeeAll(s, ts); r.best != s.best ==> r.best.Some? && s.n <= r.best.value
    decreases |ts|
  {
    if ts != [] { SeeBounds(s, ts[..|ts| - 1]); }
  }

  /** The position of the main operator. */
  function Main(ts: seq<Token>): (r: Option<nat>)
    ensures r.Some? ==> r.value < |ts|
  {
    SeeBounds(START, ts);
    SeeAll(START, ts).best
  }

  function Bracketed(ts: seq<Token>): bool {
    |ts| >= 2 && ts[0].Open? && ts[|ts| - 1].Close?
  }

  /** The tree in a text, if there is one. */
  function Read(ts: seq<Token>): Option<Expr>
    decreases |ts|
  {
    if Main(ts).None? then ReadTight(ts)
    else
      var k := Main(ts).value;
      var right := Read(ts[k + 1..]);
      match ts[k]
      case Negate =>
        // a text that starts with NOT and has nothing looser is the negation of its rest
        if ts[0] != Negate then None
        else
          var x := Read(ts[1..]);
          if x.Some? then Some(Not(x.value)) else None
      case Infix(op) =>
        var left := Read(ts[..k]);
        if left.Some? && right.Some? then Some(Binary(op, left.value, right.value)) else None
      case Upto =>
        if Main(ts[..k]).None? || !ts[..k][Main(ts[..k]).value].Within? then None
        else
          var j := Main(ts[..k]).value;
          var x, lo := Read(ts[..j]), Read(ts[j + 1..k]);
          if x.Some? && lo.Some? && right.Some? then Some(Between(x.value, lo.value, right.value)) else None
      case _ => None
  }

  function ReadTight(ts: seq<Token>): Option<Expr>
    decreases |ts|, 0
  {
    if |ts| == 1 && ts[0].Leaf? && IsLeaf(ts[0].e) then Some(ts[0].e)
    else if Bracketed(ts) then
      var x := Read(ts[1..|ts| - 1]);
      if x.Some? then Some(Paren(x.value)) else None
    else None
  }

  /** Every operand binds tighter than its operator, or stands in parentheses; chains lean to the left. */
  predicate Printable(e: Expr) {
    match e
    case Paren(x) => Printable(x)
    case Not(x) => Printable(x) && Level(x) >= 2
    case Binary(op, x, y) => Printable(x) && Printable(y) && Level(x) >= OpLevel(op) && Level(y) > OpLevel(op)
    case Between(x, lo, hi) =>
      Printable(x) && Printable(lo) && Printable(hi) && Level(x) >= 3 && Level(lo) > 3 && Level(hi) > 3
    case _ => true
  }

  lemma SeeOne(s: Scan, t: Token)
    ensures SeeAll(s, [t]) == See(s, t)
  {
    assert [t][..0] == [];
  }

  // From the tree to the text and back.

  /** A printed tree is balanced; only operators as loose as its own count, and none inside parentheses. */
  ghost predicate Passes(ts: seq<Token>, level: nat, s: Scan) {
    var r := SeeAll(s, ts);
    && r.depth == s.depth && r.n == s.n + |ts|
    && (s.depth > 0 || s.level < level || level == TIGHT ==> r.best == s.best && r.level == s.level)
    && (s.level >= level ==> r.level >= level)
  }

  lemma PassParen(ts: seq<Token>, level: nat, s: Scan)
    requires s.depth >= 0 && Passes(ts, level, See(s, Open))
    ensures Passes([Open] + ts + [Close], TIGHT, s)
  {
    SeeOne(s, Open);
    SeeAppend(s, [Open], ts);
    SeeLast([Open] + ts, Close, s);
  }

  lemma PassNot(ts: seq<Token>, level: nat, s: Scan)
    requires s.depth >= 0 && level >= 2 && Passes(ts, level, See(s, Negate))
    ensures Passes([Negate] + ts, 2, s)
  {
    SeeOne(s, Negate);
    SeeAppend(s, [Negate], ts);
  }

  /** Two operands and an operator that binds no tighter than the left one and looser than the right one. */
  lemma PassTwo(xs: seq<Token>, x: nat, t: Token, ys: seq<Token>, y: nat, s: Scan)
    requires s.depth >= 0 && Passes(xs, x, s) && Passes(ys, y, See(SeeAll(s, xs), t))
    requires TokenLevel(t) < TIGHT && x >= TokenLevel(t) && y > TokenLevel(t)
    ensures Passes(xs + [t] + ys, TokenLevel(t), s)
    ensures s.depth == 0 && s.level >= TokenLevel(t) ==>
              var r := SeeAll(s, xs + [t] + ys); r.best == Some(s.n + |xs|) && r.level == TokenLevel(t)
  {
    SeeLast(xs, t, s);
    SeeAppend(s, xs + [t], ys);
  }

  lemma {:induction false} SeePrinted(e: Expr, s: Scan)
    requires Printable(e) && s.depth >= 0
    ensures Passes(Print(e), Level(e), s)
    decreases e, 1
  {
    if e.Paren? {
      SeePrinted(e.x, See(s, Open));
      PassParen(Print(e.x), Level(e.x), s);
    } else if e.Not? {
      SeePrinted(e.x, See(s, Negate));
      PassNot(Print(e.x), Level(e.x), s);
    } else if e.Binary? {
      SeeTwo(e, Infix(e.op), e.x, e.y, s);
    } else if e.Between? {
      SeeThree(e, s);
    } else {
      SeeOne(s, Leaf(e));
    }
  }

  lemma {:induction false} SeeTwo(e: Expr, t: Token, x: Expr, y: Expr, s: Scan)
    requires x < e && y < e && Printable(x) && Printable(y) && s.depth >= 0
    requires TokenLevel(t) < TIGHT && Level(x) >= TokenLevel(t) && Level(y) > TokenLevel(t)
    ensures Passes(Print(x) + [t] + Print(y), TokenLevel(t), s)
    ensures s.depth == 0 && s.level >= TokenLevel(t) ==>
              var r := SeeAll(s, Print(x) + [t] + Print(y)); r.best == Some(s.n + |Print(x)|) && r.level == TokenLevel(t)
    decreases e, 0, 0
  {
    SeePrinted(x, s);
    SeeDepth(SeeAll(s, Print(x)), t);
    SeePrinted(y, See(SeeAll(s, Print(x)), t));
    PassTwo(Print(x), Level(x), t, Print(y), Level(y), s);
  }

  lemma SeeDepth(s: Scan, t: Token)
    requires TokenLevel(t) < TIGHT
    ensures See(s, t).depth == s.depth
  {
  }

  lemma {:induction false} SeeThree(e: Expr, s: Scan)
    requires e.Between? && Printable(e) && s.depth >= 0
    ensures var first := Print(e.x) + [Within] + Print(e.lo);
            && Passes(first + [Upto] + Print(e.hi), 3, s)
            && (s == START ==> SeeAll(s, first + [Upto] + Print(e.hi)).best == Some(|first|))
    decreases e, 0, 1
  {
    var first := Print(e.x) + [Within] + Print(e.lo);
    SeeTwo(e, Within, e.x, e.lo, s);
    SeeBehind(e, first, e.hi, s);
  }

  lemma {:induction false} SeeBehind(e: Expr, first: seq<Token>, hi: Expr, s: Scan)
    requires hi < e && Printable(hi) && Level(hi) > 3 && s.depth >= 0 && Passes(first, 3, s)
    ensures Passes(first + [Upto] + Print(hi), 3, s)
    ensures s == START ==> SeeAll(s, first + [Upto] + Print(hi)).best == Some(|first|)
    decreases e, 0, 0
  {
    SeeDepth(SeeAll(s, first), Upto);
    SeePrinted(hi, See(SeeAll(s, first), Upto));
    PassTwo(first, 3, Upto, Print(hi), Level(hi), s);
  }

  lemma SeeLast(ts: seq<Token>, t: Token, s: Scan)
    ensures SeeAll(s, ts + [t]) == See(SeeAll(s, ts), t)
  {
    SeeAppend(s, ts, [t]);
    SeeOne(SeeAll(s, ts), t);
  }

  /** A printable tree is what its text reads as. */
  lemma {:induction false} ReadPrinted(e: Expr)
    requires Printable(e)
    ensures Read(Print(e)) == Some(e)
  {
    if e.Paren? {
      ReadPrinted(e.x);
      SeePrinted(e, START);
      assert Print(e)[1..|Print(e)| - 1] == Print(e.x);
    } else if e.Not? {
      ReadPrinted(e.x);
      ReadNegation(e);
    } else if e.Binary? {
      ReadPrinted(e.x);
      ReadPrinted(e.y);
      ReadInfix(e);
    } else if e.Between? {
      ReadPrinted(e.x);
      ReadPrinted(e.lo);
      ReadPrinted(e.hi);
      ReadBetween(e);
    } else {
      SeeOne(START, Leaf(e));
    }
  }

  lemma ReadInfix(e: Expr)
    requires e.Binary? && Printable(e) && Read(Print(e.x)) == Some(e.x) && Read(Print(e.y)) == Some(e.y)
    ensures Read(Print(e)) == Some(e)
  {
    MainOfTwo(e, Infix(e.op), e.x, e.y);
    ReadsInfix(Print(e.x), e.op, Print(e.y));
  }

  lemma MainOfTwo(e: Expr, t: Token, x: Expr, y: Expr)
    requires x < e && y < e && Printable(x) && Printable(y)
    requires TokenLevel(t) < TIGHT && Level(x) >= TokenLevel(t) && Level(y) > TokenLevel(t)
    ensures Main(Print(x) + [t] + Print(y)) == Some(|Print(x)|)
  {
    SeeTwo(e, t, x, y, START);
  }

  lemma ReadsInfix(xs: seq<Token>, op: Op, ys: seq<Token>)
    requires Main(xs + [Infix(op)] + ys) == Some(|xs|) && Read(xs).Some? && Read(ys).Some?
    ensures Read(xs + [Infix(op)] + ys) == Some(Binary(op, Read(xs).value, Read(ys).value))
  {
    var ts, k := xs + [Infix(op)] + ys, |xs|;
    assert ts[k] == Infix(op) && ts[..k] == xs && ts[k + 1..] == ys;
  }

  lemma ReadNegation(e: Expr)
    requires e.Not? && Printable(e) && Read(Print(e.x)) == Some(e.x)
    ensures Read(Print(e)) == Some(e)
  {
    NegationMain(e.x);
    assert Print(e)[1..] == Print(e.x);
  }

  lemma NegationMain(x: Expr)
    requires Printable(x) && Level(x) >= 2
    ensures var ts := Print(Not(x)); Main(ts).Some? && ts[Main(ts).value] == Negate
  {
    var ts := Print(Not(x));
    var s := See(START, Negate);
    SeeOne(START, Negate);
    SeeAppend(START, [Negate], Print(x));
    SeePrinted(x, s);
    SeeBounds(s, Print(x));
    SeeBounds(START, ts);
    BestToken(ts);
  }

  lemma ReadBetween(e: Expr)
    requires e.Between? && Printable(e)
    requires Read(Print(e.x)) == Some(e.x) && Read(Print(e.lo)) == Some(e.lo) && Read(Print(e.hi)) == Some(e.hi)
    ensures Read(Print(e)) == Some(e)
  {
    var xs, los, his := Print(e.x), Print(e.lo), Print(e.hi);
    SeeThree(e, START);
    MainOfTwo(e, Within, e.x, e.lo);
    ReadsBetween(xs, los, his);
  }

  lemma ReadsBetween(xs: seq<Token>, los: seq<Token>, his: seq<Token>)
    requires Main(xs + [Within] + los) == Some(|xs|)
    requires Main(xs + [Within] + los + [Upto] + his) == Some(|xs + [Within] + los|)
    requires Read(xs).Some? && Read(los).Some? && Read(his).Some?
    ensures Read(xs + [Within] + los + [Upto] + his) == Some(Between(Read(xs).value, Read(los).value, Read(his).value))
  {
    var first := xs + [Within] + los;
    var ts, j, k := first + [Upto] + his, |xs|, |first|;
    assert ts[k] == Upto && ts[..k] == first && ts[k + 1..] == his;
    assert first[j] == Within && ts[..j] == xs && ts[j + 1..k] == los;
  }

  // From the text to the tree and back.

  /** When the last operator of its level was found, the scan was outside parentheses and had seen nothing looser. */
  lemma {:induction false} BestToken(ts: seq<Token>)
    ensures var r := SeeAll(START, ts);
            r.best.Some? ==>
              && r.best.value < |ts|
              && r.level == TokenLevel(ts[r.best.value]) < TIGHT
              && SeeAll(START, ts[..r.best.value]).depth == 0
              && r.level <= SeeAll(START, ts[..r.best.value]).level
    decreases |ts|
  {
    if ts != [] {
      var front := ts[..|ts| - 1];
      BestToken(front);
      SeeBounds(START, front);
      var r := SeeAll(START, ts);
      if r.best.Some? && r.best.value < |front| {
        assert front[..r.best.value] == ts[..r.best.value];
      }
    }
  }

  /** Two scans of one text that differ in what they saw before. */
  lemma {:induction false} SeeApart(s: Scan, s': Scan, ts: seq<Token>)
    requires s.depth == s'.depth && s.level <= s'.level <= TIGHT && (s.best.Some? ==> s.best.value < s.n)
    ensures var r, r' := SeeAll(s, ts), SeeAll(s', ts);
            && r.depth == r'.depth && r.level <= r'.level <= TIGHT
            && (r.best == s.best && s.level < s'.level ==> s.level < r'.level)
    decreases |ts|
  {
    if ts != [] {
      SeeApart(s, s', ts[..|ts| - 1]);
      SeeBounds(s, ts[..|ts| - 1]);
    }
  }

  /** What stands before and behind the main operator. */
  lemma MainSplits(ts: seq<Token>)
    requires Main(ts).Some?
    ensures var k, l := Main(ts).value, SeeAll(START, ts).level;
            && l == TokenLevel(ts[k]) < TIGHT
            && l <= SeeAll(START, ts[..k]).level
            && l < SeeAll(START, ts[k + 1..]).level
  {
    var k := Main(ts).value;
    var left, right := ts[..k], ts[k + 1..];
    BestToken(ts);
    assert ts == left + [ts[k]] + right;
    SeeBounds(START, left);
    SeeLast(left, ts[k], START);
    var mid := SeeAll(START, left + [ts[k]]);
    SeeAppend(START, left + [ts[k]], right);
    SeeBounds(START, left + [ts[k]]);
    SeeBounds(mid, right);
    SeeApart(mid, START, right);
  }

  /** The tree of a text: printable, as loose as the text's main operator, and printed as that text. */
  ghost predicate Faithful(ts: seq<Token>) {
    Read(ts).Some? ==>
      var e := Read(ts).value; Print(e) == ts && Printable(e) && Level(e) == SeeAll(START, ts).level
  }

  lemma {:induction false} PrintRead(ts: seq<Token>)
    ensures Faithful(ts)
    decreases |ts|
  {
    if Read(ts).Some? {
      if Main(ts).None? {
        if |ts| > 1 { PrintRead(ts[1..|ts| - 1]); }
        FaithfulTight(ts);
      } else {
        var k := Main(ts).value;
        PrintRead(ts[k + 1..]);
        PrintRead(ts[..k]);
        if ts[k].Negate? {
          PrintRead(ts[1..]);
          FaithfulNegation(ts);
        } else if ts[k].Infix? {
          FaithfulInfix(ts);
        } else {
          var j := Main(ts[..k]).value;
          PrintRead(ts[..j]);
          PrintRead(ts[j + 1..k]);
          FaithfulBetween(ts);
        }
      }
    }
  }

  lemma FaithfulTight(ts: seq<Token>)
    requires Main(ts).None? && (|ts| > 1 ==> Faithful(ts[1..|ts| - 1]))
    ensures Faithful(ts)
  {
    SeeBounds(START, ts);
    if Bracketed(ts) { assert ts == [Open] + ts[1..|ts| - 1] + [Close]; }
  }

  lemma FaithfulInfix(ts: seq<Token>)
    requires Read(ts).Some? && Main(ts).Some? && ts[Main(ts).value].Infix?
    requires Faithful(ts[..Main(ts).value]) && Faithful(ts[Main(ts).value + 1..])
    ensures Faithful(ts)
  {
    var k := Main(ts).value;
    MainSplits(ts);
    assert ts == ts[..k] + [ts[k]] + ts[k + 1..];
  }

  lemma FaithfulNegation(ts: seq<Token>)
    requires Read(ts).Some? && Main(ts).Some? && ts[Main(ts).value].Negate? && Faithful(ts[1..])
    ensures Faithful(ts)
  {
    var rest := ts[1..];
    BestToken(ts);
    assert ts == [Negate] + rest;
    SeeOne(START, Negate);
    SeeAppend(START, [Negate], rest);
    SeeApart(See(START, Negate), START, rest);
  }

  lemma FaithfulBetween(ts: seq<Token>)
    requires Read(ts).Some? && Main(ts).Some? && ts[Main(ts).value].Upto? && Main(ts[..Main(ts).value]).Some?
    requires var k := Main(ts).value; var j := Main(ts[..k]).value;
             Faithful(ts[..j]) && Faithful(ts[j + 1..k]) && Faithful(ts[k + 1..])
    ensures Faithful(ts)
  {
    var k := Main(ts).value;
    var first := ts[..k];
    var j := Main(first).value;
    MainSplits(ts);
    MainSplits(first);
    assert first[..j] == ts[..j] && first[j + 1..] == ts[j + 1..k];
    var x, lo, hi := Read(ts[..j]).value, Read(ts[j + 1..k]).value, Read(ts[k + 1..]).value;
    assert Read(ts).value == Between(x, lo, hi);
    BetweenJoins(ts, x, lo, hi, j, k);
    assert Printable(Between(x, lo, hi));
  }

  lemma BetweenJoins(ts: seq<Token>, x: Expr, lo: Expr, hi: Expr, j: nat, k: nat)
    requires j < k < |ts| && ts[j] == Within && ts[k] == Upto
    requires Print(x) == ts[..j] && Print(lo) == ts[j + 1..k] && Print(hi) == ts[k + 1..]
    ensures Print(Between(x, lo, hi)) == ts
  {
    Joins(ts[..k], j);
    assert ts[..k][..j] == ts[..j] && ts[..k][j + 1..] == ts[j + 1..k];
    Joins(ts, k);
  }

  lemma Joins<T>(ts: seq<T>, k: nat)
    requires k < |ts|
    ensures ts[..k] + [ts[k]] + ts[k + 1..] == ts
  {
  }

  /** A tree can be printed and read again exactly when its operands are tight enough. */
  lemma PrintableIff(e: Expr)
    ensures Printable(e) <==> Read(Print(e)) == Some(e)
  {
    if Printable(e) { ReadPrinted(e); }
    if Read(Print(e)) == Some(e) { PrintRead(Print(e)); }
  }
}
