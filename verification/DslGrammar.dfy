/**
  The language of the metrics DSL, said without a parser: a line is a list of clauses,
  and the parser accepts exactly the lines of proper clauses, with the query they spell.
 */
module DslGrammar {
  import opened Common
  import opened Text
  import opened Dsl

  datatype Clause =
    | Per(word: string, span: string)
    | Last(word: string, span: string)
    | By(word: string, what: string)
    | Where(key: string, raw: string)

  function Words(c: Clause): seq<string> {
    match c
    case Per(w, s) => [w, s]
    case Last(w, s) => [w, s]
    case By(w, s) => [w, s]
    case Where(k, v) => [k + "=" + v]
  }

  function Line(cs: seq<Clause>): seq<string> {
    if cs == [] then [] else Words(cs[0]) + Line(cs[1..])
  }

  predicate Proper(c: Clause) {
    match c
    case Per(w, s) => Lower(w) == "per" && ParseDuration(s).Ok?
    case Last(w, s) => Lower(w) == "last" && ParseDuration(s).Ok?
    case By(w, s) => Lower(w) == "by" && Lower(s) == "service"
    case Where(k, v) => IsKey(k) && TrimQuotes(v) != ""
  }

  /** What a clause adds to a query. */
  function Add(d: Query, c: Clause): Query
    requires Proper(c)
  {
    match c
    case Per(_, s) => d.(bucketMs := ParseDuration(s).value)
    case Last(_, s) => d.(windowMs := ParseDuration(s).value)
    case By(_, _) => d.(byService := true)
    case Where(k, v) => d.(filters := d.filters + [Filter(k, TrimQuotes(v))])
  }

  function AddAll(d: Query, cs: seq<Clause>): Query
    requires forall i :: 0 <= i < |cs| ==> Proper(cs[i])
    decreases |cs|
  {
    if cs == [] then d else AddAll(Add(d, cs[0]), cs[1..])
  }

  function Pers(cs: seq<Clause>): nat {
    if cs == [] then 0 else (if cs[0].Per? then 1 else 0) + Pers(cs[1..])
  }

  function Lasts(cs: seq<Clause>): nat {
    if cs == [] then 0 else (if cs[0].Last? then 1 else 0) + Lasts(cs[1..])
  }

  /** The clauses can follow what has been read: no second `per`, no second `last`. */
  predicate Follows(d: Query, cs: seq<Clause>) {
    && (forall i :: 0 <= i < |cs| ==> Proper(cs[i]))
    && Pers(cs) <= (if d.bucketMs == 0 then 1 else 0)
    && Lasts(cs) <= (if d.windowMs == 0 then 1 else 0)
  }

  lemma FollowsNext(d: Query, c: Clause, cs: seq<Clause>)
    requires Proper(c)
    ensures Follows(d, [c] + cs) <==>
              Follows(Add(d, c), cs) && (c.Per? ==> d.bucketMs == 0) && (c.Last? ==> d.windowMs == 0)
  {
    var all := [c] + cs;
    assert all[1..] == cs;
    assert all[0] == c && forall i :: 0 <= i < |cs| ==> all[i + 1] == cs[i];
    if c.Per? || c.Last? { DurationMeaning(c.span); }
  }

  /** One proper clause, read off the front. */
  lemma ReadsClause(tokens: seq<string>, i: nat, d: Query, c: Clause)
    requires Proper(c) && i + |Words(c)| <= |tokens| && tokens[i..i + |Words(c)|] == Words(c)
    requires (c.Per? ==> d.bucketMs == 0) && (c.Last? ==> d.windowMs == 0)
    ensures ParseClauses(tokens, i, d) == ParseClauses(tokens, i + |Words(c)|, Add(d, c))
  {
    assert tokens[i] == Words(c)[0];
    if c.Where? {
      KeyIsNoWord(c.key, c.raw);
    } else {
      assert tokens[i + 1] == Words(c)[1];
    }
  }

  lemma KeyIsNoWord(key: string, raw: string)
    requires IsKey(key)
    ensures Cut(key + "=" + raw, '=') == Some((key, raw))
    ensures var s := key + "=" + raw; Lower(s) != "per" && Lower(s) != "last" && Lower(s) != "by"
  {
    CutAt(key, '=', raw);
    var s := key + "=" + raw;
    assert s[|key|] == '=' && Lower(s)[|key|] == '=';
  }

  lemma {:induction false} ReadsLine(tokens: seq<string>, i: nat, d: Query, cs: seq<Clause>)
    requires i <= |tokens| && tokens[i..] == Line(cs) && Follows(d, cs)
    ensures ParseClauses(tokens, i, d) == Ok(AddAll(d, cs))
    decreases |cs|
  {
    if cs != [] {
      var c, n := cs[0], |Words(cs[0])|;
      assert cs == [c] + cs[1..];
      FollowsNext(d, c, cs[1..]);
      assert tokens[i..i + n] == Words(c) && tokens[i + n..] == Line(cs[1..]);
      ReadsClause(tokens, i, d, c);
      ReadsLine(tokens, i + n, Add(d, c), cs[1..]);
    }
  }

  /** The clause at the front of an accepted line. */
  lemma FrontClause(tokens: seq<string>, i: nat, d: Query) returns (c: Clause)
    requires i < |tokens| && ParseClauses(tokens, i, d).Ok?
    ensures Proper(c) && i + |Words(c)| <= |tokens| && tokens[i..i + |Words(c)|] == Words(c)
    ensures (c.Per? ==> d.bucketMs == 0) && (c.Last? ==> d.windowMs == 0)
  {
    var tok := tokens[i];
    if Lower(tok) == "per" {
      c := Per(tok, tokens[i + 1]);
    } else if Lower(tok) == "last" {
      c := Last(tok, tokens[i + 1]);
    } else if Lower(tok) == "by" {
      c := By(tok, tokens[i + 1]);
    } else {
      var kv := Cut(tok, '=').value;
      CutJoins(tok);
      c := Where(kv.0, kv.1);
    }
  }

  lemma {:induction false} CutJoins(s: string)
    ensures Cut(s, '=').Some? ==> s == Cut(s, '=').value.0 + "=" + Cut(s, '=').value.1
  {
    if s != [] && s[0] != '=' { CutJoins(s[1..]); }
  }

  lemma {:induction false} LineOf(tokens: seq<string>, i: nat, d: Query) returns (cs: seq<Clause>)
    requires i <= |tokens| && ParseClauses(tokens, i, d).Ok?
    ensures tokens[i..] == Line(cs) && Follows(d, cs) && ParseClauses(tokens, i, d).value == AddAll(d, cs)
    decreases |tokens| - i
  {
    if i == |tokens| {
      cs := [];
    } else {
      var c := FrontClause(tokens, i, d);
      ReadsClause(tokens, i, d, c);
      var rest := LineOf(tokens, i + |Words(c)|, Add(d, c));
      cs := [c] + rest;
      assert cs[1..] == rest;
      FollowsNext(d, c, rest);
      assert tokens[i..] == tokens[i..i + |Words(c)|] + tokens[i + |Words(c)|..];
    }
  }

  /** The verbs, in any case. */
  predicate IsVerb(verb: string) {
    var v := Lower(verb);
    v == "increase" || v == "rate" || v == "avg" || v == "min" || v == "max" || v == "sum" || v == "count" || v == "latest"
  }

  /** The clauses make a line: all proper, one `per` and one `last` at most, and no `per` with latest. */
  predicate Lawful(verb: string, cs: seq<Clause>) {
    && IsVerb(verb)
    && (forall i :: 0 <= i < |cs| ==> Proper(cs[i]))
    && Pers(cs) <= 1 && Lasts(cs) <= 1 && (Lower(verb) == "latest" ==> Pers(cs) == 0)
  }

  function Spelled(verb: string, metric: string, cs: seq<Clause>): Query
    requires Lawful(verb, cs)
  {
    var d := AddAll(Query(Lower(verb), metric, [], 0, 0, false, 0, 0), cs);
    if Lasts(cs) == 0 then d.(windowMs := 86_400_000) else d
  }

  lemma {:induction false} Spans(d: Query, cs: seq<Clause>)
    requires Follows(d, cs) && d.bucketMs >= 0 && d.windowMs >= 0
    ensures var q := AddAll(d, cs);
            && (q.bucketMs == 0 <==> d.bucketMs == 0 && Pers(cs) == 0)
            && (q.windowMs == 0 <==> d.windowMs == 0 && Lasts(cs) == 0)
            && q.verb == d.verb
    decreases |cs|
  {
    if cs != [] {
      assert cs == [cs[0]] + cs[1..];
      FollowsNext(d, cs[0], cs[1..]);
      if cs[0].Per? || cs[0].Last? { DurationMeaning(cs[0].span); }
      Spans(Add(d, cs[0]), cs[1..]);
    }
  }

  /** A line of lawful clauses is accepted, with the query they spell. */
  lemma LawfulParses(verb: string, metric: string, cs: seq<Clause>)
    requires Lawful(verb, cs)
    ensures Parsed(verb, metric, Line(cs)) == Ok(Spelled(verb, metric, cs))
  {
    var d := Start(Lower(verb), metric);
    ReadsLine(Line(cs), 0, d, cs);
    Spans(d, cs);
  }

  /** And nothing else is accepted: every accepted line is one of lawful clauses. */
  lemma ParsedIsLawful(verb: string, metric: string, tokens: seq<string>) returns (cs: seq<Clause>)
    requires Parsed(verb, metric, tokens).Ok?
    ensures Lawful(verb, cs) && tokens == Line(cs) && Parsed(verb, metric, tokens).value == Spelled(verb, metric, cs)
  {
    var d := Start(Lower(verb), metric);
    cs := LineOf(tokens, 0, d);
    Spans(d, cs);
    assert tokens[0..] == tokens;
    LawfulParses(verb, metric, cs);
  }

  // Keys and quotes.

  const CAPITALS := "ABCDEFGHIJKLMNOPQRSTUVWXYZ"
  const SMALL := "abcdefghijklmnopqrstuvwxyz"

  lemma CapitalsAre(c: char)
    ensures 'A' <= c <= 'Z' <==> c in CAPITALS
  {
    if 'A' <= c <= 'Z' { assert CAPITALS[c as int - 65] == c; }
  }

  lemma SmallAre(c: char)
    ensures 'a' <= c <= 'z' <==> c in SMALL
  {
    if 'a' <= c <= 'z' { assert SMALL[c as int - 97] == c; }
  }

  lemma LettersAre(c: char)
    ensures IsLetter(c) <==> c in CAPITALS || c in SMALL
  {
    CapitalsAre(c);
    SmallAre(c);
  }

  /** A key is letters, digits, underscores and dots, and starts with a letter or an underscore. */
  lemma KeysAre(s: string)
    ensures IsKey(s) <==>
              && s != [] && (s[0] in CAPITALS || s[0] in SMALL || s[0] == '_')
              && forall i :: 1 <= i < |s| ==>
                   s[i] in CAPITALS || s[i] in SMALL || s[i] in "0123456789" || s[i] == '_' || s[i] == '.'
  {
    forall i | 0 <= i < |s| ensures IsLetter(s[i]) <==> s[i] in CAPITALS || s[i] in SMALL { LettersAre(s[i]); }
    forall i | 0 <= i < |s| ensures IsDigit(s[i]) <==> s[i] in "0123456789" { DigitsAre(s[i]); }
  }

  lemma DigitsAre(c: char)
    ensures IsDigit(c) <==> c in "0123456789"
  {
    if IsDigit(c) { assert "0123456789"[c as int - 48] == c; }
  }

  predicate AllQuotes(s: string) {
    forall i :: 0 <= i < |s| ==> s[i] == '\'' || s[i] == '"'
  }

  /** Trimming takes quotes, of either kind, off both ends, all of them and nothing else. */
  lemma {:induction false} TrimTakesQuotes(s: string) returns (pre: string, post: string)
    ensures s == pre + TrimQuotes(s) + post && AllQuotes(pre) && AllQuotes(post)
    ensures var t := TrimQuotes(s);
            t != [] ==> t[0] != '\'' && t[0] != '"' && t[|t| - 1] != '\'' && t[|t| - 1] != '"'
    decreases |s|
  {
    TrimmedEnds(s);
    pre, post := Trimmings(s);
  }

  lemma {:induction false} Trimmings(s: string) returns (pre: string, post: string)
    ensures s == pre + TrimQuotes(s) + post && AllQuotes(pre) && AllQuotes(post)
    decreases |s|
  {
    pre, post := [], [];
    if s != [] && IsQuote(s[0]) {
      pre, post := Trimmings(s[1..]);
      QuoteInFront(s, pre, TrimQuotes(s), post);
      pre := [s[0]] + pre;
    } else if s != [] && IsQuote(s[|s| - 1]) {
      pre, post := Trimmings(s[..|s| - 1]);
      QuoteBehind(s, pre, TrimQuotes(s), post);
      post := post + [s[|s| - 1]];
    }
  }

  lemma QuoteInFront(s: string, a: string, b: string, c: string)
    requires s != [] && s[1..] == a + b + c && IsQuote(s[0]) && AllQuotes(a)
    ensures s == [s[0]] + a + b + c && AllQuotes([s[0]] + a)
  {
    assert s == [s[0]] + s[1..];
  }

  lemma QuoteBehind(s: string, a: string, b: string, c: string)
    requires s != [] && s[..|s| - 1] == a + b + c && IsQuote(s[|s| - 1]) && AllQuotes(c)
    ensures s == a + b + (c + [s[|s| - 1]]) && AllQuotes(c + [s[|s| - 1]])
  {
    assert s == s[..|s| - 1] + [s[|s| - 1]];
  }
}
