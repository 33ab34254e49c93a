/**
 Rewriting '?' placeholders to PostgreSQL's $1, $2, ... while leaving quoted text alone. The
 loop looks one character ahead for a doubled quote; the specification is a plain scanner that
 switches sides at every quote character.
 */
module Rebind {
  import opened Decimals

  datatype Quote = Outside | InSingle | InDouble

  function Switched(quote: Quote, c: char): Quote {
    if c == '\'' && quote != InDouble then (if quote == InSingle then Outside else InSingle)
    else if c == '"' && quote != InSingle then (if quote == InDouble then Outside else InDouble)
    else quote
  }

  /** Which side of the quotes the end of a text is on. */
  function QuoteAfter(sql: string): Quote {
    if sql == [] then Outside else Switched(QuoteAfter(sql[..|sql| - 1]), sql[|sql| - 1])
  }

  /** Positions of the question marks outside quotes, in order. */
  function Placeholders(sql: string): (positions: seq<nat>)
    ensures forall i :: 0 <= i < |positions| ==> positions[i] < |sql|
  {
    if sql == [] then []
    else
      var front := sql[..|sql| - 1];
      if sql[|sql| - 1] == '?' && QuoteAfter(front) == Outside
      then Placeholders(front) + [|front|]
      else Placeholders(front)
  }

  /** Ascending positions from `from` on, within a text of length n. */
  predicate Fits(n: nat, from: nat, positions: seq<nat>)
    decreases |positions|
  {
    if positions == [] then from <= n
    else from <= positions[0] < n && Fits(n, positions[0] + 1, positions[1..])
  }

  /** The text from a position on, with the marks k, k+1, ... in place of the given positions. */
  function Substituted(sql: string, mark: nat -> string, from: nat, positions: seq<nat>, k: nat): string
    requires Fits(|sql|, from, positions)
    decreases |positions|
  {
    if positions == [] then sql[from..]
    else Piece(sql, mark, from, positions[0], k) + Substituted(sql, mark, positions[0] + 1, positions[1..], k + 1)
  }

  function Piece(sql: string, mark: nat -> string, from: nat, to: nat, k: nat): string
    requires from <= to <= |sql|
  {
    sql[from..to] + mark(k)
  }

  function Mark(k: nat): string { "$" + Dec(k) }

  lemma SamePiece(sql: string, c: char, mark: nat -> string, from: nat, to: nat, k: nat)
    requires from <= to <= |sql|
    ensures Piece(sql + [c], mark, from, to, k) == Piece(sql, mark, from, to, k)
  {
    assert (sql + [c])[from..to] == sql[from..to];
  }

  lemma Regroup(a: string, b: string, c: string)
    ensures (a + b) + c == a + (b + c)
  {
  }

  lemma {:induction false} FitsLonger(n: nat, from: nat, positions: seq<nat>)
    requires Fits(n, from, positions)
    ensures Fits(n + 1, from, positions) && Fits(n + 1, from, positions + [n])
    decreases |positions|
  {
    if positions == [] {
      assert [n][1..] == [];
    } else {
      FitsLonger(n, positions[0] + 1, positions[1..]);
      assert (positions + [n])[1..] == positions[1..] + [n];
    }
  }

  lemma {:induction false} PlaceholdersAreExact(sql: string, i: nat)
    ensures i in Placeholders(sql) <==> i < |sql| && sql[i] == '?' && QuoteAfter(sql[..i]) == Outside
  {
    if sql != [] {
      var front := sql[..|sql| - 1];
      PlaceholdersAreExact(front, i);
      if i < |front| { assert front[..i] == sql[..i]; }
    }
  }

  lemma {:induction false} PlaceholdersFit(sql: string)
    ensures Fits(|sql|, 0, Placeholders(sql))
  {
    if sql != [] {
      PlaceholdersFit(sql[..|sql| - 1]);
      FitsLonger(|sql| - 1, 0, Placeholders(sql[..|sql| - 1]));
    }
  }

  /** The k-th placeholder becomes $k and every other character stays where it is. */
  function Rebound(sql: string): string {
    PlaceholdersFit(sql);
    Substituted(sql, Mark, 0, Placeholders(sql), 1)
  }

  lemma {:induction false} SubstitutedLonger(sql: string, c: char, mark: nat -> string, from: nat,
      positions: seq<nat>, k: nat)
    requires Fits(|sql|, from, positions) && Fits(|sql + [c]|, from, positions)
    ensures Substituted(sql + [c], mark, from, positions, k) == Substituted(sql, mark, from, positions, k) + [c]
    decreases |positions|
  {
    if positions == [] {
      assert (sql + [c])[from..] == sql[from..] + [c];
    } else {
      SubstitutedLonger(sql, c, mark, positions[0] + 1, positions[1..], k + 1);
      SamePiece(sql, c, mark, from, positions[0], k);
      Regroup(Piece(sql, mark, from, positions[0], k),
              Substituted(sql, mark, positions[0] + 1, positions[1..], k + 1), [c]);
    }
  }

  lemma FirstPiece(sql: string, mark: nat -> string, from: nat, first: nat, rest: seq<nat>, k: nat)
    requires Fits(|sql|, from, [first] + rest)
    ensures from <= first < |sql| && Fits(|sql|, first + 1, rest)
    ensures Substituted(sql, mark, from, [first] + rest, k)
         == Piece(sql, mark, from, first, k) + Substituted(sql, mark, first + 1, rest, k + 1)
  {
    assert ([first] + rest)[1..] == rest;
  }

  lemma LastPiece(sql: string, c: char, mark: nat -> string, from: nat, k: nat)
    requires from <= |sql| && Fits(|sql + [c]|, from, [|sql|])
    ensures Substituted(sql + [c], mark, from, [|sql|], k) == sql[from..] + mark(k)
  {
    SamePiece(sql, c, mark, from, |sql|, k);
    assert sql[from..|sql|] == sql[from..];
    assert [|sql|][1..] == [] && (sql + [c])[|sql| + 1..] == [];
    var piece := Piece(sql, mark, from, |sql|, k);
    assert piece + [] == piece;
  }

  lemma AtEndAfterFirst(sql: string, c: char, mark: nat -> string, from: nat, first: nat, rest: seq<nat>, k: nat,
      end: string)
    requires Fits(|sql|, from, [first] + rest) && Fits(|sql + [c]|, from, [first] + (rest + [|sql|]))
    requires Fits(|sql|, first + 1, rest) && Fits(|sql + [c]|, first + 1, rest + [|sql|])
    requires Substituted(sql + [c], mark, first + 1, rest + [|sql|], k + 1)
          == Substituted(sql, mark, first + 1, rest, k + 1) + end
    ensures Substituted(sql + [c], mark, from, [first] + (rest + [|sql|]), k)
         == Substituted(sql, mark, from, [first] + rest, k) + end
  {
    FirstPiece(sql + [c], mark, from, first, rest + [|sql|], k);
    FirstPiece(sql, mark, from, first, rest, k);
    SamePiece(sql, c, mark, from, first, k);
    Regroup(Piece(sql, mark, from, first, k), Substituted(sql, mark, first + 1, rest, k + 1), end);
  }

  lemma {:induction false} SubstitutedAtEnd(sql: string, c: char, mark: nat -> string, from: nat,
      positions: seq<nat>, k: nat)
    requires Fits(|sql|, from, positions) && Fits(|sql + [c]|, from, positions + [|sql|])
    ensures Substituted(sql + [c], mark, from, positions + [|sql|], k)
         == Substituted(sql, mark, from, positions, k) + mark(k + |positions|)
    decreases |positions|
  {
    if positions == [] {
      assert positions + [|sql|] == [|sql|];
      LastPiece(sql, c, mark, from, k);
    } else {
      var first, rest := positions[0], positions[1..];
      assert positions == [first] + rest && positions + [|sql|] == [first] + (rest + [|sql|]);
      FitsLonger(|sql|, first + 1, rest);
      SubstitutedAtEnd(sql, c, mark, first + 1, rest, k + 1);
      AtEndAfterFirst(sql, c, mark, from, first, rest, k, mark(k + |positions|));
    }
  }

  /** How one more character extends the rewritten text. */
  lemma ReboundStep(sql: string, c: char)
    ensures QuoteAfter(sql + [c]) == Switched(QuoteAfter(sql), c)
    ensures if c == '?' && QuoteAfter(sql) == Outside
            then Rebound(sql + [c]) == Rebound(sql) + Mark(|Placeholders(sql)| + 1)
                 && |Placeholders(sql + [c])| == |Placeholders(sql)| + 1
            else Rebound(sql + [c]) == Rebound(sql) + [c] && Placeholders(sql + [c]) == Placeholders(sql)
  {
    assert (sql + [c])[..|sql|] == sql;
    PlaceholdersFit(sql);
    FitsLonger(|sql|, 0, Placeholders(sql));
    SubstitutedLonger(sql, c, Mark, 0, Placeholders(sql), 1);
    SubstitutedAtEnd(sql, c, Mark, 0, Placeholders(sql), 1);
  }

  /** The first placeholder becomes $1, the next one $2, and so on. */
  lemma PlaceholdersAreNumbered(sql: string, k: nat)
    requires k < |Placeholders(sql)|
    ensures var before := sql[..Placeholders(sql)[k]];
      Rebound(before + ['?']) == Rebound(before) + ("$" + Dec(k + 1))
  {
    var at := Placeholders(sql)[k];
    PlaceholdersOfPrefix(sql, k);
    PlaceholdersAreExact(sql, at);
    NextPlaceholder(sql[..at]);
  }

  lemma NextPlaceholder(before: string)
    requires QuoteAfter(before) == Outside
    ensures Rebound(before + ['?']) == Rebound(before) + ("$" + Dec(|Placeholders(before)| + 1))
  {
    ReboundStep(before, '?');
  }

  lemma FirstPlaceholder()
    ensures Rebound("?") == "$1"
  {
    assert "" + ['?'] == "?" && Placeholders("") == [];
    NextPlaceholder("");
    assert Rebound("") == "" && Dec(1) == "1";
  }

  lemma {:induction false} PlaceholdersOfPrefix(sql: string, k: nat)
    requires k < |Placeholders(sql)|
    ensures |Placeholders(sql[..Placeholders(sql)[k]])| == k
  {
    var front := sql[..|sql| - 1];
    if k < |Placeholders(front)| {
      PlaceholdersOfPrefix(front, k);
      assert front[..Placeholders(front)[k]] == sql[..Placeholders(front)[k]];
    }
  }

  /** What the scanner has written and knows after the first `index` characters. */
  predicate Scanned(sql: string, index: nat, output: string, parameter: nat, quote: Quote) {
    && index <= |sql| && output == Rebound(sql[..index])
    && parameter == |Placeholders(sql[..index])| + 1 && quote == QuoteAfter(sql[..index])
  }

  lemma Scan(sql: string, index: nat, output: string, parameter: nat, quote: Quote)
    requires index < |sql| && Scanned(sql, index, output, parameter, quote)
    ensures var c := sql[index];
      if c == '?' && quote == Outside then Scanned(sql, index + 1, output + Mark(parameter), parameter + 1, quote)
      else Scanned(sql, index + 1, output + [c], parameter, Switched(quote, c))
  {
    ReboundStep(sql[..index], sql[index]);
    assert sql[..index + 1] == sql[..index] + [sql[index]];
  }

  predicate Without(s: string, c: char) { forall i :: 0 <= i < |s| ==> s[i] != c }

  lemma {:induction false} InsideQuotes(before: string, s: string, mark: char)
    requires mark == '\'' || mark == '"'
    requires QuoteAfter(before) == (if mark == '"' then InDouble else InSingle) && Without(s, mark)
    ensures QuoteAfter(before + s) == QuoteAfter(before)
    ensures Rebound(before + s) == Rebound(before) + s && Placeholders(before + s) == Placeholders(before)
  {
    if s == [] {
      assert before + s == before && Rebound(before) + s == Rebound(before);
    } else {
      var front, last := s[..|s| - 1], s[|s| - 1];
      InsideQuotes(before, front, mark);
      ReboundStep(before + front, last);
      assert before + front + [last] == before + s && front + [last] == s;
      assert Rebound(before) + front + [last] == Rebound(before) + s;
    }
  }

  /**
   A literal in single quotes and an identifier in double quotes are kept as they are, question
   marks and quotes of the other kind included, and the text after them is outside again; a doubled
   quote is the end of one literal and the start of the next.
   */
  lemma QuotedTextIsKept(before: string, s: string, mark: char)
    requires mark == '\'' || mark == '"'
    requires QuoteAfter(before) == Outside && Without(s, mark)
    ensures var text := before + [mark] + s + [mark];
      && Rebound(text) == Rebound(before) + [mark] + s + [mark] && QuoteAfter(text) == Outside
      && Placeholders(text) == Placeholders(before)
  {
    var quoting := before + [mark];
    ReboundStep(before, mark);
    InsideQuotes(quoting, s, mark);
    ReboundStep(quoting + s, mark);
  }

  /** Outside the quotes every other character is kept too. */
  lemma PlainTextIsKept(before: string, c: char)
    requires QuoteAfter(before) == Outside && c != '?' && c != '\'' && c != '"'
    ensures Rebound(before + [c]) == Rebound(before) + [c] && QuoteAfter(before + [c]) == Outside
  {
    ReboundStep(before, c);
  }

  function QuoteOf(single: bool, double: bool): Quote {
    if single then InSingle else if double then InDouble else Outside
  }

  method RebindQuestionMarks(sql: string) returns (output: string)
    ensures output == Rebound(sql)
  {
    output := [];
    var parameter: nat := 1;
    var inSingleQuote, inDoubleQuote := false, false;
    var index := 0;
    while index < |sql|
      invariant 0 <= index <= |sql| && !(inSingleQuote && inDoubleQuote)
      invariant Scanned(sql, index, output, parameter, QuoteOf(inSingleQuote, inDoubleQuote))
    {
      var character := sql[index];
      Scan(sql, index, output, parameter, QuoteOf(inSingleQuote, inDoubleQuote));
      if character == '\'' && !inDoubleQuote {
        output := output + [character];
        if inSingleQuote && index + 1 < |sql| && sql[index + 1] == '\'' {
          Scan(sql, index + 1, output, parameter, Outside);
          output := output + [sql[index + 1]];
          index := index + 2;
          continue;
        }
        inSingleQuote := !inSingleQuote;
      } else if character == '"' && !inSingleQuote {
        inDoubleQuote := !inDoubleQuote;
        output := output + [character];
      } else if character == '?' && !inSingleQuote && !inDoubleQuote {
        output := output + Mark(parameter);
        parameter := parameter + 1;
      } else {
        output := output + [character];
      }
      index := index + 1;
    }
    assert sql[..|sql|] == sql;
  }

  /** A statement without placeholders outside quotes is returned unchanged. */
  lemma QuotedOnlyIsUnchanged(sql: string)
    requires forall i :: 0 <= i < |sql| && sql[i] == '?' ==> QuoteAfter(sql[..i]) != Outside
    ensures Rebound(sql) == sql
  {
    if Placeholders(sql) != [] { PlaceholdersAreExact(sql, Placeholders(sql)[0]); }
    PlaceholdersFit(sql);
    assert sql[0..] == sql;
  }
}
