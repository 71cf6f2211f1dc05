/** How the shell splits a command line into words, operators, redirections and quoted arguments. */
module Tokenizer {
  predicate IsSpace(c: char) {
    c in " \t\n\r" || c == 11 as char || c == 12 as char
  }

  predicate IsRedirect(c: char) {
    c == '<' || c == '>' || c == ';'
  }

  predicate IsOperator(c: char) {
    c == '&' || c == '|'
  }

  predicate IsQuote(c: char) {
    c == '\'' || c == '\"'
  }

  predicate IsPlain(c: char) {
    !IsSpace(c) && !IsRedirect(c) && !IsOperator(c) && !IsQuote(c)
  }

  /** The tokens so far and the three buffers of the splitting loop. */
  datatype Lexer = Lexer(tokens: seq<string>, cmd: string, operator: string, quoted: string)

  function Collect(tokens: seq<string>, buffer: string): seq<string> {
    if buffer == "" then tokens else tokens + [buffer]
  }

  /** Command and operator buffers emptied into the tokens. */
  function Flush(x: Lexer): Lexer {
    Lexer(Collect(Collect(x.tokens, x.cmd), x.operator), "", "", x.quoted)
  }

  function Step(x: Lexer, c: char): Lexer {
    if x.quoted != "" then
      if c == x.quoted[0] then x.(tokens := Collect(x.tokens, x.quoted + [c]), quoted := "")
      else x.(quoted := x.quoted + [c])
    else if IsSpace(c) then Flush(x)
    else if IsRedirect(c) then Flush(x).(tokens := Flush(x).tokens + [[c]])
    else if IsOperator(c) then x.(tokens := Collect(x.tokens, x.cmd), cmd := "", operator := x.operator + [c])
    else if IsQuote(c) then Flush(x).(quoted := [c])
    else x.(tokens := Collect(x.tokens, x.operator), operator := "", cmd := x.cmd + [c])
  }

  function Steps(x: Lexer, line: string): Lexer
    decreases |line|
  {
    if line == "" then x else Steps(Step(x, line[0]), line[1..])
  }

  const Start := Lexer([], "", "", "")

  function Tokens(line: string): seq<string> {
    Flush(Steps(Start, line)).tokens
  }

  lemma {:induction false} StepsConcat(x: Lexer, s: string, t: string)
    ensures Steps(x, s + t) == Steps(Steps(x, s), t)
    decreases |s|
  {
    if s == "" {
      assert s + t == t;
    } else {
      assert (s + t)[1..] == s[1..] + t;
      StepsConcat(Step(x, s[0]), s[1..], t);
    }
  }

  // What the buffers hold.

  predicate Word(t: string) {
    t != "" && forall c :: c in t ==> IsPlain(c)
  }

  predicate Operators(t: string) {
    t != "" && forall c :: c in t ==> IsOperator(c)
  }

  /** An opening quote with no second one of its kind after it. */
  predicate Unclosed(t: string) {
    t != "" && IsQuote(t[0]) && forall i :: 0 < i < |t| ==> t[i] != t[0]
  }

  predicate Quotation(t: string) {
    |t| >= 2 && IsQuote(t[0]) && t[|t| - 1] == t[0] && forall i :: 0 < i < |t| - 1 ==> t[i] != t[0]
  }

  /** What one token can look like. */
  predicate IsToken(t: string) {
    Word(t) || Operators(t) || (|t| == 1 && IsRedirect(t[0])) || Quotation(t)
  }

  predicate AllTokens(ts: seq<string>) {
    forall i :: 0 <= i < |ts| ==> IsToken(ts[i])
  }

  /** At most one buffer is in use, and each holds only what belongs in it. */
  predicate LexerOk(x: Lexer) {
    && AllTokens(x.tokens)
    && (x.cmd == "" || (Word(x.cmd) && x.operator == "" && x.quoted == ""))
    && (x.operator == "" || (Operators(x.operator) && x.quoted == ""))
    && (x.quoted == "" || Unclosed(x.quoted))
  }

  lemma StepOk(x: Lexer, c: char)
    requires LexerOk(x)
    ensures LexerOk(Step(x, c))
  {
  }

  /** After any part of any line, at most one of the three buffers is non-empty. */
  lemma {:induction false} OneBuffer(x: Lexer, line: string)
    requires LexerOk(x)
    ensures LexerOk(Steps(x, line))
    decreases |line|
  {
    if line != "" {
      StepOk(x, line[0]);
      OneBuffer(Step(x, line[0]), line[1..]);
    }
  }

  lemma TokensAreTokens(line: string)
    ensures AllTokens(Tokens(line))
  {
    OneBuffer(Start, line);
  }

  // Splitting loses only blanks and an unclosed quotation.

  function Concat(ts: seq<string>): string {
    if ts == [] then "" else Concat(ts[..|ts| - 1]) + ts[|ts| - 1]
  }

  /** How far the quotation at the front of `s` reaches, or the end of `s` and one more. */
  function Close(s: string, quote: char, i: nat): (k: nat)
    requires i <= |s|
    ensures i < k <= |s| + 1
    ensures forall j :: i <= j < k - 1 ==> s[j] != quote
    ensures k <= |s| ==> s[k - 1] == quote
    decreases |s| - i
  {
    if i == |s| then |s| + 1
    else if s[i] == quote then i + 1
    else Close(s, quote, i + 1)
  }

  /** A line without its unquoted blanks and without an unclosed quotation at its end. */
  function Kept(s: string): string
    decreases |s|
  {
    if s == "" then ""
    else if IsQuote(s[0]) then
      var k := Close(s, s[0], 1);
      if k > |s| then "" else s[..k] + Kept(s[k..])
    else if IsSpace(s[0]) then Kept(s[1..])
    else [s[0]] + Kept(s[1..])
  }

  lemma {:induction false} StepsUnclosed(x: Lexer, s: string)
    requires x.quoted != "" && forall i :: 0 <= i < |s| ==> s[i] != x.quoted[0]
    ensures Steps(x, s) == x.(quoted := x.quoted + s)
    decreases |s|
  {
    if s == "" {
      assert x.quoted + s == x.quoted;
    } else {
      StepsUnclosed(x.(quoted := x.quoted + [s[0]]), s[1..]);
      assert x.quoted + [s[0]] + s[1..] == x.quoted + s;
    }
  }

  /** Reading a whole quotation from its opening quote makes it a token. */
  lemma StepsQuotation(x: Lexer, t: string)
    requires x.quoted == "" && Quotation(t)
    ensures Steps(x, t) == Quoting(x, t)
  {
    var n := |t| - 1;
    var open := Flush(x).(quoted := [t[0]]);
    var inner := t[1..n];
    assert t == [t[0]] + (inner + [t[n]]);
    assert t[1..] == inner + [t[n]];
    StepsConcat(open, inner, [t[n]]);
    StepsUnclosed(open, inner);
    assert [t[0]] + inner + [t[n]] == t;
    assert Steps(Steps(open, inner), [t[n]]) == Step(Steps(open, inner), t[n]);
  }

  lemma CollectConcat(ts: seq<string>, t: string)
    ensures Concat(Collect(ts, t)) == Concat(ts) + t
  {
    if t == "" {
      assert Concat(ts) + t == Concat(ts);
    } else {
      assert (ts + [t])[..|ts|] == ts;
    }
  }

  /** What has been read and not dropped, if the buffers were emptied now. */
  function Held(x: Lexer): string {
    Concat(Flush(x).tokens)
  }

  lemma HeldIs(x: Lexer)
    ensures Held(x) == Concat(x.tokens) + x.cmd + x.operator
  {
    CollectConcat(x.tokens, x.cmd);
    CollectConcat(Collect(x.tokens, x.cmd), x.operator);
  }

  predicate Single(x: Lexer) {
    (x.cmd == "" || x.operator == "") && x.quoted == ""
  }

  lemma StepHolds(x: Lexer, c: char)
    requires Single(x) && !IsQuote(c)
    ensures Single(Step(x, c))
    ensures Held(Step(x, c)) == if IsSpace(c) then Held(x) else Held(x) + [c]
  {
    if IsSpace(c) {
    } else if IsRedirect(c) {
      CollectConcat(Flush(x).tokens, [c]);
    } else {
      HeldIs(x);
      HeldIs(Step(x, c));
      CollectConcat(x.tokens, if IsOperator(c) then x.cmd else x.operator);
      Glue(Concat(x.tokens), x.cmd, x.operator, c);
    }
  }

  lemma Glue(ts: string, cmd: string, op: string, c: char)
    ensures ts + cmd + "" + (op + [c]) == ts + cmd + op + [c]
    ensures ts + op + (cmd + [c]) + "" == ts + op + cmd + [c]
    ensures op == "" ==> ts + op + cmd == ts + cmd + op
    ensures cmd == "" ==> ts + op + cmd == ts + cmd + op
  {
  }

  lemma Regroup(a: string, b: string, c: string)
    ensures (a + b) + c == a + (b + c)
  {
  }

  lemma {:induction false} StepsHold(x: Lexer, s: string)
    requires Single(x)
    ensures Held(Steps(x, s)) == Held(x) + Kept(s)
    decreases |s|, 1
  {
    if s == "" {
      assert Held(x) + "" == Held(x);
    } else if IsQuote(s[0]) {
      StepsHoldQuote(x, s);
    } else {
      StepHolds(x, s[0]);
      StepsHold(Step(x, s[0]), s[1..]);
      Regroup(Held(x), [s[0]], Kept(s[1..]));
    }
  }

  lemma {:induction false} StepsHoldQuote(x: Lexer, s: string)
    requires Single(x) && s != "" && IsQuote(s[0])
    ensures Held(Steps(x, s)) == Held(x) + Kept(s)
    decreases |s|, 0
  {
    var k := Close(s, s[0], 1);
    if k <= |s| {
      var t, rest := s[..k], s[k..];
      assert s == t + rest;
      assert Kept(s) == t + Kept(rest);
      Closed(s);
      StepsClosed(x, t, rest);
      StepsHold(Quoting(x, t), rest);
      assert Held(x) + t + Kept(rest) == Held(x) + (t + Kept(rest));
    } else {
      StepsOpen(x, s);
    }
  }

  /** Buffers emptied, then a quotation. */
  function Quoting(x: Lexer, t: string): Lexer {
    Flush(x).(tokens := Flush(x).tokens + [t])
  }

  lemma Closed(s: string)
    requires s != "" && IsQuote(s[0]) && Close(s, s[0], 1) <= |s|
    ensures Quotation(s[..Close(s, s[0], 1)])
  {
  }

  lemma StepsClosed(x: Lexer, t: string, rest: string)
    requires Single(x) && Quotation(t)
    ensures Steps(x, t + rest) == Steps(Quoting(x, t), rest)
    ensures Held(Quoting(x, t)) == Held(x) + t
  {
    CollectConcat(Flush(x).tokens, t);
    StepsConcat(x, t, rest);
    StepsQuotation(x, t);
  }

  lemma StepsOpen(x: Lexer, s: string)
    requires x.quoted == "" && s != "" && IsQuote(s[0]) && Close(s, s[0], 1) > |s|
    ensures Held(Steps(x, s)) == Held(x)
  {
    StepsUnclosed(Flush(x).(quoted := [s[0]]), s[1..]);
    assert [s[0]] + s[1..] == s;
  }

  /** The tokens, put together, are the line less its unquoted blanks and an unclosed quotation. */
  lemma TextKept(line: string)
    ensures Concat(Tokens(line)) == Kept(line)
  {
    StepsHold(Start, line);
  }

  // Splitting a line written from tokens.

  function Join(ts: seq<string>): string {
    if ts == [] then "" else if |ts| == 1 then ts[0] else Join(ts[..|ts| - 1]) + " " + ts[|ts| - 1]
  }

  lemma {:induction false} StepsWord(x: Lexer, t: string)
    requires x.operator == "" && x.quoted == "" && forall c :: c in t ==> IsPlain(c)
    ensures Steps(x, t) == x.(cmd := x.cmd + t)
    decreases |t|
  {
    if t == "" {
      assert x.cmd + t == x.cmd;
    } else {
      assert t[0] in t && Step(x, t[0]) == x.(cmd := x.cmd + [t[0]]);
      StepsWord(x.(cmd := x.cmd + [t[0]]), t[1..]);
      assert x.cmd + [t[0]] + t[1..] == x.cmd + t;
    }
  }

  lemma {:induction false} StepsOperators(x: Lexer, t: string)
    requires x.cmd == "" && x.quoted == "" && forall c :: c in t ==> IsOperator(c)
    ensures Steps(x, t) == x.(operator := x.operator + t)
    decreases |t|
  {
    if t == "" {
      assert x.operator + t == x.operator;
    } else {
      assert t[0] in t && Step(x, t[0]) == x.(operator := x.operator + [t[0]]);
      StepsOperators(x.(operator := x.operator + [t[0]]), t[1..]);
      assert x.operator + [t[0]] + t[1..] == x.operator + t;
    }
  }

  lemma StepsToken(ts: seq<string>, t: string)
    requires IsToken(t)
    ensures Flush(Steps(Lexer(ts, "", "", ""), t)) == Lexer(ts + [t], "", "", "")
    ensures Steps(Lexer(ts, "", "", ""), t).quoted == ""
  {
    var x := Lexer(ts, "", "", "");
    assert "" + t == t;
    if Word(t) {
      StepsWord(x, t);
    } else if Operators(t) {
      StepsOperators(x, t);
    } else if Quotation(t) {
      StepsQuotation(x, t);
    } else {
      assert t[1..] == "" && t == [t[0]];
    }
  }

  lemma {:induction false} StepsJoin(ts: seq<string>)
    requires AllTokens(ts)
    ensures Flush(Steps(Start, Join(ts))) == Lexer(ts, "", "", "")
    ensures Steps(Start, Join(ts)).quoted == ""
    decreases |ts|
  {
    if |ts| == 1 {
      assert ts == [] + [ts[0]];
      StepsToken([], ts[0]);
    } else if |ts| > 1 {
      var n := |ts| - 1;
      assert ts == ts[..n] + [ts[n]];
      StepsJoin(ts[..n]);
      StepsConcat(Start, Join(ts[..n]), " ");
      StepsConcat(Start, Join(ts[..n]) + " ", ts[n]);
      var x := Steps(Start, Join(ts[..n]));
      assert Steps(x, " ") == Step(x, ' ');
      StepsToken(ts[..n], ts[n]);
    }
  }

  /** Any list of well-formed tokens, written with single spaces, is split into itself. */
  lemma JoinSplits(ts: seq<string>)
    requires AllTokens(ts)
    ensures Tokens(Join(ts)) == ts
  {
    StepsJoin(ts);
  }

  /** Splitting again the tokens of a line, joined by spaces, changes nothing. */
  lemma Stable(line: string)
    ensures Tokens(Join(Tokens(line))) == Tokens(line)
  {
    TokensAreTokens(line);
    JoinSplits(Tokens(line));
  }

  // Which characters do what.

  /** No blank, no quote and no character that operators or redirections are made of. */
  predicate Letters(t: string) {
    t != "" && forall i :: 0 <= i < |t| ==>
      && t[i] != ' ' && t[i] != '\t' && t[i] != '\n' && t[i] != '\r' && t[i] != 11 as char && t[i] != 12 as char
      && t[i] != '<' && t[i] != '>' && t[i] != ';' && t[i] != '&' && t[i] != '|' && t[i] != '\'' && t[i] != '\"'
  }

  lemma StartsWord(u: string)
    requires Letters(u)
    ensures Steps(Start, u) == Lexer([], u, "", "")
  {
    StepsWord(Start, u);
    assert "" + u == u;
  }

  lemma EndsWord(ts: seq<string>, operator: string, v: string)
    requires Letters(v)
    ensures Flush(Steps(Lexer(ts, "", operator, ""), v)).tokens == Collect(ts, operator) + [v]
  {
    var x := Lexer(Collect(ts, operator), [v[0]], "", "");
    assert Step(Lexer(ts, "", operator, ""), v[0]) == x;
    StepsWord(x, v[1..]);
    assert [v[0]] + v[1..] == v;
  }

  lemma BetweenWords(u: string, t: string, v: string, ts: seq<string>, operator: string)
    requires Letters(u) && Letters(v) && Steps(Lexer([], u, "", ""), t) == Lexer(ts, "", operator, "")
    ensures Tokens(u + t + v) == Collect(ts, operator) + [v]
  {
    assert u + t + v == u + (t + v);
    StartsWord(u);
    StepsConcat(Start, u, t + v);
    StepsConcat(Lexer([], u, "", ""), t, v);
    EndsWord(ts, operator, v);
  }

  /** Two words are told apart by any blank, and by an operator or a redirection without one. */
  lemma WordsApart(u: string, c: char, v: string)
    requires Letters(u) && Letters(v)
    ensures c == ' ' || c == '\t' || c == '\n' || c == '\r' || c == 11 as char || c == 12 as char ==>
              Tokens(u + [c] + v) == [u, v]
    ensures c == '<' || c == '>' || c == ';' ==> Tokens(u + [c] + v) == [u, [c], v]
    ensures c == '&' || c == '|' ==> Tokens(u + [c] + v) == [u, [c], v] && Tokens(u + [c, c] + v) == [u, [c, c], v]
  {
    if c == '&' || c == '|' {
      OperatorApart(u, c, v);
    } else if c == '<' || c == '>' || c == ';' {
      OneChar(Lexer([], u, "", ""), c);
      BetweenWords(u, [c], v, [u, [c]], "");
    } else if IsSpace(c) {
      OneChar(Lexer([], u, "", ""), c);
      BetweenWords(u, [c], v, [u], "");
    }
  }

  lemma OneChar(x: Lexer, c: char)
    ensures Steps(x, [c]) == Step(x, c)
  {
    assert [c][1..] == "";
  }

  lemma OperatorApart(u: string, c: char, v: string)
    requires Letters(u) && Letters(v) && (c == '&' || c == '|')
    ensures Tokens(u + [c] + v) == [u, [c], v] && Tokens(u + [c, c] + v) == [u, [c, c], v]
  {
    TwoOperators(u, c);
    BetweenWords(u, [c], v, [u], [c]);
    BetweenWords(u, [c, c], v, [u], [c, c]);
    assert [u] + [[c]] + [v] == [u, [c], v] && [u] + [[c, c]] + [v] == [u, [c, c], v];
  }

  lemma TwoOperators(u: string, c: char)
    requires u != "" && IsOperator(c)
    ensures Steps(Lexer([], u, "", ""), [c]) == Lexer([u], "", [c], "")
    ensures Steps(Lexer([], u, "", ""), [c, c]) == Lexer([u], "", [c, c], "")
  {
    var x, y, z := Lexer([], u, "", ""), Lexer([u], "", [c], ""), Lexer([u], "", [c, c], "");
    assert Step(x, c) == y by {
      assert "" + [c] == [c] && [] + [u] == [u];
    }
    assert Step(y, c) == z by {
      assert [c] + [c] == [c, c];
    }
    OneChar(x, c);
    OneChar(y, c);
    assert [c] + [c] == [c, c];
    StepsConcat(x, [c], [c]);
  }

  /** Between quotes everything is kept, the quotes too, and the words on both sides stand apart. */
  lemma QuotesHold(u: string, q: char, s: string, v: string)
    requires Letters(u) && Letters(v) && (q == '\'' || q == '\"') && q !in s
    ensures Tokens(u + ([q] + s + [q]) + v) == [u, [q] + s + [q], v]
  {
    var t := [q] + s + [q];
    assert forall i :: 0 < i < |t| - 1 ==> t[i] == s[i - 1];
    assert Quotation(t);
    StepsQuotation(Lexer([], u, "", ""), t);
    BetweenWords(u, t, v, [u, t], "");
  }

  /** A quotation that is not closed is lost. */
  lemma QuoteLost(u: string, q: char, s: string)
    requires Letters(u) && (q == '\'' || q == '\"') && q !in s
    ensures Tokens(u + ([q] + s)) == [u]
  {
    var x := Lexer([u], "", "", [q]);
    StartsWord(u);
    StepsConcat(Start, u, [q] + s);
    assert ([q] + s)[1..] == s && Step(Lexer([], u, "", ""), q) == x;
    StepsUnclosed(x, s);
  }

  // The code.

  class CmdInterpreter {
    var tokens: seq<string>

    constructor ()
      ensures tokens == []
    {
      tokens := [];
    }

    method CollectTokenFromBuffer(buffer: string) returns (rest: string)
      modifies this
      ensures tokens == Collect(old(tokens), buffer) && rest == ""
    {
      rest := buffer;
      if |rest| > 0 {
        tokens := tokens + [rest];
        rest := "";
      }
    }

    /** Splits a line; whatever was split before is forgotten. */
    method TokenizeLine(cmdLine: string) returns (result: seq<string>)
      modifies this
      ensures result == tokens == Tokens(cmdLine)
      ensures Concat(result) == Kept(cmdLine) && AllTokens(result)
    {
      tokens := [];
      var cmdBuffer, operatorBuffer, quotedArgBuffer := "", "", "";
      for i := 0 to |cmdLine|
        invariant Steps(Start, cmdLine)
          == Steps(Lexer(tokens, cmdBuffer, operatorBuffer, quotedArgBuffer), cmdLine[i..])
      {
        var chr := cmdLine[i];
        assert "" + [chr] == [chr];
        ghost var before := Lexer(tokens, cmdBuffer, operatorBuffer, quotedArgBuffer);
        if |quotedArgBuffer| > 0 {
          quotedArgBuffer := quotedArgBuffer + [chr];
          if chr == quotedArgBuffer[0] {
            quotedArgBuffer := CollectTokenFromBuffer(quotedArgBuffer);
          }
        } else if IsSpace(chr) {
          cmdBuffer := CollectTokenFromBuffer(cmdBuffer);
          operatorBuffer := CollectTokenFromBuffer(operatorBuffer);
        } else if chr == '<' || chr == '>' || chr == ';' {
          cmdBuffer := CollectTokenFromBuffer(cmdBuffer);
          operatorBuffer := CollectTokenFromBuffer(operatorBuffer);
          tokens := tokens + ["" + [chr]];
        } else if chr == '&' || chr == '|' {
          cmdBuffer := CollectTokenFromBuffer(cmdBuffer);
          operatorBuffer := operatorBuffer + [chr];
        } else if chr == '\'' || chr == '\"' {
          cmdBuffer := CollectTokenFromBuffer(cmdBuffer);
          operatorBuffer := CollectTokenFromBuffer(operatorBuffer);
          quotedArgBuffer := quotedArgBuffer + [chr];
        } else {
          operatorBuffer := CollectTokenFromBuffer(operatorBuffer);
          cmdBuffer := cmdBuffer + [chr];
        }
        assert Lexer(tokens, cmdBuffer, operatorBuffer, quotedArgBuffer) == Step(before, chr);
      }
      cmdBuffer := CollectTokenFromBuffer(cmdBuffer);
      operatorBuffer := CollectTokenFromBuffer(operatorBuffer);
      TextKept(cmdLine);
      TokensAreTokens(cmdLine);
      return tokens;
    }
  }
}
