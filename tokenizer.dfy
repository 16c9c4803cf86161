/**
 * The argument tokenizer shared by every debugger command (split_args in
 * comon/ext.cpp). It walks the argument text once, remembering only whether it is
 * inside a quotation and which quote character opened it, and splits on unquoted
 * whitespace and commas. Quote delimiters are dropped and empty tokens are never
 * emitted.
 */
module Tokenizer {
  import opened Common

  /** A separator outside quotes: whitespace or a comma. */
  predicate IsSeparator(c: char)
  {
    IsSpace(c) || c == ','
  }

  /** A character that opens a quotation when met outside one. */
  predicate IsQuote(c: char)
  {
    c == '"' || c == '\''
  }

  /** The only control state of the tokenizer: outside quotes, or inside quotes opened by `delim`. */
  datatype Quote = Unquoted | Quoted(delim: char)

  /** Everything the tokenizer holds between two characters. */
  datatype Scan = Scan(quote: Quote, token: string, tokens: seq<string>)

  const START := Scan(Unquoted, [], [])

  /** Ends the current token: it is appended only when non-empty. */
  function Flush(tokens: seq<string>, token: string): seq<string>
  {
    if token == [] then tokens else tokens + [token]
  }

  /** What the tokenizer does with one character. */
  function Step(s: Scan, c: char): Scan
  {
    match s.quote
    case Quoted(d) =>
      if c == d then Scan(Unquoted, [], Flush(s.tokens, s.token))
      else Scan(s.quote, s.token + [c], s.tokens)
    case Unquoted =>
      if IsQuote(c) then Scan(Quoted(c), s.token, s.tokens)
      else if IsSeparator(c) then Scan(Unquoted, [], Flush(s.tokens, s.token))
      else Scan(Unquoted, s.token + [c], s.tokens)
  }

  /** The state after feeding `input` to the tokenizer, character by character. */
  function Run(s: Scan, input: string): Scan
    decreases |input|
  {
    if input == [] then s else Run(Step(s, input[0]), input[1..])
  }

  /** The tokens of `args`: the state after the whole input, with the last token flushed. */
  function Tokens(args: string): seq<string>
  {
    var s := Run(START, args);
    Flush(s.tokens, s.token)
  }

  /** The tokenizer as the source runs it: one loop over the characters. */
  method SplitArgs(args: string) returns (vargs: seq<string>)
    ensures vargs == Tokens(args)
  {
    var quote := Unquoted;
    var token: string := [];
    vargs := [];
    for i := 0 to |args|
      invariant Run(Scan(quote, token, vargs), args[i..]) == Run(START, args)
    {
      var c := args[i];
      assert args[i..][1..] == args[i + 1..];
      match quote {
        case Quoted(d) =>
          if c == d {
            if token != [] {
              vargs := vargs + [token];
              token := [];
            }
            quote := Unquoted;
          } else {
            token := token + [c];
          }
        case Unquoted =>
          if IsQuote(c) {
            quote := Quoted(c);
          } else if IsSeparator(c) {
            if token != [] {
              vargs := vargs + [token];
              token := [];
            }
          } else {
            token := token + [c];
          }
      }
    }
    assert args[|args|..] == [];
    if token != [] {
      vargs := vargs + [token];
    }
  }

  // ---------------------------------------------------------------------------
  // No token is empty

  lemma {:induction false} RunKeepsTokensNonEmpty(s: Scan, input: string)
    requires forall t :: t in s.tokens ==> t != []
    ensures forall t :: t in Run(s, input).tokens ==> t != []
    decreases |input|
  {
    if input != [] {
      RunKeepsTokensNonEmpty(Step(s, input[0]), input[1..]);
    }
  }

  /** No token is ever empty: not for `""` or `''`, not for runs of separators. */
  lemma TokensNonEmpty(args: string)
    ensures forall t :: t in Tokens(args) ==> t != []
  {
    RunKeepsTokensNonEmpty(START, args);
  }

  // ---------------------------------------------------------------------------
  // Nothing but delimiters and separators is lost

  /** All tokens joined end to end. */
  function Concat(ts: seq<string>): string
    decreases |ts|
  {
    if ts == [] then [] else Concat(ts[..|ts| - 1]) + ts[|ts| - 1]
  }

  /**
   * The characters of `s` that carry content, starting in quote state `q`: every
   * character except the quote delimiters and, outside quotes, the separators.
   */
  function Kept(q: Quote, s: string): string
    decreases |s|
  {
    if s == [] then []
    else
      var c, rest := s[0], s[1..];
      match q
      case Quoted(d) =>
        if c == d then Kept(Unquoted, rest) else [c] + Kept(q, rest)
      case Unquoted =>
        if IsQuote(c) then Kept(Quoted(c), rest)
        else if IsSeparator(c) then Kept(Unquoted, rest)
        else [c] + Kept(Unquoted, rest)
  }

  lemma ConcatFlush(ts: seq<string>, t: string)
    ensures Concat(Flush(ts, t)) == Concat(ts) + t
  {
    if t != [] {
      assert (ts + [t])[..|ts|] == ts;
    }
  }

  /** One character moves content from the unread input to the tokens without changing it. */
  lemma StepConcat(s: Scan, c: char, rest: string)
    ensures var s' := Step(s, c);
      Concat(s'.tokens) + s'.token + Kept(s'.quote, rest)
        == Concat(s.tokens) + s.token + Kept(s.quote, [c] + rest)
  {
    var input := [c] + rest;
    assert input[0] == c && input[1..] == rest;
    var s' := Step(s, c);
    var pre := Concat(s.tokens);
    if (s.quote.Quoted? && c == s.quote.delim) || (s.quote.Unquoted? && !IsQuote(c) && IsSeparator(c)) {
      // the token ends here
      ConcatFlush(s.tokens, s.token);
      assert s' == Scan(Unquoted, [], Flush(s.tokens, s.token));
      assert Kept(s.quote, input) == Kept(Unquoted, rest);
    } else if s.quote.Unquoted? && IsQuote(c) {
      // a quotation opens; the token goes on
      assert s' == Scan(Quoted(c), s.token, s.tokens);
      assert Kept(s.quote, input) == Kept(Quoted(c), rest);
    } else {
      // the character joins the token
      assert s' == Scan(s.quote, s.token + [c], s.tokens);
      assert Kept(s.quote, input) == [c] + Kept(s.quote, rest);
      var k := Kept(s.quote, rest);
      assert pre + (s.token + [c]) + k == pre + s.token + ([c] + k);
    }
  }

  lemma {:induction false} RunConcat(s: Scan, input: string)
    ensures var r := Run(s, input);
      Concat(Flush(r.tokens, r.token)) == Concat(s.tokens) + s.token + Kept(s.quote, input)
    decreases |input|
  {
    if input == [] {
      ConcatFlush(s.tokens, s.token);
      assert Kept(s.quote, input) == [];
    } else {
      RunConcat(Step(s, input[0]), input[1..]);
      StepConcat(s, input[0], input[1..]);
      assert [input[0]] + input[1..] == input;
    }
  }

  /**
   * Joining the tokens gives back the input with exactly the quote delimiters and
   * the unquoted separators removed: no other character is lost, duplicated or moved.
   */
  lemma TokensConcat(args: string)
    ensures Concat(Tokens(args)) == Kept(Unquoted, args)
  {
    RunConcat(START, args);
  }

  // ---------------------------------------------------------------------------
  // Without quotes: the maximal runs of non-separators

  /** The length of the leading run of non-separator characters. */
  function RunLength(s: string): (n: nat)
    ensures n <= |s|
    ensures forall i :: 0 <= i < n ==> !IsSeparator(s[i])
    ensures n < |s| ==> IsSeparator(s[n])
    decreases |s|
  {
    if s == [] || IsSeparator(s[0]) then 0 else 1 + RunLength(s[1..])
  }

  /** The maximal runs of non-separator characters of `s`, in order. */
  function Words(s: string): seq<string>
    decreases |s|
  {
    if s == [] then []
    else if IsSeparator(s[0]) then Words(s[1..])
    else
      var n := RunLength(s);
      [s[..n]] + Words(s[n..])
  }

  lemma WordsUnfold(s: string, ts: seq<string>)
    ensures Flush(ts, s[..RunLength(s)]) + Words(s[RunLength(s)..]) == ts + Words(s)
  {
    var n := RunLength(s);
    if n == 0 {
      assert s[..0] == [] && s[0..] == s;
    } else {
      assert s != [] && !IsSeparator(s[0]);
    }
  }

  lemma {:induction false} RunWithoutQuotes(token: string, tokens: seq<string>, s: string)
    requires forall i :: 0 <= i < |s| ==> !IsQuote(s[i])
    ensures var r := Run(Scan(Unquoted, token, tokens), s);
      Flush(r.tokens, r.token)
        == Flush(tokens, token + s[..RunLength(s)]) + Words(s[RunLength(s)..])
    decreases |s|
  {
    if s == [] {
      assert token + s[..0] == token;
    } else {
      var c, rest := s[0], s[1..];
      assert forall i :: 0 <= i < |rest| ==> rest[i] == s[i + 1];
      if IsSeparator(c) {
        RunWithoutQuotes([], Flush(tokens, token), rest);
        WordsUnfold(rest, Flush(tokens, token));
        assert [] + rest[..RunLength(rest)] == rest[..RunLength(rest)];
        assert s[..0] == [] && s[0..] == s;
        assert token + [] == token;
      } else {
        RunWithoutQuotes(token + [c], tokens, rest);
        var m := RunLength(rest);
        assert RunLength(s) == 1 + m;
        assert s[..1 + m] == [c] + rest[..m];
        assert s[1 + m..] == rest[m..];
        assert token + [c] + rest[..m] == token + s[..1 + m];
      }
    }
  }

  /** For input with no quote characters, the tokens are exactly the maximal runs of non-separators. */
  lemma TokensWithoutQuotes(args: string)
    requires forall i :: 0 <= i < |args| ==> !IsQuote(args[i])
    ensures Tokens(args) == Words(args)
  {
    RunWithoutQuotes([], [], args);
    WordsUnfold(args, []);
    var n := RunLength(args);
    assert [] + args[..n] == args[..n];
    assert [] + Words(args) == Words(args);
  }

  // ---------------------------------------------------------------------------
  // Quotations

  lemma {:induction false} RunAppend(s: Scan, a: string, b: string)
    ensures Run(s, a + b) == Run(Run(s, a), b)
    decreases |a|
  {
    if a == [] {
      assert a + b == b;
    } else {
      assert (a + b)[0] == a[0] && (a + b)[1..] == a[1..] + b;
      RunAppend(Step(s, a[0]), a[1..], b);
    }
  }

  /** Inside a quotation every character other than its delimiter is taken literally. */
  lemma {:induction false} RunInsideQuotes(d: char, token: string, tokens: seq<string>, q: string)
    requires forall i :: 0 <= i < |q| ==> q[i] != d
    ensures Run(Scan(Quoted(d), token, tokens), q) == Scan(Quoted(d), token + q, tokens)
    decreases |q|
  {
    if q == [] {
      assert token + q == token;
    } else {
      RunInsideQuotes(d, token + [q[0]], tokens, q[1..]);
      assert token + [q[0]] + q[1..] == token + q;
    }
  }

  /** A plain word (no separator, no quote) outside quotes only grows the current token. */
  lemma {:induction false} RunPlainWord(token: string, tokens: seq<string>, w: string)
    requires forall i :: 0 <= i < |w| ==> !IsQuote(w[i]) && !IsSeparator(w[i])
    ensures Run(Scan(Unquoted, token, tokens), w) == Scan(Unquoted, token + w, tokens)
    decreases |w|
  {
    if w == [] {
      assert token + w == token;
    } else {
      RunPlainWord(token + [w[0]], tokens, w[1..]);
      assert token + [w[0]] + w[1..] == token + w;
    }
  }

  /** Tokens already emitted are never looked at again. */
  lemma {:induction false} RunKeepsEmitted(q: Quote, token: string, done: seq<string>, tokens: seq<string>, s: string)
    ensures var r := Run(Scan(q, token, done + tokens), s);
      var r' := Run(Scan(q, token, tokens), s);
      r.quote == r'.quote && r.token == r'.token && r.tokens == done + r'.tokens
    decreases |s|
  {
    if s != [] {
      var c := s[0];
      var st := Step(Scan(q, token, tokens), c);
      assert Flush(done + tokens, token) == done + Flush(tokens, token);
      RunKeepsEmitted(st.quote, st.token, done, st.tokens, s[1..]);
    }
  }

  /**
   * A quotation anywhere outside quotes: the opening quote does not end the current
   * token, the quoted text joins it literally, and the closing quote ends the token
   * at once, so what follows starts from a fresh token.
   */
  lemma QuotedSegment(p: string, d: char, q: string, rest: string)
    requires Run(START, p).quote == Unquoted
    requires IsQuote(d)
    requires forall i :: 0 <= i < |q| ==> q[i] != d
    ensures var r := Run(START, p);
      Tokens(p + [d] + q + [d] + rest) == Flush(r.tokens, r.token + q) + Tokens(rest)
  {
    var r := Run(START, p);
    RunAppend(START, p, [d] + q + [d] + rest);
    assert p + [d] + q + [d] + rest == p + ([d] + q + [d] + rest);
    assert ([d] + q + [d] + rest)[1..] == q + ([d] + rest);
    var open := Scan(Quoted(d), r.token, r.tokens);
    assert Run(r, [d] + q + [d] + rest) == Run(open, q + ([d] + rest));
    RunAppend(open, q, [d] + rest);
    RunInsideQuotes(d, r.token, r.tokens, q);
    assert ([d] + rest)[1..] == rest;
    var t := Flush(r.tokens, r.token + q);
    assert Run(Scan(Quoted(d), r.token + q, r.tokens), [d] + rest) == Run(Scan(Unquoted, [], t), rest);
    RunKeepsEmitted(Unquoted, [], t, [], rest);
    assert t + [] == t;
    var r' := Run(START, rest);
    assert Flush(t + r'.tokens, r'.token) == t + Flush(r'.tokens, r'.token);
  }

  /** A quotation left open runs to the end of the input and is still emitted. */
  lemma UnterminatedQuote(p: string, d: char, q: string)
    requires Run(START, p).quote == Unquoted
    requires IsQuote(d)
    requires forall i :: 0 <= i < |q| ==> q[i] != d
    ensures var r := Run(START, p);
      Tokens(p + [d] + q) == Flush(r.tokens, r.token + q)
  {
    var r := Run(START, p);
    RunAppend(START, p, [d] + q);
    assert p + [d] + q == p + ([d] + q);
    assert ([d] + q)[1..] == q;
    assert Run(r, [d] + q) == Run(Scan(Quoted(d), r.token, r.tokens), q);
    RunInsideQuotes(d, r.token, r.tokens, q);
  }

  /** A closing quote ends the token at once: `"ab"cd` gives `ab`, `cd`. */
  lemma ClosingQuoteEndsToken()
    ensures Tokens("\"ab\"cd") == ["ab", "cd"]
  {
    QuotedSegment([], '"', "ab", "cd");
    assert Run(START, []) == START;
    assert [] + ['"'] + "ab" + ['"'] + "cd" == "\"ab\"cd";
    TokensWithoutQuotes("cd");
    assert RunLength("cd") == 2 by {
      assert RunLength("cd"[1..][1..]) == 0;
    }
    assert "cd"[..2] == "cd" && "cd"[2..] == [];
    assert [] + "ab" == "ab";
    assert Words("cd") == ["cd"];
  }

  /** An opening quote does not end the token: `ab"cd"` gives `abcd`. */
  lemma OpeningQuoteKeepsToken()
    ensures Tokens("ab\"cd\"") == ["abcd"]
  {
    RunPlainWord([], [], "ab");
    assert [] + "ab" == "ab";
    QuotedSegment("ab", '"', "cd", []);
    assert "ab" + ['"'] + "cd" + ['"'] + [] == "ab\"cd\"";
    assert Tokens([]) == [];
    assert "ab" + "cd" == "abcd";
  }

  /** Inside quotes the other quote character, whitespace and commas are literal. */
  lemma QuotedSeparatorsKept()
    ensures Tokens("'a\" ,b'") == ["a\" ,b"]
  {
    QuotedSegment([], '\'', "a\" ,b", []);
    assert Run(START, []) == START;
    assert [] + ['\''] + "a\" ,b" + ['\''] + [] == "'a\" ,b'";
    assert Tokens([]) == [];
    assert [] + "a\" ,b" == "a\" ,b";
  }

  /** An unterminated quote is flushed at the end of the input: `x 'y z` gives `x`, `y z`. */
  lemma UnterminatedQuoteFlushed()
    ensures Tokens("x 'y z") == ["x", "y z"]
  {
    RunAppend(START, "x", " ");
    assert "x" + " " == "x ";
    RunPlainWord([], [], "x");
    assert [] + "x" == "x";
    assert " "[1..] == [];
    assert Run(START, "x ") == Scan(Unquoted, [], ["x"]);
    UnterminatedQuote("x ", '\'', "y z");
    assert "x " + ['\''] + "y z" == "x 'y z";
    assert [] + "y z" == "y z";
  }
}
