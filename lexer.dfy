/** The tokenizer (parser.js `tokenize`): one left-to-right pass over the
    characters with a pending word and an in-comment flag. */
module Lexer {

  /** The characters JavaScript's `\s` matches (parser.js `isBlank`). */
  predicate IsBlank(c: char) {
    c == ' ' || c == '\t' || c == '\n' || c == '\r' || c == '\U{000B}' || c == '\U{000C}'
    || c == '\U{00A0}' || c == '\U{1680}' || ('\U{2000}' <= c <= '\U{200A}')
    || c == '\U{2028}' || c == '\U{2029}' || c == '\U{202F}' || c == '\U{205F}'
    || c == '\U{3000}' || c == '\U{FEFF}'
  }

  /** A character that neither separates, opens a comment nor is a parenthesis. */
  predicate IsWordChar(c: char) {
    c != '(' && c != ')' && c != '#' && !IsBlank(c)
  }

  predicate IsWord(w: string) {
    |w| > 0 && forall i :: 0 <= i < |w| ==> IsWordChar(w[i])
  }

  /** What the tokenizer may emit: a parenthesis or a word. */
  predicate IsToken(t: string) {
    t == "(" || t == ")" || IsWord(t)
  }

  predicate AllTokens(ts: seq<string>) {
    forall i :: 0 <= i < |ts| ==> IsToken(ts[i])
  }

  /** The scanner's variables between two characters. */
  datatype LexState = LexState(tokens: seq<string>, word: string, inComment: bool)

  const START := LexState([], "", false)

  /** Push the pending word, if any. */
  function Flush(st: LexState): LexState {
    if |st.word| > 0 then st.(tokens := st.tokens + [st.word], word := "") else st
  }

  /** One iteration of the scanning loop. */
  function Step(st: LexState, c: char): LexState {
    if st.inComment then
      if c == '\n' then st.(inComment := false) else st
    else if c == '#' then
      Flush(st).(inComment := true)
    else if c == '(' || c == ')' then
      var f := Flush(st);
      f.(tokens := f.tokens + [[c]])
    else if IsBlank(c) then
      Flush(st)
    else
      st.(word := st.word + [c])
  }

  function Run(st: LexState, s: string): LexState
    decreases s
  {
    if s == [] then st else Run(Step(st, s[0]), s[1..])
  }

  /** The tokens of `source`. */
  function Lex(source: string): seq<string> {
    Flush(Run(START, source)).tokens
  }

  lemma {:induction false} RunAppend(st: LexState, s: string, t: string)
    ensures Run(st, s + t) == Run(Run(st, s), t)
    decreases s
  {
    if s != [] {
      assert (s + t)[1..] == s[1..] + t;
      RunAppend(Step(st, s[0]), s[1..], t);
    } else {
      assert s + t == t;
    }
  }

  /** The imperative scanner; it computes exactly `Lex(source)`. */
  method Tokenize(source: string) returns (tokens: seq<string>)
    ensures tokens == Lex(source)
  {
    tokens := [];
    var word := "";
    var inComments := false;
    for i := 0 to |source|
      invariant LexState(tokens, word, inComments) == Run(START, source[..i])
    {
      RunAppend(START, source[..i], [source[i]]);
      assert source[..i + 1] == source[..i] + [source[i]];
      if inComments {
        if source[i] == '\n' {
          inComments := false;
        }
      } else {
        if source[i] == '#' {
          inComments := true;
          if |word| > 0 {
            tokens := tokens + [word];
            word := "";
          }
        } else if source[i] == '(' || source[i] == ')' {
          if |word| > 0 {
            tokens := tokens + [word];
            word := "";
          }
          tokens := tokens + [[source[i]]];
        } else if IsBlank(source[i]) {
          if |word| > 0 {
            tokens := tokens + [word];
            word := "";
          }
        } else {
          word := word + [source[i]];
        }
      }
    }
    assert source[..|source|] == source;
    if |word| > 0 {
      tokens := tokens + [word];
      word := "";
    }
  }

  // ---------------------------------------------------------------------------
  // Every emitted token is a parenthesis or a word

  ghost predicate StateOk(st: LexState) {
    AllTokens(st.tokens) && (st.word == [] || IsWord(st.word))
  }

  lemma {:induction false} RunKeepsStateOk(st: LexState, s: string)
    requires StateOk(st)
    ensures StateOk(Run(st, s))
    decreases s
  {
    if s != [] {
      var c := s[0];
      var next := Step(st, c);
      assert StateOk(next) by {
        if !st.inComment && !IsBlank(c) && c != '#' && c != '(' && c != ')' {
          assert IsWordChar(c);
        }
      }
      RunKeepsStateOk(next, s[1..]);
    }
  }

  /** Every token is "(", ")" or a non-empty word free of blanks, parentheses and `#`. */
  lemma LexEmitsTokens(source: string)
    ensures AllTokens(Lex(source))
  {
    RunKeepsStateOk(START, source);
  }

  // ---------------------------------------------------------------------------
  // The tokens spell the source without its comments and blanks

  /** Concatenation of a sequence of tokens. */
  function Concat(ts: seq<string>): string {
    if ts == [] then [] else Concat(ts[..|ts| - 1]) + ts[|ts| - 1]
  }

  lemma ConcatSnoc(ts: seq<string>, t: string)
    ensures Concat(ts + [t]) == Concat(ts) + t
  {
    assert (ts + [t])[..|ts|] == ts;
  }

  /** The characters that are neither blanks nor comment text, read from a
      position whose comment state is `inComment`. */
  function VisibleFrom(inComment: bool, s: string): string
    decreases s
  {
    if s == [] then []
    else
      var c := s[0];
      if inComment then VisibleFrom(c != '\n', s[1..])
      else if c == '#' then VisibleFrom(true, s[1..])
      else if IsBlank(c) then VisibleFrom(false, s[1..])
      else [c] + VisibleFrom(false, s[1..])
  }

  function Visible(source: string): string {
    VisibleFrom(false, source)
  }

  /** One step of the scanner moves a character from the unread text to the
      spelled text exactly when that character is visible. */
  lemma StepSpells(st: LexState, c: char, rest: string)
    ensures
      var next := Step(st, c);
      Concat(next.tokens) + next.word + VisibleFrom(next.inComment, rest)
      == Concat(st.tokens) + st.word + VisibleFrom(st.inComment, [c] + rest)
  {
    var s := [c] + rest;
    assert s[0] == c && s[1..] == rest;
    if st.inComment {
    } else if c == '#' || IsBlank(c) {
      FlushSpells(st);
    } else if c == '(' || c == ')' {
      ParenSpells(st, c);
    } else {
      assert IsWordChar(c);
      WordCharSpells(st, c, rest);
    }
  }

  lemma ParenSpells(st: LexState, c: char)
    requires !st.inComment && (c == '(' || c == ')')
    ensures Concat(Step(st, c).tokens) + Step(st, c).word == Concat(st.tokens) + st.word + [c]
  {
    var f := Flush(st);
    FlushSpells(st);
    ConcatSnoc(f.tokens, [c]);
  }

  lemma WordCharSpells(st: LexState, c: char, rest: string)
    requires !st.inComment && IsWordChar(c)
    ensures
      var next := Step(st, c);
      Concat(next.tokens) + next.word + VisibleFrom(next.inComment, rest)
      == Concat(st.tokens) + st.word + VisibleFrom(st.inComment, [c] + rest)
  {
    var s := [c] + rest;
    assert s[0] == c && s[1..] == rest;
    assert VisibleFrom(false, s) == [c] + VisibleFrom(false, rest);
  }

  lemma FlushSpells(st: LexState)
    ensures Concat(Flush(st).tokens) + Flush(st).word == Concat(st.tokens) + st.word
  {
    if |st.word| > 0 { ConcatSnoc(st.tokens, st.word); }
  }

  lemma {:induction false} RunSpells(st: LexState, s: string)
    ensures Concat(Flush(Run(st, s)).tokens) == Concat(st.tokens) + st.word + VisibleFrom(st.inComment, s)
    decreases s
  {
    if s == [] {
      if |st.word| > 0 { ConcatSnoc(st.tokens, st.word); }
    } else {
      RunSpells(Step(st, s[0]), s[1..]);
      StepSpells(st, s[0], s[1..]);
      assert [s[0]] + s[1..] == s;
    }
  }

  /** Concatenating the tokens gives the source with comments and blanks removed. */
  lemma LexSpellsVisible(source: string)
    ensures Concat(Lex(source)) == Visible(source)
  {
    RunSpells(START, source);
  }

  lemma {:induction false} ConcatEmpty(ts: seq<string>)
    requires AllTokens(ts)
    ensures Concat(ts) == [] <==> ts == []
  {
    if ts != [] {
      ConcatSnoc(ts[..|ts| - 1], ts[|ts| - 1]);
      assert ts[..|ts| - 1] + [ts[|ts| - 1]] == ts;
      assert IsToken(ts[|ts| - 1]);
    }
  }

  /** No tokens exactly when the source is all blanks and comments. */
  lemma LexEmptyIffInvisible(source: string)
    ensures Lex(source) == [] <==> Visible(source) == []
  {
    LexEmitsTokens(source);
    LexSpellsVisible(source);
    ConcatEmpty(Lex(source));
  }

  // ---------------------------------------------------------------------------
  // Comments

  lemma {:induction false} CommentSwallows(st: LexState, t: string)
    requires st.inComment && '\n' !in t
    ensures Run(st, t) == st
  {
    if t != [] {
      assert t[0] in t;
      assert forall c :: c in t[1..] ==> c in t;
      CommentSwallows(st, t[1..]);
    }
  }

  /** A `#` and everything after it on the last line emit nothing. */
  lemma CommentAtEndIgnored(s: string, t: string)
    requires '\n' !in t
    ensures Lex(s + "#" + t) == Lex(s)
  {
    RunAppend(START, s + "#", t);
    RunAppend(START, s, "#");
    var st := Run(START, s);
    var st1 := Step(st, '#');
    assert Run(st, "#") == st1;
    CommentSwallows(st1, t);
  }

  /** A `#` and the text up to the next newline emit nothing: the newline ends
      the comment just as it would end a word. */
  lemma CommentToNewlineIgnored(s: string, t: string, u: string)
    requires '\n' !in t
    ensures Lex(s + "#" + t + "\n" + u) == Lex(s + "\n" + u)
  {
    var st := Run(START, s);
    var st1 := Step(st, '#');
    RunAppend(START, s, "#");
    assert Run(st, "#") == st1;
    RunAppend(START, s + "#", t);
    CommentSwallows(st1, t);
    RunAppend(START, s + "#" + t, "\n");
    assert Run(st1, "\n") == Step(st1, '\n');
    RunAppend(START, s + "#" + t + "\n", u);
    RunAppend(START, s, "\n");
    assert Run(st, "\n") == Step(st, '\n');
    RunAppend(START, s + "\n", u);
    assert Step(st1, '\n') == Step(st, '\n');
  }

  /** Blank-only and comment-only lines have no tokens. */
  lemma CommentOnlyLineIsEmpty(t: string)
    requires '\n' !in t
    ensures Lex("#" + t) == []
  {
    CommentAtEndIgnored("", t);
    assert "" + "#" + t == "#" + t;
  }

  // ---------------------------------------------------------------------------
  // Re-tokenizing

  /** Tokens joined by single spaces. */
  function Unwords(ts: seq<string>): string {
    if ts == [] then ""
    else if |ts| == 1 then ts[0]
    else ts[0] + " " + Unwords(ts[1..])
  }

  lemma {:induction false} RunWord(st: LexState, w: string)
    requires !st.inComment
    requires forall i :: 0 <= i < |w| ==> IsWordChar(w[i])
    ensures Run(st, w) == st.(word := st.word + w)
    decreases w
  {
    if w != [] {
      RunWord(st.(word := st.word + [w[0]]), w[1..]);
      assert st.word + [w[0]] + w[1..] == st.word + w;
    }
  }

  /** From a state with no pending word, a token leaves either a pushed
      parenthesis or a pending word. */
  lemma RunToken(tokens: seq<string>, t: string)
    requires IsToken(t)
    ensures Flush(Run(LexState(tokens, "", false), t)) == LexState(tokens + [t], "", false)
  {
    if t == "(" || t == ")" {
      assert Run(LexState(tokens, "", false), t) == Step(LexState(tokens, "", false), t[0]);
    } else {
      RunWord(LexState(tokens, "", false), t);
      assert "" + t == t;
    }
  }

  lemma {:induction false} RunUnwords(tokens: seq<string>, ts: seq<string>)
    requires AllTokens(ts)
    ensures Flush(Run(LexState(tokens, "", false), Unwords(ts))) == LexState(tokens + ts, "", false)
    decreases ts
  {
    var st := LexState(tokens, "", false);
    if ts == [] {
      assert tokens + ts == tokens;
    } else if |ts| == 1 {
      RunToken(tokens, ts[0]);
      assert ts == [ts[0]];
    } else {
      var t := ts[0];
      assert IsToken(t);
      RunAppend(st, t, " " + Unwords(ts[1..]));
      RunAppend(Run(st, t), " ", Unwords(ts[1..]));
      assert t + " " + Unwords(ts[1..]) == t + (" " + Unwords(ts[1..]));
      var mid := Run(st, t);
      RunToken(tokens, t);
      assert Run(mid, " ") == Step(mid, ' ');
      assert Step(mid, ' ') == Flush(mid);
      assert AllTokens(ts[1..]) by {
        forall i | 0 <= i < |ts[1..]| ensures IsToken(ts[1..][i]) { assert ts[1..][i] == ts[i + 1]; }
      }
      RunUnwords(tokens + [t], ts[1..]);
      assert tokens + [t] + ts[1..] == tokens + ts;
    }
  }

  /** Joining any tokens with single spaces and tokenizing gives them back. */
  lemma UnwordsRoundTrip(ts: seq<string>)
    requires AllTokens(ts)
    ensures Lex(Unwords(ts)) == ts
  {
    RunUnwords([], ts);
    assert [] + ts == ts;
  }

  /** Re-tokenizing the tokens joined by single spaces returns the same tokens. */
  lemma RetokenizeIsIdentity(source: string)
    ensures Lex(Unwords(Lex(source))) == Lex(source)
  {
    LexEmitsTokens(source);
    UnwordsRoundTrip(Lex(source));
  }

  // ---------------------------------------------------------------------------
  // Parentheses stand alone even when glued to their neighbours

  lemma RunCons(st: LexState, s: string)
    requires s != []
    ensures Run(st, s) == Run(Step(st, s[0]), s[1..])
  {
  }

  lemma GluedOpenAndPlus(s: string)
    requires s == "(+ 1 2)"
    ensures Run(START, s) == Run(LexState(["(", "+"], "", false), s[3..])
  {
    var st1 := LexState(["("], "", false);
    var st2 := LexState(["("], "+", false);
    RunCons(START, s);
    RunCons(st1, s[1..]);
    RunCons(st2, s[2..]);
    assert s[1..][1..] == s[2..] && s[2..][1..] == s[3..];
    assert Step(START, s[0]) == st1;
    assert Step(st1, s[1]) == st2;
    assert Step(st2, s[2]) == LexState(["(", "+"], "", false);
  }

  lemma GluedOne(s: string)
    requires s == "(+ 1 2)"
    ensures Run(LexState(["(", "+"], "", false), s[3..]) == Run(LexState(["(", "+", "1"], "", false), s[5..])
  {
    var st3 := LexState(["(", "+"], "", false);
    var st4 := LexState(["(", "+"], "1", false);
    RunCons(st3, s[3..]);
    RunCons(st4, s[4..]);
    assert s[3..][1..] == s[4..] && s[4..][1..] == s[5..];
    assert Step(st3, s[3]) == st4;
    assert Step(st4, s[4]) == LexState(["(", "+", "1"], "", false);
  }

  lemma GluedTwoAndClose(s: string)
    requires s == "(+ 1 2)"
    ensures Run(LexState(["(", "+", "1"], "", false), s[5..]) == LexState(["(", "+", "1", "2", ")"], "", false)
  {
    var st5 := LexState(["(", "+", "1"], "", false);
    var st6 := LexState(["(", "+", "1"], "2", false);
    RunCons(st5, s[5..]);
    RunCons(st6, s[6..]);
    assert s[5..][1..] == s[6..] && s[6..][1..] == [];
    assert Step(st5, s[5]) == st6;
    assert Step(st6, s[6]) == LexState(["(", "+", "1", "2", ")"], "", false);
  }

  /** `(` and `)` are tokens of their own even when glued to their neighbours. */
  lemma GluedParensExample(s: string)
    requires s == "(+ 1 2)"
    ensures Lex(s) == ["(", "+", "1", "2", ")"]
  {
    GluedOpenAndPlus(s);
    GluedOne(s);
    GluedTwoAndClose(s);
  }

  /** A trailing comment changes nothing. */
  lemma TrailingCommentExample(s: string)
    requires s == "(+ 1 2) # c"
    ensures Lex(s) == ["(", "+", "1", "2", ")"]
  {
    var code := s[..7];
    GluedParensExample(code);
    CommentAtEndIgnored(s[..8], s[9..]);
    assert s[..8] + "#" + s[9..] == s;
    var st := Run(START, code);
    RunAppend(START, code, [s[7]]);
    assert code + [s[7]] == s[..8];
    RunCons(st, [s[7]]);
  }
}
