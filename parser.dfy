/** The parser (parser.js `parse` and its inner `parseHelper`), the rendering of
    well-formed expressions back into tokens, and a strict reader. */
module Parser {
  import opened Errors
  import opened Syntax
  import Lexer

  /** What `parseHelper` returns: the elements it read and the index after them. */
  datatype Parsed = Parsed(items: seq<Tree>, next: nat)

  /** `parseHelper(idx)`: reads elements up to and including a closing ")".
      Past the last token, the atom branch calls itself forever; that runaway
      recursion is reported as a stack overflow. Each atom is classified by
      `atom`, which is `NumberOrSymbol` unless a caller says otherwise, so that
      the structural facts below are stated for any classification. */
  function ParseHelper(tokens: seq<string>, idx: nat, atom: string -> Tree := NumberOrSymbol): (r: Result<Parsed>)
    ensures r.Ok? ==> idx < r.value.next <= |tokens|
    decreases |tokens| - idx
  {
    if idx >= |tokens| then Err(StackOverflow)
    else if tokens[idx] == "(" then
      match ParseHelper(tokens, idx + 1, atom)
      case Err(e) => Err(e)
      case Ok(Parsed(cur, n)) =>
        if n < |tokens| then
          match ParseHelper(tokens, n, atom)
          case Err(e) => Err(e)
          case Ok(Parsed(rest, n2)) => Ok(Parsed([List(cur)] + rest, n2))
        else
          Ok(Parsed(cur, n))
    else if tokens[idx] == ")" then
      Ok(Parsed([], idx + 1))
    else
      match ParseHelper(tokens, idx + 1, atom)
      case Err(e) => Err(e)
      case Ok(Parsed(rest, n)) => Ok(Parsed([atom(tokens[idx])] + rest, n))
  }

  /** `parse(tokens)`: a lone token other than "(" is an atom; anything else is
      read by `ParseHelper` from index 0 and its elements form a list. */
  function Parse(tokens: seq<string>): (r: Result<Tree>)
    ensures r.Ok? && |tokens| != 1 ==> r.value.List?
  {
    if |tokens| == 1 && tokens[0] != "(" then
      Ok(NumberOrSymbol(tokens[0]))
    else
      match ParseHelper(tokens, 0)
      case Err(e) => Err(e)
      case Ok(p) => Ok(List(p.items))
  }

  // ---------------------------------------------------------------------------
  // Fully parenthesised renderings

  /** An expression as its tokens spell it: atoms keep their text. */
  datatype SExp = Atom(word: string) | Group(items: seq<SExp>)

  /** Atoms are tokens other than parentheses. */
  predicate WellFormed(g: SExp) {
    match g
    case Atom(w) => w != "(" && w != ")"
    case Group(items) => forall i :: 0 <= i < |items| ==> WellFormed(items[i])
  }

  function Render(g: SExp): seq<string> {
    match g
    case Atom(w) => [w]
    case Group(items) => ["("] + RenderItems(items) + [")"]
  }

  function RenderItems(items: seq<SExp>): seq<string> {
    if items == [] then [] else Render(items[0]) + RenderItems(items[1..])
  }

  /** The tree an expression stands for: each atom classified by `NumberOrSymbol`. */
  function Denote(g: SExp, atom: string -> Tree := NumberOrSymbol): Tree {
    match g
    case Atom(w) => atom(w)
    case Group(items) => List(DenoteItems(items, atom))
  }

  function DenoteItems(items: seq<SExp>, atom: string -> Tree := NumberOrSymbol): (ts: seq<Tree>)
    ensures |ts| == |items|
  {
    if items == [] then [] else [Denote(items[0], atom)] + DenoteItems(items[1..], atom)
  }

  function Size(g: SExp): (n: nat)
    ensures n >= 1
  {
    match g
    case Atom(_) => 1
    case Group(items) => 1 + SizeItems(items)
  }

  function SizeItems(items: seq<SExp>): nat {
    if items == [] then 0 else Size(items[0]) + SizeItems(items[1..])
  }

  predicate AllWellFormed(items: seq<SExp>) {
    forall k :: 0 <= k < |items| ==> WellFormed(items[k])
  }

  /** How many tokens the rendering of an expression takes. */
  function Width(g: SExp): (n: nat)
    ensures n >= 1
  {
    match g
    case Atom(_) => 1
    case Group(items) => WidthItems(items) + 2
  }

  function WidthItems(items: seq<SExp>): nat {
    if items == [] then 0 else Width(items[0]) + WidthItems(items[1..])
  }

  /** The tokens from index `i` on spell `g`. */
  ghost predicate At(tokens: seq<string>, i: nat, g: SExp)
    decreases Size(g), 1
  {
    match g
    case Atom(w) => i < |tokens| && tokens[i] == w && w != "(" && w != ")"
    case Group(items) => i < |tokens| && tokens[i] == "(" && AtItems(tokens, i + 1, items)
  }

  /** The tokens from index `i` on spell `items` followed by a ")". */
  ghost predicate AtItems(tokens: seq<string>, i: nat, items: seq<SExp>)
    decreases SizeItems(items), 2
  {
    if items == [] then i < |tokens| && tokens[i] == ")"
    else At(tokens, i, items[0]) && AtItems(tokens, i + Width(items[0]), items[1..])
  }

  lemma {:induction false} ParseHelperReadsItems(tokens: seq<string>, i: nat, items: seq<SExp>, atom: string -> Tree)
    requires AtItems(tokens, i, items)
    ensures ParseHelper(tokens, i, atom) == Ok(Parsed(DenoteItems(items, atom), i + WidthItems(items) + 1))
    decreases SizeItems(items), 2
  {
    if items == [] {
      CloseStep(tokens, i, atom);
    } else {
      var head, rest := items[0], items[1..];
      var j := i + Width(head);
      ParseHelperReadsItems(tokens, j, rest, atom);
      ParseHelperReadsHead(tokens, i, head, atom, Parsed(DenoteItems(rest, atom), j + WidthItems(rest) + 1));
      assert DenoteItems(items, atom) == [Denote(head, atom)] + DenoteItems(rest, atom);
      assert WidthItems(items) == Width(head) + WidthItems(rest);
    }
  }

  lemma {:induction false} ParseHelperReadsHead(tokens: seq<string>, i: nat, head: SExp, atom: string -> Tree, after: Parsed)
    requires At(tokens, i, head) && ParseHelper(tokens, i + Width(head), atom) == Ok(after)
    ensures ParseHelper(tokens, i, atom) == Ok(Parsed([Denote(head, atom)] + after.items, after.next))
    decreases Size(head), 1
  {
    match head
    case Atom(w) =>
      AtomStep(tokens, i, w, atom, after);
    case Group(sub) =>
      ParseHelperReadsItems(tokens, i + 1, sub, atom);
      GroupStep(tokens, i, DenoteItems(sub, atom), i + Width(head), atom, after);
  }

  lemma CloseStep(tokens: seq<string>, i: nat, atom: string -> Tree)
    requires i < |tokens| && tokens[i] == ")"
    ensures ParseHelper(tokens, i, atom) == Ok(Parsed([], i + 1))
  {
  }

  lemma AtomStep(tokens: seq<string>, i: nat, w: string, atom: string -> Tree, after: Parsed)
    requires i < |tokens| && tokens[i] == w && w != "(" && w != ")"
    requires ParseHelper(tokens, i + 1, atom) == Ok(after)
    ensures ParseHelper(tokens, i, atom) == Ok(Parsed([atom(w)] + after.items, after.next))
  {
  }

  lemma GroupStep(tokens: seq<string>, i: nat, inner: seq<Tree>, j: nat, atom: string -> Tree, after: Parsed)
    requires i < |tokens| && tokens[i] == "(" && j < |tokens|
    requires ParseHelper(tokens, i + 1, atom) == Ok(Parsed(inner, j))
    requires ParseHelper(tokens, j, atom) == Ok(after)
    ensures ParseHelper(tokens, i, atom) == Ok(Parsed([List(inner)] + after.items, after.next))
  {
  }

  /** The tokens from index `i` on begin with `r`. */
  ghost predicate Matches(tokens: seq<string>, i: nat, r: seq<string>) {
    i + |r| <= |tokens| && forall k :: 0 <= k < |r| ==> tokens[i + k] == r[k]
  }

  lemma MatchesSplit(tokens: seq<string>, i: nat, a: seq<string>, b: seq<string>)
    requires Matches(tokens, i, a + b)
    ensures Matches(tokens, i, a) && Matches(tokens, i + |a|, b)
  {
    forall k | 0 <= k < |a| ensures tokens[i + k] == a[k] {
      assert (a + b)[k] == a[k];
    }
    forall k | 0 <= k < |b| ensures tokens[i + |a| + k] == b[k] {
      assert (a + b)[|a| + k] == b[k];
    }
  }

  lemma MatchesFirst(tokens: seq<string>, i: nat, r: seq<string>)
    requires Matches(tokens, i, r) && |r| > 0
    ensures tokens[i] == r[0]
  {
    assert tokens[i + 0] == r[0];
  }

  /** Tokens that begin with the rendering of a well-formed expression spell it. */
  lemma {:induction false} RenderedAt(tokens: seq<string>, i: nat, g: SExp)
    requires WellFormed(g) && Matches(tokens, i, Render(g))
    ensures At(tokens, i, g) && Width(g) == |Render(g)|
    decreases Size(g), 1
  {
    match g
    case Atom(w) =>
      MatchesFirst(tokens, i, [w]);
    case Group(items) =>
      assert Render(g) == ["("] + (RenderItems(items) + [")"]);
      MatchesSplit(tokens, i, ["("], RenderItems(items) + [")"]);
      MatchesFirst(tokens, i, ["("]);
      assert AllWellFormed(items);
      RenderedItemsAt(tokens, i + 1, items);
  }

  lemma {:induction false} RenderedItemsAt(tokens: seq<string>, i: nat, items: seq<SExp>)
    requires AllWellFormed(items) && Matches(tokens, i, RenderItems(items) + [")"])
    ensures AtItems(tokens, i, items) && WidthItems(items) == |RenderItems(items)|
    decreases SizeItems(items), 2
  {
    if items == [] {
      assert RenderItems(items) + [")"] == [")"];
      MatchesFirst(tokens, i, [")"]);
    } else {
      var head, rest := items[0], items[1..];
      assert AllWellFormed(rest) by {
        forall k | 0 <= k < |rest| ensures WellFormed(rest[k]) { assert rest[k] == items[k + 1]; }
      }
      assert RenderItems(items) + [")"] == Render(head) + (RenderItems(rest) + [")"]);
      MatchesSplit(tokens, i, Render(head), RenderItems(rest) + [")"]);
      RenderedAt(tokens, i, head);
      RenderedItemsAt(tokens, i + |Render(head)|, rest);
    }
  }

  /** Parsing the rendering of a well-formed expression gives back the tree it
      stands for, with list elements in source order. */
  lemma ParseRender(g: SExp)
    requires WellFormed(g)
    ensures Parse(Render(g)) == Ok(Denote(g))
  {
    match g
    case Atom(w) =>
    case Group(items) =>
      var tokens := Render(g);
      assert Matches(tokens, 0, tokens);
      RenderedAt(tokens, 0, g);
      ParseHelperReadsItems(tokens, 1, items, NumberOrSymbol);
  }

  lemma {:induction false} RenderItemsAreTokens(items: seq<SExp>)
    requires forall k :: 0 <= k < |items| ==> AtomsAreWords(items[k])
    ensures Lexer.AllTokens(RenderItems(items))
    decreases items, 0
  {
    if items != [] {
      RenderAreTokens(items[0]);
      RenderItemsAreTokens(items[1..]);
      AllTokensAppend(Render(items[0]), RenderItems(items[1..]));
    }
  }

  /** Every atom is a word the tokenizer could have produced. */
  predicate AtomsAreWords(g: SExp) {
    match g
    case Atom(w) => Lexer.IsWord(w)
    case Group(items) => forall i :: 0 <= i < |items| ==> AtomsAreWords(items[i])
  }

  lemma {:induction false} RenderAreTokens(g: SExp)
    requires AtomsAreWords(g)
    ensures Lexer.AllTokens(Render(g))
    decreases g, 1
  {
    match g
    case Atom(w) =>
    case Group(items) =>
      RenderItemsAreTokens(items);
      AllTokensAppend(["("], RenderItems(items));
      AllTokensAppend(["("] + RenderItems(items), [")"]);
  }

  lemma AllTokensAppend(a: seq<string>, b: seq<string>)
    requires Lexer.AllTokens(a) && Lexer.AllTokens(b)
    ensures Lexer.AllTokens(a + b)
  {
    assert forall i :: 0 <= i < |a + b| ==> (a + b)[i] == if i < |a| then a[i] else b[i - |a|];
  }

  lemma {:induction false} WordsAreWellFormed(g: SExp)
    requires AtomsAreWords(g)
    ensures WellFormed(g)
  {
    match g
    case Atom(w) =>
      assert w[0] != '(' && w[0] != ')';
    case Group(items) =>
      forall i | 0 <= i < |items| ensures WellFormed(items[i]) {
        WordsAreWellFormed(items[i]);
      }
  }

  /** Source text round trip: the rendering of an expression, written out with
      single spaces, tokenizes and parses back to the tree it stands for. */
  lemma TextRoundTrip(g: SExp)
    requires AtomsAreWords(g)
    ensures Parse(Lexer.Lex(Lexer.Unwords(Render(g)))) == Ok(Denote(g))
  {
    RenderAreTokens(g);
    Lexer.UnwordsRoundTrip(Render(g));
    WordsAreWellFormed(g);
    ParseRender(g);
  }

  // ---------------------------------------------------------------------------
  // Input without a closing parenthesis

  lemma {:induction false} UnclosedFails(tokens: seq<string>, i: nat)
    requires forall k :: i <= k < |tokens| ==> tokens[k] != ")"
    ensures ParseHelper(tokens, i).Err?
    decreases |tokens| - i
  {
    if i < |tokens| {
      UnclosedFails(tokens, i + 1);
    }
  }

  /** Without any ")" token, only a lone atom parses; everything else (no
      tokens, an unclosed "(", several bare atoms) fails. */
  lemma ParseWithoutCloseFails(tokens: seq<string>)
    requires forall k :: 0 <= k < |tokens| ==> tokens[k] != ")"
    ensures Parse(tokens).Ok? <==> |tokens| == 1 && tokens[0] != "("
  {
    UnclosedFails(tokens, 0);
  }

  /** `(+ 1 2)` parses to a list of a symbol and two numbers, in source order. */
  lemma ParseSumExample(tokens: seq<string>)
    requires tokens == ["(", "+", "1", "2", ")"]
    ensures Parse(tokens) == Ok(List([Sym("+"), Num(1.0), Num(2.0)]))
  {
    var g := Group([Atom(tokens[1]), Atom(tokens[2]), Atom(tokens[3])]);
    assert Render(g) == tokens by {
      var items := g.items;
      assert items[1..][1..] == items[2..] && items[2..][1..] == [];
      assert RenderItems(items[2..]) == [tokens[3]];
      assert RenderItems(items[1..]) == [tokens[2], tokens[3]];
      assert RenderItems(items) == [tokens[1], tokens[2], tokens[3]];
    }
    ParseRender(g);
    assert Denote(g) == List([Denote(g.items[0]), Denote(g.items[1]), Denote(g.items[2])]) by {
      assert g.items[1..][1..] == g.items[2..] && g.items[2..][1..] == [];
      assert DenoteItems(g.items[2..]) == [Denote(g.items[2])];
      assert DenoteItems(g.items[1..]) == [Denote(g.items[1]), Denote(g.items[2])];
    }
    DigitNumeral(tokens[2]);
    DigitNumeral(tokens[3]);
    LetterWordIsSymbol(tokens[1]);
  }

  /** `()` is the empty list, a lone ")" is a symbol, and an unclosed list,
      two bare atoms and no tokens at all are errors. */
  lemma ParseEdgeExamples(empty: seq<string>, close: seq<string>, unclosed: seq<string>, bare: seq<string>)
    requires empty == ["(", ")"] && close == [")"]
    requires unclosed == ["(", "+", "1"] && bare == ["1", "2"]
    ensures Parse(empty) == Ok(List([]))
    ensures Parse(close) == Ok(Sym(")"))
    ensures Parse(unclosed).Err? && Parse(bare).Err? && Parse([]).Err?
  {
    assert Render(Group([])) == empty;
    ParseRender(Group([]));
    ParseWithoutCloseFails(unclosed);
    ParseWithoutCloseFails(bare);
    ParseWithoutCloseFails([]);
  }

  // ---------------------------------------------------------------------------
  // A strict reader
  //
  // `parseHelper` returns the elements of a list whose ")" is the last token
  // without wrapping them, which is what makes the outermost list come out
  // right; inside another list the same branch splices an unclosed list into
  // its parent. It also never checks that the outermost list ends the input.
  // The reader below insists on balanced parentheses and one expression
  // spanning all the tokens.

  datatype Form = Form(expr: SExp, next: nat)
  datatype Forms = Forms(exprs: seq<SExp>, next: nat)

  /** Reads one expression starting at `i`. */
  function ReadForm(tokens: seq<string>, i: nat): (r: Result<Form>)
    ensures r.Ok? ==> i < r.value.next <= |tokens|
    decreases |tokens| - i, 1
  {
    if i >= |tokens| then Err(SyntaxError)
    else if tokens[i] == "(" then
      match ReadItems(tokens, i + 1)
      case Err(e) => Err(e)
      case Ok(Forms(items, n)) => Ok(Form(Group(items), n))
    else if tokens[i] == ")" then Err(SyntaxError)
    else Ok(Form(Atom(tokens[i]), i + 1))
  }

  /** Reads expressions starting at `i` up to and including the ")" that ends them. */
  function ReadItems(tokens: seq<string>, i: nat): (r: Result<Forms>)
    ensures r.Ok? ==> i < r.value.next <= |tokens|
    decreases |tokens| - i, 2
  {
    if i >= |tokens| then Err(SyntaxError)
    else if tokens[i] == ")" then Ok(Forms([], i + 1))
    else
      match ReadForm(tokens, i)
      case Err(e) => Err(e)
      case Ok(Form(g, n)) =>
        match ReadItems(tokens, n)
        case Err(e) => Err(e)
        case Ok(Forms(rest, n2)) => Ok(Forms([g] + rest, n2))
  }

  /** The whole token list as exactly one expression. */
  function Read(tokens: seq<string>): (r: Result<SExp>)
  {
    match ReadForm(tokens, 0)
    case Err(e) => Err(e)
    case Ok(Form(g, n)) => if n == |tokens| then Ok(g) else Err(SyntaxError)
  }

  /** What the reader reads is spelled by the tokens it consumed. */
  lemma {:induction false} ReadFormSpells(tokens: seq<string>, i: nat)
    requires ReadForm(tokens, i).Ok?
    ensures var f := ReadForm(tokens, i).value;
      WellFormed(f.expr) && f.next == i + |Render(f.expr)| && tokens[i..f.next] == Render(f.expr)
    decreases |tokens| - i, 1
  {
    if tokens[i] == "(" {
      var fs := ReadItems(tokens, i + 1).value;
      ReadItemsSpell(tokens, i + 1);
      var g := Group(fs.exprs);
      assert Render(g) == ["("] + (RenderItems(fs.exprs) + [")"]);
      assert tokens[i..fs.next] == [tokens[i]] + tokens[i + 1..fs.next];
    } else {
      assert tokens[i..i + 1] == [tokens[i]];
    }
  }

  lemma {:induction false} ReadItemsSpell(tokens: seq<string>, i: nat)
    requires ReadItems(tokens, i).Ok?
    ensures var fs := ReadItems(tokens, i).value;
      AllWellFormed(fs.exprs) && fs.next == i + |RenderItems(fs.exprs)| + 1
      && tokens[i..fs.next] == RenderItems(fs.exprs) + [")"]
    decreases |tokens| - i, 2
  {
    if tokens[i] == ")" {
      assert tokens[i..i + 1] == [tokens[i]];
    } else {
      var f := ReadForm(tokens, i).value;
      ReadFormSpells(tokens, i);
      var fs := ReadItems(tokens, f.next).value;
      ReadItemsSpell(tokens, f.next);
      var items := [f.expr] + fs.exprs;
      assert items[0] == f.expr && items[1..] == fs.exprs;
      assert RenderItems(items) == Render(f.expr) + RenderItems(fs.exprs);
      assert AllWellFormed(items) by {
        forall k | 0 <= k < |items| ensures WellFormed(items[k]) {
          if k > 0 { assert items[k] == fs.exprs[k - 1]; }
        }
      }
      var end := i + |RenderItems(items)| + 1;
      assert tokens[i..end] == tokens[i..f.next] + tokens[f.next..end];
    }
  }

  /** The reader only accepts renderings: what it reads, rendered, is the input. */
  lemma ReadSound(tokens: seq<string>)
    requires Read(tokens).Ok?
    ensures WellFormed(Read(tokens).value) && Render(Read(tokens).value) == tokens
  {
    ReadFormSpells(tokens, 0);
    assert tokens[0..|tokens|] == tokens;
  }

  lemma {:induction false} ReadFormRender(tokens: seq<string>, i: nat, g: SExp)
    requires At(tokens, i, g)
    ensures ReadForm(tokens, i) == Ok(Form(g, i + Width(g)))
    decreases Size(g), 1
  {
    match g
    case Atom(w) =>
    case Group(items) =>
      ReadItemsRender(tokens, i + 1, items);
  }

  lemma {:induction false} ReadItemsRender(tokens: seq<string>, i: nat, items: seq<SExp>)
    requires AtItems(tokens, i, items)
    ensures ReadItems(tokens, i) == Ok(Forms(items, i + WidthItems(items) + 1))
    decreases SizeItems(items), 2
  {
    if items != [] {
      var head, rest := items[0], items[1..];
      ReadFormRender(tokens, i, head);
      ReadItemsRender(tokens, i + Width(head), rest);
      assert items == [head] + rest;
      assert tokens[i] != ")" by {
        match head
        case Atom(w) =>
        case Group(sub) =>
      }
    }
  }

  /** The reader accepts every rendering and gives back the expression. */
  lemma ReadComplete(g: SExp)
    requires WellFormed(g)
    ensures Read(Render(g)) == Ok(g)
  {
    var tokens := Render(g);
    assert Matches(tokens, 0, tokens);
    RenderedAt(tokens, 0, g);
    ReadFormRender(tokens, 0, g);
  }

  /** Where the reader accepts, `Parse` agrees with it. */
  lemma ReadAgreesWithParse(tokens: seq<string>)
    requires Read(tokens).Ok?
    ensures Parse(tokens) == Ok(Denote(Read(tokens).value))
  {
    ReadSound(tokens);
    ParseRender(Read(tokens).value);
  }

  lemma OpenAtEndStep(tokens: seq<string>, i: nat, inner: seq<Tree>, atom: string -> Tree)
    requires i < |tokens| && tokens[i] == "("
    requires ParseHelper(tokens, i + 1, atom) == Ok(Parsed(inner, |tokens|))
    ensures ParseHelper(tokens, i, atom) == Ok(Parsed(inner, |tokens|))
  {
  }

  /** An unclosed list inside a list is spliced into its parent: `(a (b` with
      one ")" parses as if it were `(a b)`. The reader rejects it. */
  lemma ParseSplicesUnclosedList(tokens: seq<string>)
    requires tokens == ["(", "a", "(", "b", ")"]
    ensures Parse(tokens) == Ok(List([Sym("a"), Sym("b")]))
    ensures Read(tokens).Err?
  {
    var a, b := tokens[1], tokens[3];
    LetterWordIsSymbol(a);
    LetterWordIsSymbol(b);
    CloseStep(tokens, 4, NumberOrSymbol);
    AtomStep(tokens, 3, b, NumberOrSymbol, Parsed([], 5));
    assert [Sym(b)] + [] == [Sym(b)];
    OpenAtEndStep(tokens, 2, [Sym(b)], NumberOrSymbol);
    AtomStep(tokens, 1, a, NumberOrSymbol, Parsed([Sym(b)], 5));
    assert [Sym(a)] + [Sym(b)] == [Sym(a), Sym(b)];
    OpenAtEndStep(tokens, 0, [Sym(a), Sym(b)], NumberOrSymbol);
    assert ReadItems(tokens, 4) == Ok(Forms([], 5));
    assert [Atom(b)] + [] == [Atom(b)];
    assert ReadItems(tokens, 3) == Ok(Forms([Atom(b)], 5));
    assert ReadForm(tokens, 2) == Ok(Form(Group([Atom(b)]), 5));
    assert ReadItems(tokens, 2).Err?;
    assert ReadItems(tokens, 1).Err?;
  }

  /** A surplus ")" after a complete list wraps it in another list. The reader
      rejects it. */
  lemma ParseWrapsOnSurplusClose(tokens: seq<string>)
    requires tokens == ["(", "a", ")", ")"]
    ensures Parse(tokens) == Ok(List([List([Sym("a")])]))
    ensures Read(tokens).Err?
  {
    var a := tokens[1];
    LetterWordIsSymbol(a);
    CloseStep(tokens, 2, NumberOrSymbol);
    AtomStep(tokens, 1, a, NumberOrSymbol, Parsed([], 3));
    assert [Sym(a)] + [] == [Sym(a)];
    CloseStep(tokens, 3, NumberOrSymbol);
    GroupStep(tokens, 0, [Sym(a)], 3, NumberOrSymbol, Parsed([], 4));
    assert [List([Sym(a)])] + [] == [List([Sym(a)])];
    assert ReadItems(tokens, 2) == Ok(Forms([], 3));
    assert [Atom(a)] + [] == [Atom(a)];
    assert ReadItems(tokens, 1) == Ok(Forms([Atom(a)], 3));
  }
}
