/** The quote-aware comment blankers of the routing-literal scan, for TypeScript and for Python text. */
module CommentBlanker {

  datatype Language = TypeScript | Python

  datatype Kind = Comment | Literal | Code

  /** A token of the scan: its kind and the position just after it. */
  datatype Token = Token(kind: Kind, end: nat)

  predicate IsQuote(lang: Language, c: char) {
    c == '"' || c == '\'' || (lang.TypeScript? && c == '`')
  }

  predicate Pair(t: string, i: nat, first: char, second: char) {
    i + 1 < |t| && t[i] == first && t[i + 1] == second
  }

  predicate Triple(t: string, i: nat, quote: char) {
    i + 2 < |t| && t[i] == quote && t[i + 1] == quote && t[i + 2] == quote
  }

  predicate LineStart(lang: Language, t: string, i: nat) {
    match lang
    case TypeScript => Pair(t, i, '/', '/')
    case Python => i < |t| && t[i] == '#'
  }

  predicate BlockStart(lang: Language, t: string, i: nat) {
    match lang
    case TypeScript => Pair(t, i, '/', '*')
    case Python => Triple(t, i, '"') || Triple(t, i, '\'')
  }

  /** The width of a block's opening mark, and of its closing mark. */
  function MarkWidth(lang: Language): nat { if lang.TypeScript? then 2 else 3 }

  predicate BlockClose(lang: Language, t: string, opener: char, k: nat) {
    match lang
    case TypeScript => Pair(t, k, '*', '/')
    case Python => Triple(t, k, opener)
  }

  /** `text.find("\n", i)`, with the text's length when there is none. */
  function NewlineFrom(t: string, i: nat): (r: nat)
    requires i <= |t|
    ensures i <= r <= |t| && '\n' !in t[i..r]
    ensures r < |t| ==> t[r] == '\n'
    decreases |t| - i
  {
    if i == |t| || t[i] == '\n' then i
    else
      var r := NewlineFrom(t, i + 1);
      assert t[i..r] == [t[i]] + t[i + 1..r];
      r
  }

  /** The position after the first closing mark at or after `k`, the text's length when there is none. */
  function CloseFrom(lang: Language, t: string, opener: char, k: nat): (r: nat)
    requires k <= |t|
    ensures k <= r <= |t|
    decreases |t| - k
  {
    if k == |t| then k
    else if BlockClose(lang, t, opener, k) then k + MarkWidth(lang)
    else CloseFrom(lang, t, opener, k + 1)
  }

  /** A block ends with the first closing mark after its opening mark, or else with the text. */
  lemma {:induction false} CloseIsFirst(lang: Language, t: string, opener: char, k: nat)
    requires k <= |t|
    ensures var r := CloseFrom(lang, t, opener, k);
      && (r < |t| ==> r >= k + MarkWidth(lang) && BlockClose(lang, t, opener, r - MarkWidth(lang)))
      && (forall m: nat :: k <= m && m + MarkWidth(lang) < r ==> !BlockClose(lang, t, opener, m))
    decreases |t| - k
  {
    if k < |t| && !BlockClose(lang, t, opener, k) { CloseIsFirst(lang, t, opener, k + 1); }
  }

  /** Where a literal opened by `quote` ends, seen from position `j` inside it. */
  function LiteralEnd(lang: Language, t: string, quote: char, j: nat): (r: nat)
    requires j <= |t|
    ensures j <= r <= |t|
    decreases |t| - j
  {
    if j == |t| then j
    else if t[j] == '\\' && j + 1 < |t| then LiteralEnd(lang, t, quote, j + 2)
    else if t[j] == quote then j + 1
    else if t[j] == '\n' && quote != '`' then j
    else LiteralEnd(lang, t, quote, j + 1)
  }

  /** How many backslashes stand together just before `k`, counted back to `j` at most. */
  function Backslashes(t: string, j: nat, k: nat): (n: nat)
    requires j <= k <= |t|
  {
    if k == j || t[k - 1] != '\\' then 0 else 1 + Backslashes(t, j, k - 1)
  }

  /** The character at `k` closes a literal whose inside begins at `j`: not escaped, and its quote or a line's end. */
  predicate Closes(t: string, quote: char, j: nat, k: nat)
    requires j <= k < |t|
  {
    Backslashes(t, j, k) % 2 == 0 && (t[k] == quote || (t[k] == '\n' && quote != '`'))
  }

  lemma {:induction false} BackslashesAfterOther(t: string, j: nat, k: nat)
    requires j < k <= |t| && t[j] != '\\'
    ensures Backslashes(t, j, k) == Backslashes(t, j + 1, k)
  {
    if k > j + 1 { BackslashesAfterOther(t, j, k - 1); }
  }

  lemma {:induction false} BackslashesAfterPair(t: string, j: nat, k: nat)
    requires j + 2 <= k <= |t| && t[j] == '\\'
    ensures Backslashes(t, j, k) % 2 == Backslashes(t, j + 2, k) % 2
  {
    if k == j + 2 {
      assert Backslashes(t, j, j + 1) == 1 + Backslashes(t, j, j);
    } else {
      BackslashesAfterPair(t, j, k - 1);
    }
  }

  /** Nothing from `j` up to `k` closes the literal. */
  predicate OpenUntil(t: string, quote: char, j: nat, k: nat)
    requires j <= k <= |t|
  {
    forall m | j <= m < k :: !Closes(t, quote, j, m)
  }

  /** Just after the first closing quote, just before the first closing newline, or the text's end. */
  predicate IsLiteralEnd(t: string, quote: char, j: nat, r: nat)
    requires j <= r <= |t|
  {
    || (r > j && OpenUntil(t, quote, j, r - 1) && Closes(t, quote, j, r - 1) && t[r - 1] == quote)
    || (r < |t| && OpenUntil(t, quote, j, r) && Closes(t, quote, j, r) && t[r] != quote)
    || (r == |t| && OpenUntil(t, quote, j, r))
  }

  lemma EndAfterOther(t: string, quote: char, j: nat, r: nat)
    requires j < r <= |t| && t[j] != '\\' && !Closes(t, quote, j, j) && IsLiteralEnd(t, quote, j + 1, r)
    ensures IsLiteralEnd(t, quote, j, r)
  {
    forall k | j + 1 <= k < |t| ensures Closes(t, quote, j, k) <==> Closes(t, quote, j + 1, k) {
      BackslashesAfterOther(t, j, k);
    }
  }

  lemma EndAfterPair(t: string, quote: char, j: nat, r: nat)
    requires j + 2 <= r <= |t| && t[j] == '\\' != quote && IsLiteralEnd(t, quote, j + 2, r)
    ensures IsLiteralEnd(t, quote, j, r)
  {
    assert Backslashes(t, j, j + 1) == 1 + Backslashes(t, j, j) && !Closes(t, quote, j, j + 1);
    forall k | j + 2 <= k < |t| ensures Closes(t, quote, j, k) <==> Closes(t, quote, j + 2, k) {
      BackslashesAfterPair(t, j, k);
    }
  }

  /**
   * A literal ends after the first quote of its own kind that no odd run of backslashes escapes, or before
   * the first such newline, except between backquotes; or else with the text.
   */
  lemma {:induction false} LiteralEndIsFirst(lang: Language, t: string, quote: char, j: nat)
    requires j <= |t| && quote != '\\'
    ensures IsLiteralEnd(t, quote, j, LiteralEnd(lang, t, quote, j))
    decreases |t| - j
  {
    if j < |t| && t[j] == '\\' && j + 1 < |t| {
      LiteralEndIsFirst(lang, t, quote, j + 2);
      EndAfterPair(t, quote, j, LiteralEnd(lang, t, quote, j));
    } else if j < |t| && t[j] == '\\' {
      assert LiteralEnd(lang, t, quote, j) == j + 1 == |t|;
    } else if j < |t| && !Closes(t, quote, j, j) {
      LiteralEndIsFirst(lang, t, quote, j + 1);
      EndAfterOther(t, quote, j, LiteralEnd(lang, t, quote, j));
    }
  }

  function TokenAt(lang: Language, t: string, i: nat): (token: Token)
    requires i < |t|
    ensures i < token.end <= |t|
    ensures token.kind.Code? ==> token.end == i + 1
  {
    if LineStart(lang, t, i) then Token(Comment, NewlineFrom(t, i + 1))
    else if BlockStart(lang, t, i) then Token(Comment, CloseFrom(lang, t, t[i], i + MarkWidth(lang)))
    else if IsQuote(lang, t[i]) then Token(Literal, LiteralEnd(lang, t, t[i], i + 1))
    else Token(Code, i + 1)
  }

  function Blanked(s: string): (r: string)
    ensures |r| == |s|
    ensures forall k :: 0 <= k < |s| ==> r[k] == if s[k] == '\n' then '\n' else ' '
  {
    seq(|s|, k requires 0 <= k < |s| => if s[k] == '\n' then '\n' else ' ')
  }

  /** `" " * n` */
  function Spaces(n: nat): string { seq(n, _ => ' ') }

  function Rendered(kind: Kind, s: string): string {
    if kind == Comment then Blanked(s) else s
  }

  /** The recursive tokeniser that both loops refine. */
  function BlankFrom(lang: Language, t: string, i: nat): (r: string)
    requires i <= |t|
    ensures |r| == |t| - i
    decreases |t| - i
  {
    if i == |t| then ""
    else
      var token := TokenAt(lang, t, i);
      Rendered(token.kind, t[i..token.end]) + BlankFrom(lang, t, token.end)
  }

  function Blank(lang: Language, t: string): string { BlankFrom(lang, t, 0) }

  /** Appending the next token's rendering moves the scan past that token. */
  lemma NextToken(lang: Language, t: string, out: string, i: nat)
    requires i < |t|
    ensures var token := TokenAt(lang, t, i);
      (out + Rendered(token.kind, t[i..token.end])) + BlankFrom(lang, t, token.end) == out + BlankFrom(lang, t, i)
  {
  }

  lemma LineBlanks(t: string, i: nat)
    requires i < |t| && t[i] != '\n'
    ensures var end := NewlineFrom(t, i); end == NewlineFrom(t, i + 1) && Spaces(end - i) == Blanked(t[i..end])
  {
  }

  /** The inner loop, which finds the end of the literal that opens at `i`. */
  method ScanLiteral(lang: Language, text: string, i: nat) returns (j: nat)
    requires i < |text| && IsQuote(lang, text[i])
    ensures j == LiteralEnd(lang, text, text[i], i + 1)
  {
    var quote, n := text[i], |text|;
    j := i + 1;
    while j < n
      invariant i < j <= n
      invariant LiteralEnd(lang, text, quote, j) == LiteralEnd(lang, text, quote, i + 1)
    {
      if text[j] == '\\' && j + 1 < n {
        j := j + 2;
        continue;
      }
      if text[j] == quote {
        return j + 1;
      }
      if text[j] == '\n' && quote != '`' {
        return j;
      }
      j := j + 1;
    }
  }

  /** One pass of the outer loop: what is appended for the token at `i`, and where the next one begins. */
  method TsPiece(text: string, i: nat) returns (piece: string, end: nat)
    requires i < |text|
    ensures end == TokenAt(TypeScript, text, i).end
    ensures piece == Rendered(TokenAt(TypeScript, text, i).kind, text[i..end])
  {
    if Pair(text, i, '/', '/') {
      end := NewlineFrom(text, i);
      piece := Spaces(end - i);
      LineBlanks(text, i);
    } else if Pair(text, i, '/', '*') {
      end := CloseFrom(TypeScript, text, text[i], i + 2);
      piece := Blanked(text[i..end]);
    } else if IsQuote(TypeScript, text[i]) {
      end := ScanLiteral(TypeScript, text, i);
      piece := text[i..end];
    } else {
      end := i + 1;
      piece := [text[i]];
      assert piece == text[i..end];
    }
  }

  /** `_strip_ts_comments` */
  method StripTsComments(text: string) returns (out: string)
    ensures out == Blank(TypeScript, text)
  {
    out := "";
    var i, n := 0, |text|;
    while i < n
      invariant 0 <= i <= n
      invariant out + BlankFrom(TypeScript, text, i) == Blank(TypeScript, text)
    {
      var piece, end := TsPiece(text, i);
      NextToken(TypeScript, text, out, i);
      out := out + piece;
      i := end;
    }
  }

  lemma PythonToken(t: string, i: nat)
    requires i < |t|
    ensures t[i] == '#' ==> TokenAt(Python, t, i) == Token(Comment, NewlineFrom(t, i + 1))
    ensures Triple(t, i, '"') || Triple(t, i, '\'') ==>
      TokenAt(Python, t, i) == Token(Comment, CloseFrom(Python, t, t[i], i + 3))
    ensures t[i] != '#' && !Triple(t, i, '"') && !Triple(t, i, '\'') ==>
      TokenAt(Python, t, i) == if IsQuote(Python, t[i]) then Token(Literal, LiteralEnd(Python, t, t[i], i + 1))
                               else Token(Code, i + 1)
  {
  }

  method PyPiece(text: string, i: nat) returns (piece: string, end: nat)
    requires i < |text|
    ensures end == TokenAt(Python, text, i).end
    ensures piece == Rendered(TokenAt(Python, text, i).kind, text[i..end])
  {
    PythonToken(text, i);
    if text[i] == '#' {
      end := NewlineFrom(text, i);
      piece := Spaces(end - i);
      LineBlanks(text, i);
    } else if Triple(text, i, '"') || Triple(text, i, '\'') {
      end := CloseFrom(Python, text, text[i], i + 3);
      piece := Blanked(text[i..end]);
    } else if IsQuote(Python, text[i]) {
      end := ScanLiteral(Python, text, i);
      piece := text[i..end];
    } else {
      end := i + 1;
      piece := [text[i]];
      assert piece == text[i..end];
    }
  }

  /** `_strip_py_prose` */
  method StripPyProse(text: string) returns (out: string)
    ensures out == Blank(Python, text)
  {
    out := "";
    var i, n := 0, |text|;
    while i < n
      invariant 0 <= i <= n
      invariant out + BlankFrom(Python, text, i) == Blank(Python, text)
    {
      var piece, end := PyPiece(text, i);
      NextToken(Python, text, out, i);
      out := out + piece;
      i := end;
    }
  }

  /** `p` is where some token of `t` begins, scanning from the token start `i`. */
  predicate TokenStart(lang: Language, t: string, i: nat, p: nat)
    requires i <= |t|
    decreases |t| - i
  {
    p == i || (i < |t| && TokenStart(lang, t, TokenAt(lang, t, i).end, p))
  }

  /** The output from a token start is that token's rendering, then the output from the next token. */
  lemma SplitAtToken(lang: Language, t: string, out: string, i: nat)
    requires i < |t| == |out| && out[i..] == BlankFrom(lang, t, i)
    ensures var token := TokenAt(lang, t, i);
      && out[i..token.end] == Rendered(token.kind, t[i..token.end])
      && out[token.end..] == BlankFrom(lang, t, token.end)
  {
    var token := TokenAt(lang, t, i);
    var head, rest := Rendered(token.kind, t[i..token.end]), BlankFrom(lang, t, token.end);
    assert out[i..] == head + rest && |head| == token.end - i;
    assert out[i..token.end] == out[i..][..|head|] && out[token.end..] == out[i..][|head|..];
  }

  lemma {:induction false} TokensRendered(lang: Language, t: string, out: string, i: nat, p: nat)
    requires i <= |t| == |out| && out[i..] == BlankFrom(lang, t, i)
    requires TokenStart(lang, t, i, p) && p < |t|
    ensures var token := TokenAt(lang, t, p); out[p..token.end] == Rendered(token.kind, t[p..token.end])
    decreases |t| - i
  {
    if i < |t| {
      SplitAtToken(lang, t, out, i);
      if p != i { TokensRendered(lang, t, out, TokenAt(lang, t, i).end, p); }
    }
  }

  /** Every token of the output is the rendering of the input's token at the same place. */
  lemma TokenwiseOutput(lang: Language, t: string, p: nat)
    requires TokenStart(lang, t, 0, p) && p < |t|
    ensures var token := TokenAt(lang, t, p);
      Blank(lang, t)[p..token.end] == Rendered(token.kind, t[p..token.end])
  {
    var out := Blank(lang, t);
    assert out[0..] == out;
    TokensRendered(lang, t, out, 0, p);
  }

  lemma RenderedAt(lang: Language, t: string, p: nat, k: nat)
    requires TokenStart(lang, t, 0, p) && p <= k < |t| && k < TokenAt(lang, t, p).end
    ensures Blank(lang, t)[k]
         == if TokenAt(lang, t, p).kind == Comment then (if t[k] == '\n' then '\n' else ' ') else t[k]
  {
    var token, out := TokenAt(lang, t, p), Blank(lang, t);
    TokenwiseOutput(lang, t, p);
    assert out[k] == out[p..token.end][k - p] && t[k] == t[p..token.end][k - p];
  }

  /** The mark at `p` opens a comment to the end of the line, which `k` is still on. */
  predicate OnCommentLine(lang: Language, t: string, p: nat, k: nat)
    requires p <= k < |t|
  {
    (if lang.TypeScript? then "//" <= t[p..] else t[p] == '#') && '\n' !in t[p..k + 1]
  }

  /** The mark at `p` opens a block that is not closed before `k`. */
  predicate InBlock(lang: Language, t: string, p: nat, k: nat)
    requires p <= k < |t|
  {
    match lang
    case TypeScript => "/*" <= t[p..] && forall m | p + 2 <= m && m + 2 <= k :: !("*/" <= t[m..])
    case Python =>
      && t[p] in {'"', '\''} && [t[p], t[p], t[p]] <= t[p..]
      && forall m | p + 3 <= m && m + 3 <= k :: !([t[p], t[p], t[p]] <= t[m..])
  }

  lemma LineReaches(lang: Language, t: string, p: nat, k: nat)
    requires p <= k < |t| && OnCommentLine(lang, t, p, k)
    ensures TokenAt(lang, t, p).kind == Comment && k < TokenAt(lang, t, p).end
  {
    if lang.TypeScript? { assert t[p] == t[p..][0] && t[p + 1] == t[p..][1]; }
    assert LineStart(lang, t, p);
    assert forall m | p <= m <= k :: t[p..k + 1][m - p] == t[m] && t[m] != '\n';
  }

  lemma NotClosedBefore(lang: Language, t: string, p: nat, k: nat, m: nat)
    requires p <= k < |t| && InBlock(lang, t, p, k) && p + MarkWidth(lang) <= m && m + MarkWidth(lang) <= k
    ensures !BlockClose(lang, t, t[p], m)
  {
    if lang.TypeScript? {
      assert t[m..][0] == t[m] && t[m..][1] == t[m + 1];
    } else {
      assert t[m..][0] == t[m] && t[m..][1] == t[m + 1] && t[m..][2] == t[m + 2];
    }
  }

  lemma BlockReaches(lang: Language, t: string, p: nat, k: nat)
    requires p <= k < |t| && InBlock(lang, t, p, k)
    ensures TokenAt(lang, t, p).kind == Comment && k < TokenAt(lang, t, p).end
  {
    assert t[p] == t[p..][0] && t[p + 1] == t[p..][1] && (lang.Python? ==> t[p + 2] == t[p..][2]);
    assert BlockStart(lang, t, p) && !LineStart(lang, t, p);
    CloseIsFirst(lang, t, t[p], p + MarkWidth(lang));
    forall m: nat | p + MarkWidth(lang) <= m && m + MarkWidth(lang) <= k ensures !BlockClose(lang, t, t[p], m) {
      NotClosedBefore(lang, t, p, k, m);
    }
  }

  /** From a comment mark between tokens, everything to the end of the comment is blanked but its newlines. */
  lemma CommentsAreBlanked(lang: Language, t: string, p: nat, k: nat)
    requires TokenStart(lang, t, 0, p) && p <= k < |t| && (OnCommentLine(lang, t, p, k) || InBlock(lang, t, p, k))
    ensures Blank(lang, t)[k] == if t[k] == '\n' then '\n' else ' '
  {
    if OnCommentLine(lang, t, p, k) { LineReaches(lang, t, p, k); } else { BlockReaches(lang, t, p, k); }
    RenderedAt(lang, t, p, k);
  }

  /** No comment opens at `p`. */
  predicate NoMark(lang: Language, t: string, p: nat)
    requires p < |t|
  {
    match lang
    case TypeScript => !("//" <= t[p..]) && !("/*" <= t[p..])
    case Python => t[p] != '#' && !(t[p] in {'"', '\''} && [t[p], t[p], t[p]] <= t[p..])
  }

  /** The quote at `p` opens a literal that is not closed before `k`, nor ended by a newline there. */
  predicate InLiteral(lang: Language, t: string, p: nat, k: nat)
    requires p < k < |t|
  {
    && t[p] in (if lang.TypeScript? then {'"', '\'', '`'} else {'"', '\''})
    && OpenUntil(t, t[p], p + 1, k) && (Closes(t, t[p], p + 1, k) ==> t[k] == t[p])
  }

  lemma LiteralReaches(lang: Language, t: string, p: nat, k: nat)
    requires p < k < |t| && NoMark(lang, t, p) && InLiteral(lang, t, p, k)
    ensures TokenAt(lang, t, p).kind == Literal && k < TokenAt(lang, t, p).end
  {
    MarksAreRead(lang, t, p);
    LiteralEndIsFirst(lang, t, t[p], p + 1);
  }

  /** What is no comment is kept: a quoted literal up to what closes it, and any other character by itself. */
  lemma TheRestIsKept(lang: Language, t: string, p: nat, k: nat)
    requires TokenStart(lang, t, 0, p) && p <= k < |t| && NoMark(lang, t, p)
    requires p == k || InLiteral(lang, t, p, k)
    ensures Blank(lang, t)[k] == t[k]
  {
    MarksAreRead(lang, t, p);
    if p < k { LiteralReaches(lang, t, p, k); }
    RenderedAt(lang, t, p, k);
  }

  lemma MarksAreRead(lang: Language, t: string, p: nat)
    requires p < |t| && NoMark(lang, t, p)
    ensures !LineStart(lang, t, p) && !BlockStart(lang, t, p)
  {
    if p + 1 < |t| { assert t[p..][1] == t[p + 1]; }
    if p + 2 < |t| { assert t[p..][2] == t[p + 2]; }
  }

  /** An ordinary string literal comes out letter for letter, even when it holds a comment mark. */
  lemma LiteralsVerbatim(lang: Language, t: string, p: nat)
    requires TokenStart(lang, t, 0, p) && p < |t| && TokenAt(lang, t, p).kind == Literal
    ensures var end := TokenAt(lang, t, p).end; Blank(lang, t)[p..end] == t[p..end]
  {
    TokenwiseOutput(lang, t, p);
  }

  /** Each character is copied, or is a non-newline that became a space. */
  predicate Dims(t: string, out: string, i: nat) {
    |out| == |t| && forall k :: i <= k < |t| ==> out[k] == t[k] || (out[k] == ' ' && t[k] != '\n')
  }

  lemma {:induction false} BlankDims(lang: Language, t: string, i: nat)
    requires i <= |t|
    ensures forall k :: i <= k < |t| ==>
      var c := BlankFrom(lang, t, i)[k - i]; c == t[k] || (c == ' ' && t[k] != '\n')
    decreases |t| - i
  {
    if i < |t| {
      var token := TokenAt(lang, t, i);
      var head, rest := Rendered(token.kind, t[i..token.end]), BlankFrom(lang, t, token.end);
      BlankDims(lang, t, token.end);
      forall k | i <= k < |t|
        ensures var c := (head + rest)[k - i]; c == t[k] || (c == ' ' && t[k] != '\n')
      {
        if k < token.end {
          assert t[i..token.end][k - i] == t[k];
        } else {
          assert (head + rest)[k - i] == rest[k - token.end];
        }
      }
    }
  }

  /** The output has the input's length and its newlines at the same positions. */
  lemma LinesKept(lang: Language, t: string)
    ensures Dims(t, Blank(lang, t), 0)
    ensures forall k :: 0 <= k < |t| ==> (Blank(lang, t)[k] == '\n' <==> t[k] == '\n')
  {
    BlankDims(lang, t, 0);
    assert forall k :: 0 <= k < |t| ==> Blank(lang, t)[k] == BlankFrom(lang, t, 0)[k - 0];
  }

  /** No token from the token start `i` on is a comment. */
  predicate CommentFree(lang: Language, t: string, i: nat)
    requires i <= |t|
    decreases |t| - i
  {
    i == |t| || (TokenAt(lang, t, i).kind != Comment && CommentFree(lang, t, TokenAt(lang, t, i).end))
  }

  lemma {:induction false} SpacesAreCode(lang: Language, t: string, i: nat, end: nat)
    requires i <= end <= |t| && CommentFree(lang, t, end)
    requires forall k :: i <= k < end ==> t[k] == ' ' || t[k] == '\n'
    ensures CommentFree(lang, t, i)
    decreases end - i
  {
    if i < end {
      SpacesAreCode(lang, t, i + 1, end);
      assert TokenAt(lang, t, i) == Token(Code, i + 1);
    }
  }

  lemma {:induction false} LiteralEndStable(lang: Language, t: string, out: string, quote: char, j: nat)
    requires j <= |t| && Dims(t, out, j)
    requires forall k :: j <= k < LiteralEnd(lang, t, quote, j) ==> out[k] == t[k]
    ensures LiteralEnd(lang, out, quote, j) == LiteralEnd(lang, t, quote, j)
    decreases |t| - j
  {
    if j < |t| {
      if t[j] == '\\' && j + 1 < |t| {
        LiteralEndStable(lang, t, out, quote, j + 2);
      } else if t[j] != quote && !(t[j] == '\n' && quote != '`') {
        LiteralEndStable(lang, t, out, quote, j + 1);
      }
    }
  }

  /** Dimming never creates a comment mark: a mark in the output was a mark in the input. */
  lemma NoNewMarks(lang: Language, t: string, out: string, i: nat)
    requires i < |t| && Dims(t, out, i)
    ensures LineStart(lang, out, i) ==> LineStart(lang, t, i)
    ensures BlockStart(lang, out, i) ==> BlockStart(lang, t, i)
  {
  }

  lemma {:induction false} OutputCommentFree(lang: Language, t: string, out: string, i: nat)
    requires i <= |t| && Dims(t, out, i) && out[i..] == BlankFrom(lang, t, i)
    ensures CommentFree(lang, out, i)
    decreases |t| - i
  {
    if i < |t| {
      var token := TokenAt(lang, t, i);
      SplitAtToken(lang, t, out, i);
      OutputCommentFree(lang, t, out, token.end);
      var piece := Rendered(token.kind, t[i..token.end]);
      forall k | i <= k < token.end
        ensures out[k] == piece[k - i] && t[i..token.end][k - i] == t[k]
      {
        assert out[i..token.end][k - i] == out[k];
      }
      if token.kind == Comment {
        SpacesAreCode(lang, out, i, token.end);
      } else {
        NoNewMarks(lang, t, out, i);
        assert out[i] == t[i];
        if token.kind == Literal { LiteralEndStable(lang, t, out, t[i], i + 1); }
      }
    }
  }

  lemma {:induction false} CommentFreeIsKept(lang: Language, t: string, i: nat)
    requires i <= |t| && CommentFree(lang, t, i)
    ensures BlankFrom(lang, t, i) == t[i..]
    decreases |t| - i
  {
    if i < |t| {
      var token := TokenAt(lang, t, i);
      CommentFreeIsKept(lang, t, token.end);
      assert t[i..] == t[i..token.end] + t[token.end..];
    }
  }

  /** The output holds no comment at all, so blanking a second time changes nothing. */
  lemma Idempotent(lang: Language, t: string)
    ensures CommentFree(lang, Blank(lang, t), 0)
    ensures Blank(lang, Blank(lang, t)) == Blank(lang, t)
  {
    var out := Blank(lang, t);
    LinesKept(lang, t);
    assert out[0..] == out;
    OutputCommentFree(lang, t, out, 0);
    CommentFreeIsKept(lang, out, 0);
  }
}
