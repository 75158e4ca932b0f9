/** The lexer of the validator: a cursor over the input text that yields one token per call.

    The cursor is a character index into the input. Each character the lexer looks at, whitespace
    included, moves the cursor on by one. A call yields no token in three cases: the input is used up,
    the first non-whitespace character is not one the lexer knows, or a string literal never closes.
 */
module JsonTokenizer {
  import opened Wrappers

  /** One lexical unit. `String` carries the characters between the quotes, with no escapes applied. */
  datatype Token =
    | OpenObject
    | CloseObject
    | String(text: string)
    | KeyValueSeparator
    | FieldSeparator

  /** The outcome of one `get_next` call: the token, if any, and the cursor after the call. */
  datatype Lexed = Lexed(token: Option<Token>, position: nat)

  /** Rust's `char::is_whitespace`: the characters with the Unicode White_Space property. None of
      the characters the lexer classifies is among them. */
  predicate IsWhitespace(c: char): (b: bool)
    ensures b ==> c != '{' && c != '}' && c != '"' && c != ':' && c != ','
  {
    var n := c as int;
    || n == 0x20
    || 0x09 <= n <= 0x0D
    || n == 0x85
    || n == 0xA0
    || n == 0x1680
    || 0x2000 <= n <= 0x200A
    || n == 0x2028
    || n == 0x2029
    || n == 0x202F
    || n == 0x205F
    || n == 0x3000
  }

  /** Among ASCII characters the whitespace is space, tab, line feed, vertical tab, form feed and
      carriage return: the White_Space property includes the vertical tab, unlike
      `char::is_ascii_whitespace`. */
  lemma WhitespaceOfAscii(c: char)
    requires (c as int) < 0x80
    ensures IsWhitespace(c) <==> c == ' ' || c == '\t' || c == '\n' || c == '\r' || (c as int) == 0x0B || (c as int) == 0x0C
  {
  }

  /** Every character of `w` is whitespace. */
  predicate Blank(w: string) {
    forall i | 0 <= i < |w| :: IsWhitespace(w[i])
  }

  /** `t` holds no double quote, so it can stand between two quotes as one string literal. */
  predicate NoQuote(t: string) {
    forall i | 0 <= i < |t| :: t[i] != '"'
  }

  /** The string-literal sub-scan (`get_string`). The cursor `pos` is just past the opening quote and
      `acc` holds the characters collected so far. The literal ends at the first later quote; without
      one the scan runs to the end of the input and yields nothing.
   */
  function ScanString(s: string, pos: nat, acc: string): (r: Lexed)
    requires pos <= |s|
    ensures pos <= r.position <= |s|
    ensures r.token.Some? ==>
      && pos < r.position
      && s[r.position - 1] == '"'
      && NoQuote(s[pos..r.position - 1])
      && r.token.value == String(acc + s[pos..r.position - 1])
    ensures r.token.None? ==> r.position == |s| && NoQuote(s[pos..])
    decreases |s| - pos
  {
    if pos == |s| then Lexed(None, pos)
    else if s[pos] == '"' then
      assert acc + s[pos..pos] == acc;
      Lexed(Some(String(acc)), pos + 1)
    else
      var rest := ScanString(s, pos + 1, acc + [s[pos]]);
      ScanStringStep(s, pos, if rest.token.Some? then rest.position - 1 else |s|, acc);
      rest
  }

  /** One more non-quote character in front of a quote-free stretch: the stretch stays quote-free,
      and the character moves from the text into the accumulator. */
  lemma ScanStringStep(s: string, pos: nat, e: nat, acc: string)
    requires pos < e <= |s| && s[pos] != '"'
    ensures NoQuote(s[pos + 1..e]) ==> NoQuote(s[pos..e])
    ensures (acc + [s[pos]]) + s[pos + 1..e] == acc + s[pos..e]
  {
    assert s[pos..e] == [s[pos]] + s[pos + 1..e];
  }

  /** One `get_next` call from cursor `pos`: skip whitespace, then classify the first other character. */
  function Next(s: string, pos: nat): (r: Lexed)
    ensures pos <= r.position
    ensures pos <= |s| ==> r.position <= |s|
    ensures r.token.Some? ==> pos < r.position <= |s|
    ensures |s| <= pos ==> r == Lexed(None, pos)
    decreases |s| - pos
  {
    if |s| <= pos then Lexed(None, pos)
    else if IsWhitespace(s[pos]) then Next(s, pos + 1)
    else match s[pos]
      case '{' => Lexed(Some(OpenObject), pos + 1)
      case '}' => Lexed(Some(CloseObject), pos + 1)
      case '"' => ScanString(s, pos + 1, [])
      case ':' => Lexed(Some(KeyValueSeparator), pos + 1)
      case ',' => Lexed(Some(FieldSeparator), pos + 1)
      case _ => Lexed(None, pos + 1)
  }

  /** The tokens a caller pulls from cursor `pos` until the first call that yields none. */
  function Tokens(s: string, pos: nat): (ts: seq<Token>)
    ensures pos <= |s| ==> pos + |ts| <= |s|
    ensures |s| <= pos ==> ts == []
    decreases |s| - pos
  {
    var r := Next(s, pos);
    if r.token.None? then [] else [r.token.value] + Tokens(s, r.position)
  }

  // ---------------------------------------------------------------------------------------------
  // What one call yields, case by case
  // ---------------------------------------------------------------------------------------------

  /** Whitespace in front of the cursor is skipped without changing what the call yields. */
  lemma {:induction false} NextSkipsWhitespace(s: string, pos: nat, k: nat)
    requires pos <= k <= |s|
    requires Blank(s[pos..k])
    ensures Next(s, pos) == Next(s, k)
    decreases k - pos
  {
    if pos < k {
      assert s[pos..k][0] == s[pos];
      assert s[pos + 1..k] == s[pos..k][1..];
      NextSkipsWhitespace(s, pos + 1, k);
    }
  }

  /** Empty or all-whitespace remaining input yields no token and leaves the cursor at the end. */
  lemma NextAtEnd(s: string, pos: nat)
    requires pos <= |s|
    requires Blank(s[pos..])
    ensures Next(s, pos) == Lexed(None, |s|)
  {
    NextSkipsWhitespace(s, pos, |s|);
  }

  /** A structural character after whitespace yields its token, with the cursor one past it. */
  lemma NextPunctuation(s: string, pos: nat, k: nat)
    requires pos <= k < |s|
    requires Blank(s[pos..k])
    ensures s[k] == '{' ==> Next(s, pos) == Lexed(Some(OpenObject), k + 1)
    ensures s[k] == '}' ==> Next(s, pos) == Lexed(Some(CloseObject), k + 1)
    ensures s[k] == ':' ==> Next(s, pos) == Lexed(Some(KeyValueSeparator), k + 1)
    ensures s[k] == ',' ==> Next(s, pos) == Lexed(Some(FieldSeparator), k + 1)
  {
    NextSkipsWhitespace(s, pos, k);
  }

  /** Any other character after whitespace yields no token and is itself consumed. */
  lemma NextUnknown(s: string, pos: nat, k: nat)
    requires pos <= k < |s|
    requires Blank(s[pos..k])
    requires !IsWhitespace(s[k]) && s[k] !in "{}\":,"
    ensures Next(s, pos) == Lexed(None, k + 1)
  {
    NextSkipsWhitespace(s, pos, k);
  }

  /** A quote after whitespace opens a literal that runs to the next quote, taken verbatim. */
  lemma NextString(s: string, pos: nat, k: nat, q: nat)
    requires pos <= k < q < |s|
    requires Blank(s[pos..k])
    requires s[k] == '"' && s[q] == '"' && NoQuote(s[k + 1..q])
    ensures Next(s, pos) == Lexed(Some(String(s[k + 1..q])), q + 1)
  {
    NextSkipsWhitespace(s, pos, k);
    NextAtQuote(s, k);
    ScanStringToQuote(s, k + 1, q);
  }

  /** A call whose cursor is at a quote hands over to the string scan just after it. */
  lemma NextAtQuote(s: string, k: nat)
    requires k < |s| && s[k] == '"'
    ensures Next(s, k) == ScanString(s, k + 1, [])
  {
    assert !IsWhitespace(s[k]);
  }

  /** The string scan from `a` stops at the first quote `q` and yields the text in between. */
  lemma ScanStringToQuote(s: string, a: nat, q: nat)
    requires a <= q < |s| && s[q] == '"' && NoQuote(s[a..q])
    ensures ScanString(s, a, []) == Lexed(Some(String(s[a..q])), q + 1)
  {
    var r := ScanString(s, a, []);
    assert r.token.Some? by {
      assert s[a..][q - a] == s[q];
    }
    NoQuoteAt(s, a, r.position - 1, q);
    NoQuoteAt(s, a, q, r.position - 1);
    assert [] + s[a..q] == s[a..q];
  }

  /** A quote-free stretch holds no quote at any of its indices. */
  lemma NoQuoteAt(s: string, a: nat, e: nat, i: nat)
    requires a <= e <= |s| && NoQuote(s[a..e]) && a <= i < |s|
    ensures i < e ==> s[i] != '"'
  {
    if i < e {
      assert s[a..e][i - a] == s[i];
    }
  }

  /** A quote with no later quote yields no token and moves the cursor to the end of the input. */
  lemma NextUnterminated(s: string, pos: nat, k: nat)
    requires pos <= k < |s|
    requires Blank(s[pos..k])
    requires s[k] == '"' && NoQuote(s[k + 1..])
    ensures Next(s, pos) == Lexed(None, |s|)
  {
    NextSkipsWhitespace(s, pos, k);
  }

  // ---------------------------------------------------------------------------------------------
  // The lexer looks only at the text from the cursor up to the end of the token it yields
  // ---------------------------------------------------------------------------------------------

  lemma {:induction false} ScanStringShift(p: string, s: string, pos: nat, acc: string)
    requires pos <= |s|
    ensures ScanString(p + s, |p| + pos, acc)
         == Lexed(ScanString(s, pos, acc).token, |p| + ScanString(s, pos, acc).position)
    decreases |s| - pos
  {
    if pos < |s| {
      assert (p + s)[|p| + pos] == s[pos];
      if s[pos] != '"' {
        var acc' := acc + [s[pos]];
        assert ScanString(p + s, |p| + pos, acc) == ScanString(p + s, |p| + pos + 1, acc');
        assert ScanString(s, pos, acc) == ScanString(s, pos + 1, acc');
        ScanStringShift(p, s, pos + 1, acc');
      }
    }
  }

  lemma {:induction false} NextShift(p: string, s: string, pos: nat)
    ensures Next(p + s, |p| + pos) == Lexed(Next(s, pos).token, |p| + Next(s, pos).position)
    decreases |s| - pos
  {
    if pos < |s| {
      assert (p + s)[|p| + pos] == s[pos];
      if IsWhitespace(s[pos]) {
        NextShift(p, s, pos + 1);
      } else if s[pos] == '"' {
        ScanStringShift(p, s, pos + 1, []);
      }
    }
  }

  /** Leading whitespace does not change which token comes first; it only moves the cursor on. */
  lemma NextIgnoresLeadingWhitespace(w: string, s: string)
    requires Blank(w)
    ensures Next(w + s, 0) == Lexed(Next(s, 0).token, |w| + Next(s, 0).position)
  {
    assert (w + s)[0..|w|] == w;
    NextSkipsWhitespace(w + s, 0, |w|);
    NextShift(w, s, 0);
  }

  lemma {:induction false} ScanStringExtend(s: string, t: string, pos: nat, acc: string)
    requires pos <= |s|
    requires ScanString(s, pos, acc).token.Some?
    ensures ScanString(s + t, pos, acc) == ScanString(s, pos, acc)
    decreases |s| - pos
  {
    assert (s + t)[pos] == s[pos];
    if s[pos] != '"' {
      ScanStringExtend(s, t, pos + 1, acc + [s[pos]]);
    }
  }

  /** Once a call yields a token, text appended after the input cannot change that call. */
  lemma {:induction false} NextExtend(s: string, t: string, pos: nat)
    requires Next(s, pos).token.Some?
    ensures Next(s + t, pos) == Next(s, pos)
    decreases |s| - pos
  {
    assert (s + t)[pos] == s[pos];
    if IsWhitespace(s[pos]) {
      NextExtend(s, t, pos + 1);
    } else if s[pos] == '"' {
      ScanStringExtend(s, t, pos + 1, []);
    }
  }

  lemma {:induction false} TokensShift(p: string, s: string, pos: nat)
    ensures Tokens(p + s, |p| + pos) == Tokens(s, pos)
    decreases |s| - pos
  {
    NextShift(p, s, pos);
    var r := Next(s, pos);
    if r.token.Some? {
      TokensShift(p, s, r.position);
    }
  }

  /** The tokens pulled from a text stay, in order, at the head of those pulled from any extension. */
  lemma {:induction false} TokensExtend(s: string, t: string, pos: nat)
    ensures Tokens(s, pos) <= Tokens(s + t, pos)
    decreases |s| - pos
  {
    var r := Next(s, pos);
    if r.token.Some? {
      NextExtend(s, t, pos);
      TokensExtend(s, t, r.position);
    }
  }

  // ---------------------------------------------------------------------------------------------
  // Writing tokens out and lexing them back
  // ---------------------------------------------------------------------------------------------

  /** The textual form of a token. */
  function Render(t: Token): string {
    match t
    case OpenObject => "{"
    case CloseObject => "}"
    case String(x) => "\"" + x + "\""
    case KeyValueSeparator => ":"
    case FieldSeparator => ","
  }

  /** A token the lexer can give back from its textual form: a string literal must hold no quote. */
  predicate Lexable(t: Token) {
    t.String? ==> NoQuote(t.text)
  }

  /** Tokens written one after the other, each preceded by its own run of whitespace `pads[i]`,
      and the text closed by the whitespace `pads[|ts|]`. */
  function Layout(ts: seq<Token>, pads: seq<string>): string
    requires |pads| == |ts| + 1
  {
    if ts == [] then pads[0] else pads[0] + Render(ts[0]) + Layout(ts[1..], pads[1..])
  }

  /** The first token written out, followed by anything, is what the lexer yields first. */
  lemma NextOfRender(t: Token, rest: string)
    requires Lexable(t)
    ensures Next(Render(t) + rest, 0) == Lexed(Some(t), |Render(t)|)
  {
    var u := Render(t);
    if t.String? {
      NextString(u, 0, 0, |u| - 1);
      assert u[1..|u| - 1] == t.text;
    } else {
      NextPunctuation(u, 0, 0);
    }
    NextExtend(u, rest, 0);
  }

  /** Whitespace in front of a text does not change the tokens pulled from it. */
  lemma TokensOfPad(w: string, t: string)
    requires Blank(w)
    ensures Tokens(w + t, 0) == Tokens(t, 0)
  {
    PrefixOfAppend(w, t);
    TokensSkipWhitespace(w + t, 0, |w|);
    TokensShift(w, t, 0);
    assert Tokens(w + t, |w|) == Tokens(t, 0);
  }

  /** The first `|xs|` elements of `xs + ys` are `xs`. */
  lemma PrefixOfAppend<T>(xs: seq<T>, ys: seq<T>)
    ensures (xs + ys)[0..|xs|] == xs
  {
  }

  /** Whitespace in front of the cursor does not change the tokens pulled from it. */
  lemma TokensSkipWhitespace(s: string, pos: nat, k: nat)
    requires pos <= k <= |s| && Blank(s[pos..k])
    ensures Tokens(s, pos) == Tokens(s, k)
  {
    NextSkipsWhitespace(s, pos, k);
    TokensOfSameFirst(s, pos, k);
  }

  /** Two cursors at which a call yields the same outcome pull the same tokens. */
  lemma TokensOfSameFirst(s: string, i: nat, j: nat)
    requires Next(s, i) == Next(s, j)
    ensures Tokens(s, i) == Tokens(s, j)
  {
  }

  /** When the first call on `p + t` yields `tok` and stops right after `p`, the rest is `t`'s. */
  lemma TokensAfterFirst(p: string, t: string, tok: Token)
    requires Next(p + t, 0) == Lexed(Some(tok), |p|)
    ensures Tokens(p + t, 0) == [tok] + Tokens(t, 0)
  {
    TokensShift(p, t, 0);
  }

  /** A token written out after whitespace is pulled first; the rest of the text is lexed on its own. */
  lemma TokensOfPaddedToken(w: string, tok: Token, rest: string)
    requires Blank(w) && Lexable(tok)
    ensures Tokens(w + Render(tok) + rest, 0) == [tok] + Tokens(rest, 0)
  {
    var u := Render(tok);
    NextOfRender(tok, rest);
    NextIgnoresLeadingWhitespace(w, u + rest);
    assert w + (u + rest) == (w + u) + rest;
    TokensAfterFirst(w + u, rest, tok);
  }

  /** Lexing a layout of quote-free tokens, with any whitespace around them, gives the tokens back;
      whatever text follows the layout is lexed on its own after them. */
  lemma {:induction false} TokensOfLayoutThen(ts: seq<Token>, pads: seq<string>, t: string)
    requires |pads| == |ts| + 1
    requires forall tok | tok in ts :: Lexable(tok)
    requires forall i | 0 <= i < |pads| :: Blank(pads[i])
    ensures Tokens(Layout(ts, pads) + t, 0) == ts + Tokens(t, 0)
  {
    if ts == [] {
      TokensOfPad(pads[0], t);
    } else {
      var w, u := pads[0], Render(ts[0]);
      var rest := Layout(ts[1..], pads[1..]);
      assert Layout(ts, pads) == w + u + rest;
      assert Layout(ts, pads) + t == w + u + (rest + t);
      assert ts[0] in ts;
      TokensOfPaddedToken(w, ts[0], rest + t);
      assert forall i | 0 <= i < |pads[1..]| :: pads[1..][i] == pads[i + 1];
      TokensOfLayoutThen(ts[1..], pads[1..], t);
      ConsAppend(ts, Tokens(t, 0));
    }
  }

  /** Splitting off the head of a non-empty sequence in front of an append. */
  lemma ConsAppend<T>(xs: seq<T>, ys: seq<T>)
    requires xs != []
    ensures [xs[0]] + (xs[1..] + ys) == xs + ys
  {
    assert xs == [xs[0]] + xs[1..];
  }

  // ---------------------------------------------------------------------------------------------
  // The cursor loops as the source writes them
  // ---------------------------------------------------------------------------------------------

  /** `get_next`: advances the cursor over whitespace, one character per step, and classifies the
      first other character it meets. */
  method GetNext(s: string, position: nat) returns (token: Option<Token>, cursor: nat)
    ensures Lexed(token, cursor) == Next(s, position)
  {
    cursor := position;
    while cursor < |s|
      invariant position <= cursor
      invariant Next(s, cursor) == Next(s, position)
      decreases |s| - cursor
    {
      var nextChar := s[cursor];
      cursor := cursor + 1;
      if IsWhitespace(nextChar) {
        continue;
      }
      match nextChar {
        case '{' => token := Some(OpenObject);
        case '}' => token := Some(CloseObject);
        case '"' => token, cursor := GetString(s, cursor);
        case ':' => token := Some(KeyValueSeparator);
        case ',' => token := Some(FieldSeparator);
        case _ => token := None;
      }
      return;
    }
    token := None;
  }

  /** `get_string`: walks the input from the cursor, collecting characters until a closing quote. */
  method GetString(s: string, position: nat) returns (token: Option<Token>, cursor: nat)
    requires position <= |s|
    ensures Lexed(token, cursor) == ScanString(s, position, [])
  {
    ghost var scanned := ScanString(s, position, []);
    cursor := position;
    var tokenString: string := [];
    var endStringFound := false;
    while cursor < |s|
      invariant position <= cursor <= |s|
      invariant !endStringFound ==> ScanString(s, cursor, tokenString) == scanned
      invariant endStringFound ==> Lexed(Some(String(tokenString)), cursor) == scanned
      decreases |s| - cursor
    {
      var curr := s[cursor];
      cursor := cursor + 1;
      if curr == '"' {
        endStringFound := true;
        break;
      }
      tokenString := tokenString + [curr];
    }
    if endStringFound {
      token := Some(String(tokenString));
    } else {
      token := None;
    }
  }
}
