/** The validator: a five-state machine driven by the tokenizer.

    `Parse` pulls tokens from a fresh cursor at position 0. No first token is the `Empty` error.
    Otherwise each token makes exactly one transition, the first illegal transition ends the run with
    its error, and when the tokens run out the input is accepted only in state `Default`. The success
    payload is the unit value: the source's object type has no content.
 */
module JsonParser {
  import opened Wrappers
  import opened JsonTokenizer

  datatype ParserError =
    | Empty
    | InvalidObject
    | InvalidString
    | InvalidKeyValueSeparator
    | InvalidFieldSeparator

  datatype State = Default | Object | Key | Value | ExpectingKey

  // ---------------------------------------------------------------------------------------------
  // The transition table
  // ---------------------------------------------------------------------------------------------

  /** The kind of a token, forgetting the text of a string literal. */
  datatype Kind = Open | Close | Str | Colon | Comma

  function KindOf(t: Token): Kind {
    match t
    case OpenObject => Open
    case CloseObject => Close
    case String(_) => Str
    case KeyValueSeparator => Colon
    case FieldSeparator => Comma
  }

  /** The legal transitions, one entry per (state, token kind) pair the validator accepts. */
  const Transitions: map<(State, Kind), State> := map[
    (Default, Open) := Object,
    (Object, Open) := Object,
    (Key, Open) := Object,
    (Value, Open) := Object,
    (ExpectingKey, Open) := Object,
    (Object, Close) := Default,
    (Object, Str) := Key,
    (ExpectingKey, Str) := Key,
    (Value, Str) := Object,
    (Key, Colon) := Value,
    (Object, Comma) := ExpectingKey
  ]

  /** The error reported when a token arrives in a state that has no entry for its kind. */
  function MismatchError(k: Kind): ParserError
    requires k != Open
  {
    match k
    case Close => InvalidObject
    case Str => InvalidString
    case Colon => InvalidKeyValueSeparator
    case Comma => InvalidFieldSeparator
  }

  /** One pass of the loop body: the transition the validator makes on one token. */
  function Step(st: State, tok: Token): (r: Result<State, ParserError>)
    ensures r != Err(Empty)
    ensures r == Ok(Default) <==> st == Object && tok == CloseObject
  {
    match tok
    case OpenObject => Ok(Object)
    case CloseObject =>
      (match st
       case Object => Ok(Default)
       case _ => Err(InvalidObject))
    case String(_) =>
      (match st
       case Object => Ok(Key)
       case ExpectingKey => Ok(Key)
       case Value => Ok(Object)
       case _ => Err(InvalidString))
    case KeyValueSeparator =>
      (match st
       case Key => Ok(Value)
       case _ => Err(InvalidKeyValueSeparator))
    case FieldSeparator =>
      (match st
       case Object => Ok(ExpectingKey)
       case _ => Err(InvalidFieldSeparator))
  }

  /** The match arms agree with the transition table: a listed pair moves to its entry, and any
      other pair is rejected with the error of the token's kind. An opening brace is listed in
      every state, so it is never rejected. */
  lemma StepFollowsTable(st: State, tok: Token)
    ensures (st, KindOf(tok)) in Transitions ==> Step(st, tok) == Ok(Transitions[(st, KindOf(tok))])
    ensures (st, KindOf(tok)) !in Transitions ==>
      tok != OpenObject && Step(st, tok) == Err(MismatchError(KindOf(tok)))
  {
  }

  // ---------------------------------------------------------------------------------------------
  // The validator over the input text
  // ---------------------------------------------------------------------------------------------

  /** The check after the loop: only `Default` is an accepting state. */
  function Finish(st: State): (r: Result<(), ParserError>) {
    if st != Default then Err(InvalidObject) else Ok(())
  }

  /** The loop from cursor `pos` in state `st`: pull a token; none ends the loop; otherwise make
      its transition, stopping at the first illegal one. */
  function Run(s: string, pos: nat, st: State): (r: Result<(), ParserError>)
    ensures r != Err(Empty)
    decreases |s| - pos
  {
    var next := Next(s, pos);
    if next.token.None? then Finish(st)
    else
      match Step(st, next.token.value)
      case Err(e) => Err(e)
      case Ok(st') => Run(s, next.position, st')
  }

  /** `Parser::parse`: a fresh cursor at 0, the `Empty` check on the first token, then the loop. */
  function Parse(s: string): (r: Result<(), ParserError>)
    ensures r == Err(Empty) <==> Next(s, 0).token.None?
  {
    if Next(s, 0).token.None? then Err(Empty) else Run(s, 0, Default)
  }

  // ---------------------------------------------------------------------------------------------
  // The validator as a fold over the token stream
  // ---------------------------------------------------------------------------------------------

  /** The transitions applied to the tokens `ts` in turn from state `st`: the state reached, or the
      error of the first illegal transition. */
  function Fold(ts: seq<Token>, st: State): (r: Result<State, ParserError>)
    ensures r != Err(Empty)
    ensures ts != [] && r == Ok(Default) ==> ts[|ts| - 1] == CloseObject
  {
    if ts == [] then Ok(st)
    else
      match Step(st, ts[0])
      case Err(e) => Err(e)
      case Ok(st') => Fold(ts[1..], st')
  }

  /** The verdict once the token stream has ended, given what the fold reached. */
  function Conclude(f: Result<State, ParserError>): Result<(), ParserError> {
    match f
    case Err(e) => Err(e)
    case Ok(st) => Finish(st)
  }

  /** The loop is the fold of the transitions over the tokens the cursor yields, then the final check. */
  lemma {:induction false} RunIsFold(s: string, pos: nat, st: State)
    ensures Run(s, pos, st) == Conclude(Fold(Tokens(s, pos), st))
    decreases |s| - pos
  {
    var next := Next(s, pos);
    if next.token.Some? {
      var ts := Tokens(s, pos);
      assert ts[0] == next.token.value;
      assert ts[1..] == Tokens(s, next.position);
      if Step(st, next.token.value).Ok? {
        RunIsFold(s, next.position, Step(st, next.token.value).value);
      }
    }
  }

  /** Parsing is: `Empty` when there is no token at all, otherwise the fold of the transitions over
      the whole token stream from `Default`, then the final-state check. */
  lemma ParseIsFold(s: string)
    ensures Parse(s) == if Tokens(s, 0) == [] then Err(Empty) else Conclude(Fold(Tokens(s, 0), Default))
  {
    RunIsFold(s, 0, Default);
  }

  /** The final check: an input is accepted exactly when it has tokens and their transitions are all
      legal and end in `Default`; legal transitions ending in any other state give `InvalidObject`. */
  lemma ParseVerdict(s: string)
    ensures Parse(s) == Ok(()) <==> Tokens(s, 0) != [] && Fold(Tokens(s, 0), Default) == Ok(Default)
    ensures Tokens(s, 0) != [] && Fold(Tokens(s, 0), Default).Ok? && Fold(Tokens(s, 0), Default) != Ok(Default)
      ==> Parse(s) == Err(InvalidObject)
  {
    ParseIsFold(s);
  }

  /** Folding a concatenation is folding the first part, then the second from where the first ended;
      an error in the first part is the result, whatever follows. */
  lemma {:induction false} FoldAppend(ts: seq<Token>, us: seq<Token>, st: State)
    ensures Fold(ts + us, st) == match Fold(ts, st) case Err(e) => Err(e) case Ok(m) => Fold(us, m)
  {
    if ts != [] {
      assert (ts + us)[0] == ts[0];
      assert (ts + us)[1..] == ts[1..] + us;
      if Step(st, ts[0]).Ok? {
        FoldAppend(ts[1..], us, Step(st, ts[0]).value);
      }
    } else {
      assert ts + us == us;
    }
  }

  // ---------------------------------------------------------------------------------------------
  // Properties of the verdict
  // ---------------------------------------------------------------------------------------------

  /** The empty input and input of whitespace only are rejected with `Empty`. */
  lemma ParseBlank(s: string)
    requires Blank(s)
    ensures Parse(s) == Err(Empty)
  {
    assert s[0..] == s;
    NextAtEnd(s, 0);
  }

  /** An accepted input lexes to a non-empty token stream that opens with `{` and closes with `}`. */
  lemma ParseAcceptedShape(s: string)
    requires Parse(s) == Ok(())
    ensures Tokens(s, 0) != []
    ensures Tokens(s, 0)[0] == OpenObject
    ensures Tokens(s, 0)[|Tokens(s, 0)| - 1] == CloseObject
  {
    ParseIsFold(s);
  }

  /** Once a transition is illegal the verdict is fixed: no text appended after the input changes it,
      because no further token is pulled. */
  lemma ParseStopsAtFirstError(s: string, t: string)
    requires Fold(Tokens(s, 0), Default).Err?
    ensures Parse(s + t) == Parse(s)
    ensures Parse(s) == Err(Fold(Tokens(s, 0), Default).error)
  {
    var ts := Tokens(s, 0);
    var us := Tokens(s + t, 0);
    TokensExtend(s, t, 0);
    assert us == ts + us[|ts|..];
    FoldAppend(ts, us[|ts|..], Default);
    ParseIsFold(s);
    ParseIsFold(s + t);
  }

  /** An opening brace restarts the object from any state the run has reached: everything folded
      before it is forgotten. The lemma does not recurse: `{:induction false}` only stops Dafny from
      trying induction on the sequences by itself, since the proof goes through `FoldAppend`. */
  lemma {:induction false} OpenObjectResets(ts: seq<Token>, us: seq<Token>, st: State)
    requires Fold(ts, st).Ok?
    ensures Fold(ts + [OpenObject] + us, st) == Fold(us, Object)
  {
    var tail := [OpenObject] + us;
    assert ts + [OpenObject] + us == ts + tail;
    FoldAppend(ts, tail, st);
    assert tail[0] == OpenObject && tail[1..] == us;
    assert Fold(tail, Fold(ts, st).value) == Fold(us, Object);
  }

  // ---------------------------------------------------------------------------------------------
  // Every object of the supported grammar is accepted
  // ---------------------------------------------------------------------------------------------

  /** A key/value pair `"k":"v"` as tokens. */
  function PairTokens(m: (string, string)): seq<Token> {
    [String(m.0), KeyValueSeparator, String(m.1)]
  }

  /** The pairs after the first, each introduced by a field separator. */
  function MoreTokens(ms: seq<(string, string)>): seq<Token> {
    if ms == [] then [] else [FieldSeparator] + PairTokens(ms[0]) + MoreTokens(ms[1..])
  }

  /** The tokens of the object `{"k1":"v1","k2":"v2",...}` with the pairs `ms`. */
  function ObjectTokens(ms: seq<(string, string)>): seq<Token> {
    if ms == [] then [OpenObject, CloseObject]
    else [OpenObject] + PairTokens(ms[0]) + MoreTokens(ms[1..]) + [CloseObject]
  }

  /** Keys and values the lexer can carry: no double quote inside. */
  predicate QuoteFree(ms: seq<(string, string)>) {
    forall i | 0 <= i < |ms| :: NoQuote(ms[i].0) && NoQuote(ms[i].1)
  }

  /** A key/value pair is accepted where a key may start, and leaves the validator in `Object`. */
  lemma FoldPairTokens(m: (string, string), st: State)
    requires st == Object || st == ExpectingKey
    ensures Fold(PairTokens(m), st) == Ok(Object)
  {
    var ts := PairTokens(m);
    assert ts[1..][1..] == [String(m.1)];
    assert Fold(ts[1..][1..], Value) == Ok(Object);
    assert ts[1..][0] == KeyValueSeparator;
    assert Fold(ts[1..], Key) == Ok(Object);
  }

  lemma {:induction false} FoldMoreTokens(ms: seq<(string, string)>)
    ensures Fold(MoreTokens(ms), Object) == Ok(Object)
  {
    if ms != [] {
      var head := [FieldSeparator] + PairTokens(ms[0]);
      FoldPairTokens(ms[0], ExpectingKey);
      FoldAppend([FieldSeparator], PairTokens(ms[0]), Object);
      FoldAppend(head, MoreTokens(ms[1..]), Object);
      FoldMoreTokens(ms[1..]);
    }
  }

  /** The object's tokens take the validator from `Default` back to `Default`. */
  lemma FoldObjectTokens(ms: seq<(string, string)>)
    ensures Fold(ObjectTokens(ms), Default) == Ok(Default)
  {
    if ms != [] {
      var head := [OpenObject] + PairTokens(ms[0]);
      FoldPairTokens(ms[0], Object);
      FoldAppend([OpenObject], PairTokens(ms[0]), Default);
      FoldMoreTokens(ms[1..]);
      FoldAppend(head, MoreTokens(ms[1..]), Default);
      assert ObjectTokens(ms) == head + MoreTokens(ms[1..]) + [CloseObject];
      FoldAppend(head + MoreTokens(ms[1..]), [CloseObject], Default);
    } else {
      var ts := ObjectTokens(ms);
      assert ts[1..] == [CloseObject] && ts[1..][1..] == [];
      assert Fold(ts[1..], Object) == Ok(Default);
    }
  }

  lemma {:induction false} LexableMoreTokens(ms: seq<(string, string)>)
    requires QuoteFree(ms)
    ensures forall tok | tok in MoreTokens(ms) :: Lexable(tok)
  {
    if ms != [] {
      LexableMoreTokens(ms[1..]);
    }
  }

  lemma LexableObjectTokens(ms: seq<(string, string)>)
    requires QuoteFree(ms)
    ensures forall tok | tok in ObjectTokens(ms) :: Lexable(tok)
  {
    if ms != [] {
      LexableMoreTokens(ms[1..]);
    }
  }

  /** The verdict on quote-free tokens laid out with whitespace, followed by a tail from which the
      lexer gets no token, is the verdict of the fold over exactly those tokens. The lemma does not
      recurse: `{:induction false}` only stops Dafny from trying induction by itself, since the proof
      goes through `TokensOfLayoutThen`. */
  lemma {:induction false} ParseOfLayout(ts: seq<Token>, pads: seq<string>, tail: string)
    requires |pads| == |ts| + 1
    requires forall tok | tok in ts :: Lexable(tok)
    requires forall i | 0 <= i < |pads| :: Blank(pads[i])
    requires Next(tail, 0).token.None?
    ensures Parse(Layout(ts, pads) + tail) == if ts == [] then Err(Empty) else Conclude(Fold(ts, Default))
  {
    TokensOfLayoutThen(ts, pads, tail);
    assert Tokens(tail, 0) == [];
    assert Tokens(Layout(ts, pads) + tail, 0) == ts;
    ParseIsFold(Layout(ts, pads) + tail);
  }

  /** Every object `{"k1":"v1","k2":"v2",...}` with quote-free keys and values, laid out with any
      whitespace between its tokens, is accepted, and so is any such text followed by a tail from
      which the lexer gets no token (nothing, an unknown character, an unterminated string). */
  lemma ParseAcceptsObjects(ms: seq<(string, string)>, pads: seq<string>, tail: string)
    requires QuoteFree(ms)
    requires |pads| == |ObjectTokens(ms)| + 1
    requires forall i | 0 <= i < |pads| :: Blank(pads[i])
    requires Next(tail, 0).token.None?
    ensures Parse(Layout(ObjectTokens(ms), pads) + tail) == Ok(())
  {
    LexableObjectTokens(ms);
    ParseOfLayout(ObjectTokens(ms), pads, tail);
    FoldObjectTokens(ms);
  }

  // ---------------------------------------------------------------------------------------------
  // The loop as the source writes it
  // ---------------------------------------------------------------------------------------------

  /** `Parser::parse` with its mutable state and cursor, computing the same verdict as `Parse`. */
  method ParseLoop(s: string) returns (r: Result<(), ParserError>)
    ensures r == Parse(s)
  {
    var state := Default;
    ghost var from: nat := 0;
    var nextToken, cursor := GetNext(s, 0);
    if nextToken.None? {
      return Err(Empty);
    }
    while nextToken.Some?
      invariant Lexed(nextToken, cursor) == Next(s, from)
      invariant Run(s, from, state) == Parse(s)
      decreases |s| - from
    {
      match Step(state, nextToken.value) {
        case Err(e) => return Err(e);
        case Ok(st) => state := st;
      }
      from := cursor;
      nextToken, cursor := GetNext(s, cursor);
    }
    if state != Default {
      r := Err(InvalidObject);
    } else {
      r := Ok(());
    }
  }
}
