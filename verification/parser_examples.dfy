/** The parser's unit tests, and inputs that the grammar's gaps let through, as lemmas.

    Each example is a lemma without parameters that states the verdict of `Parse` on its input. Its
    proof calls a helper `<Name>At(s)` that names the same input through a `requires`, and the
    verifier reads that text through `Steps`: a list of cuts saying where each token's text starts
    and ends. The lexing lemmas turn a list of cuts into the token list, so the lexer is never
    unfolded on a literal.
 */
module ParserExamples {
  import opened Wrappers
  import opened JsonTokenizer
  import opened JsonParser

  // ---------------------------------------------------------------------------------------------
  // Reading a text through its cuts
  // ---------------------------------------------------------------------------------------------

  /** From cursor `a` on, `s` holds the tokens `ts[i..]` one after the other: token `j` is preceded
      by whitespace and written between `ks[j].0` and `ks[j].1`, and the whitespace before the next
      token starts where it ends. */
  predicate Steps(s: string, a: nat, ks: seq<(nat, nat)>, ts: seq<Token>, i: nat)
    decreases |ts| - i
  {
    if |ks| != |ts| || |ts| < i then false
    else if i == |ts| then a <= |s|
    else
      && a <= ks[i].0 <= ks[i].1 <= |s|
      && Blank(s[a..ks[i].0]) && Lexable(ts[i]) && s[ks[i].0..ks[i].1] == Render(ts[i])
      && Steps(s, ks[i].1, ks, ts, i + 1)
  }

  /** Where the text described by the cuts `ks[i..]` from cursor `a` ends. */
  function After(a: nat, ks: seq<(nat, nat)>, i: nat): nat {
    if |ks| <= i then a else ks[|ks| - 1].1
  }

  lemma StepsEnd(s: string, a: nat, ks: seq<(nat, nat)>, ts: seq<Token>)
    requires a <= |s| && |ks| == |ts|
    ensures Steps(s, a, ks, ts, |ts|)
  {
  }

  lemma StepsCons(s: string, a: nat, ks: seq<(nat, nat)>, ts: seq<Token>, i: nat)
    requires i < |ts| == |ks| && a <= ks[i].0 <= ks[i].1 <= |s|
    requires Blank(s[a..ks[i].0]) && Lexable(ts[i]) && s[ks[i].0..ks[i].1] == Render(ts[i])
    requires Steps(s, ks[i].1, ks, ts, i + 1)
    ensures Steps(s, a, ks, ts, i)
  {
  }

  lemma {:induction false} StepsEndWithin(s: string, a: nat, ks: seq<(nat, nat)>, ts: seq<Token>, i: nat)
    requires Steps(s, a, ks, ts, i)
    ensures a <= After(a, ks, i) <= |s|
    decreases |ts| - i
  {
    if i < |ts| {
      StepsEndWithin(s, ks[i].1, ks, ts, i + 1);
    }
  }

  /** From cursor `a`, whitespace up to `k` and then the written form of `tok` up to `b`: the tokens
      from `a` are `tok` followed by the tokens from `b`. */
  lemma TokensAt(s: string, a: nat, k: nat, b: nat, tok: Token)
    requires a <= k <= b <= |s|
    requires Blank(s[a..k]) && Lexable(tok) && s[k..b] == Render(tok)
    ensures Tokens(s[a..], 0) == [tok] + Tokens(s[b..], 0)
  {
    assert s[a..] == s[a..k] + Render(tok) + s[b..];
    TokensOfPaddedToken(s[a..k], tok, s[b..]);
  }

  /** A text read through its cuts lexes to the tokens the cuts delimit, followed by whatever the
      rest of the text lexes to. */
  lemma {:induction false} TokensBySteps(s: string, a: nat, ks: seq<(nat, nat)>, ts: seq<Token>, i: nat)
    requires Steps(s, a, ks, ts, i)
    ensures i <= |ts| && a <= After(a, ks, i) <= |s|
    ensures Tokens(s[a..], 0) == ts[i..] + Tokens(s[After(a, ks, i)..], 0)
    decreases |ts| - i
  {
    StepsEndWithin(s, a, ks, ts, i);
    if i < |ts| {
      var k, b := ks[i].0, ks[i].1;
      TokensAt(s, a, k, b, ts[i]);
      TokensBySteps(s, b, ks, ts, i + 1);
      assert After(b, ks, i + 1) == After(a, ks, i);
      assert ts[i..][1..] == ts[i + 1..];
      ConsAppend(ts[i..], Tokens(s[After(a, ks, i)..], 0));
    }
  }

  /** Only whitespace from cursor `a` on: no more tokens. */
  lemma NoTokensAtEnd(s: string, a: nat)
    requires a <= |s| && Blank(s[a..])
    ensures Tokens(s[a..], 0) == []
  {
    assert s[a..][0..] == s[a..];
    NextAtEnd(s[a..], 0);
  }

  /** Whitespace from cursor `a` up to a character the lexer does not know: no more tokens. */
  lemma NoTokensAtUnknown(s: string, a: nat, k: nat)
    requires a <= k < |s| && Blank(s[a..k])
    requires !IsWhitespace(s[k]) && s[k] !in "{}\":,"
    ensures Tokens(s[a..], 0) == []
  {
    assert s[a..][0..k - a] == s[a..k];
    NextUnknown(s[a..], 0, k - a);
  }

  /** Whitespace from cursor `a` up to a quote that never closes: no more tokens. */
  lemma NoTokensAtUnterminated(s: string, a: nat, k: nat)
    requires a <= k < |s| && Blank(s[a..k])
    requires s[k] == '"' && NoQuote(s[k + 1..])
    ensures Tokens(s[a..], 0) == []
  {
    assert s[a..][0..k - a] == s[a..k];
    assert s[a..][k - a + 1..] == s[k + 1..];
    NextUnterminated(s[a..], 0, k - a);
  }

  // ---------------------------------------------------------------------------------------------
  // The examples
  // ---------------------------------------------------------------------------------------------

  /** The input of `EmptyObjectAccepted`, token by token, with where each token's text starts and ends. */
  const EmptyObjectTokens: seq<Token> := [OpenObject, CloseObject]
  const EmptyObjectCuts: seq<(nat, nat)> := [(0, 1), (1, 2)]

  /** What follows the last token of the input of `EmptyObjectAccepted`. */
  lemma EmptyObjectTail(s: string)
    requires s == "{" + "}"
    ensures |s| == 2
    ensures s[2..] == ""
  {
  }

  /** Where tokens 0 to 1 of the input of `EmptyObjectAccepted` are written, with the whitespace before each. */
  lemma EmptyObjectPieces(s: string)
    requires s == "{" + "}"
    ensures |s| == 2
    ensures s[0..1] == "{"
    ensures s[1..2] == "}"
  {
  }

  /** The input of `EmptyObjectAccepted` read through its cuts from token 0 on. */
  lemma EmptyObjectSteps(s: string)
    requires s == "{" + "}"
    ensures Steps(s, 0, EmptyObjectCuts, EmptyObjectTokens, 0)
  {
    EmptyObjectPieces(s);
    EmptyObjectTail(s);
    StepsEnd(s, 2, EmptyObjectCuts, EmptyObjectTokens);
    StepsCons(s, 1, EmptyObjectCuts, EmptyObjectTokens, 1);
    StepsCons(s, 0, EmptyObjectCuts, EmptyObjectTokens, 0);
  }

  /** The tokens of the input of `EmptyObjectAccepted`. */
  lemma EmptyObjectLexed(s: string)
    requires s == "{" + "}"
    ensures Tokens(s, 0) == EmptyObjectTokens
  {
    EmptyObjectSteps(s);
    TokensBySteps(s, 0, EmptyObjectCuts, EmptyObjectTokens, 0);
    EmptyObjectTail(s);
    NoTokensAtEnd(s, 2);
    assert s[0..] == s;
  }

  /** The unit test `parse_empty_object_success`. */
  lemma EmptyObjectAccepted()
    ensures Parse("{}") == Ok(())
  {
    EmptyObjectAcceptedAt("{}");
  }

  /** The verdict on the input of `EmptyObjectAccepted`, given as its pieces. */
  lemma EmptyObjectAcceptedAt(s: string)
    requires s == "{" + "}"
    ensures Parse(s) == Ok(())
  {
    EmptyObjectLexed(s);
    ParseIsFold(s);
    EmptyObjectFolds();
  }

  /** What the state machine makes of the tokens of `EmptyObjectAccepted`. */
  lemma EmptyObjectFolds()
    ensures Fold(EmptyObjectTokens, Default) == Ok(Default)
  {
  }

  /** The unit test `parse_empty_string_failure`: there is no token at all. */
  lemma EmptyStringRejected()
    ensures Parse("") == Err(Empty)
  {
    NextAtEnd("", 0);
  }

  /** The input of `TrailingCommaRejected`, token by token, with where each token's text starts and ends. */
  const TrailingCommaTokens: seq<Token> := [OpenObject, String("key"), KeyValueSeparator, String("value"), FieldSeparator, CloseObject]
  const TrailingCommaCuts: seq<(nat, nat)> := [(0, 1), (1, 6), (6, 7), (8, 15), (15, 16), (16, 17)]

  /** What follows the last token of the input of `TrailingCommaRejected`. */
  lemma TrailingCommaTail(s: string)
    requires s == "{" + "\"key\"" + ":" + " " + "\"value\"" + "," + "}"
    ensures |s| == 17
    ensures s[17..] == ""
  {
  }

  /** Where tokens 3 to 5 of the input of `TrailingCommaRejected` are written, with the whitespace before each. */
  lemma TrailingCommaPiecesFrom3(s: string)
    requires s == "{" + "\"key\"" + ":" + " " + "\"value\"" + "," + "}"
    ensures |s| == 17
    ensures s[7..8] == " " && s[8..15] == "\"value\""
    ensures s[15..16] == ","
    ensures s[16..17] == "}"
  {
  }

  /** The input of `TrailingCommaRejected` read through its cuts from token 3 on. */
  lemma TrailingCommaStepsFrom3(s: string)
    requires s == "{" + "\"key\"" + ":" + " " + "\"value\"" + "," + "}"
    ensures Steps(s, 7, TrailingCommaCuts, TrailingCommaTokens, 3)
  {
    TrailingCommaPiecesFrom3(s);
    TrailingCommaTail(s);
    StepsEnd(s, 17, TrailingCommaCuts, TrailingCommaTokens);
    StepsCons(s, 16, TrailingCommaCuts, TrailingCommaTokens, 5);
    StepsCons(s, 15, TrailingCommaCuts, TrailingCommaTokens, 4);
    StepsCons(s, 7, TrailingCommaCuts, TrailingCommaTokens, 3);
  }

  /** Where tokens 0 to 2 of the input of `TrailingCommaRejected` are written, with the whitespace before each. */
  lemma TrailingCommaPieces(s: string)
    requires s == "{" + "\"key\"" + ":" + " " + "\"value\"" + "," + "}"
    ensures |s| == 17
    ensures s[0..1] == "{"
    ensures s[1..6] == "\"key\""
    ensures s[6..7] == ":"
  {
  }

  /** The input of `TrailingCommaRejected` read through its cuts from token 0 on. */
  lemma TrailingCommaSteps(s: string)
    requires s == "{" + "\"key\"" + ":" + " " + "\"value\"" + "," + "}"
    ensures Steps(s, 0, TrailingCommaCuts, TrailingCommaTokens, 0)
  {
    TrailingCommaPieces(s);
    TrailingCommaStepsFrom3(s);
    StepsCons(s, 6, TrailingCommaCuts, TrailingCommaTokens, 2);
    StepsCons(s, 1, TrailingCommaCuts, TrailingCommaTokens, 1);
    StepsCons(s, 0, TrailingCommaCuts, TrailingCommaTokens, 0);
  }

  /** The tokens of the input of `TrailingCommaRejected`. */
  lemma TrailingCommaLexed(s: string)
    requires s == "{" + "\"key\"" + ":" + " " + "\"value\"" + "," + "}"
    ensures Tokens(s, 0) == TrailingCommaTokens
  {
    TrailingCommaSteps(s);
    TokensBySteps(s, 0, TrailingCommaCuts, TrailingCommaTokens, 0);
    TrailingCommaTail(s);
    NoTokensAtEnd(s, 17);
    assert s[0..] == s;
  }

  /** The unit test `parse_trailing_comma_failure`: the closing brace arrives in `ExpectingKey`. */
  lemma TrailingCommaRejected()
    ensures Parse("{" + "\"key\"" + ":" + " " + "\"value\"" + "," + "}") == Err(InvalidObject)
  {
    TrailingCommaRejectedAt("{" + "\"key\"" + ":" + " " + "\"value\"" + "," + "}");
  }

  /** The verdict on the input of `TrailingCommaRejected`, given as its pieces. */
  lemma TrailingCommaRejectedAt(s: string)
    requires s == "{" + "\"key\"" + ":" + " " + "\"value\"" + "," + "}"
    ensures Parse(s) == Err(InvalidObject)
  {
    TrailingCommaLexed(s);
    ParseIsFold(s);
    TrailingCommaFolds();
  }

  /** What the state machine makes of the tokens of `TrailingCommaRejected`. */
  lemma TrailingCommaFolds()
    ensures Fold(TrailingCommaTokens, Default) == Err(InvalidObject)
  {
  }

  /** The input of `UnquotedKeyRejected`, token by token, with where each token's text starts and ends. */
  const UnquotedKeyTokens: seq<Token> := [OpenObject, String("key"), KeyValueSeparator, String("value"), FieldSeparator]
  const UnquotedKeyCuts: seq<(nat, nat)> := [(0, 1), (4, 9), (9, 10), (11, 18), (18, 19)]

  /** What follows the last token of the input of `UnquotedKeyRejected`. */
  lemma UnquotedKeyTail(s: string)
    requires s == "{" + "\n  " + "\"key\"" + ":" + " " + "\"value\"" + "," + "\n  " + "k" + "ey2: \"valu" + "e\"\n}\n"
    ensures |s| == 38
    ensures s[19..22] == "\n  " && s[22] == 'k'
  {
  }

  /** Where tokens 3 to 4 of the input of `UnquotedKeyRejected` are written, with the whitespace before each. */
  lemma UnquotedKeyPiecesFrom3(s: string)
    requires s == "{" + "\n  " + "\"key\"" + ":" + " " + "\"value\"" + "," + "\n  " + "k" + "ey2: \"valu" + "e\"\n}\n"
    ensures |s| == 38
    ensures s[10..11] == " " && s[11..18] == "\"value\""
    ensures s[18..19] == ","
  {
  }

  /** The input of `UnquotedKeyRejected` read through its cuts from token 3 on. */
  lemma UnquotedKeyStepsFrom3(s: string)
    requires s == "{" + "\n  " + "\"key\"" + ":" + " " + "\"value\"" + "," + "\n  " + "k" + "ey2: \"valu" + "e\"\n}\n"
    ensures Steps(s, 10, UnquotedKeyCuts, UnquotedKeyTokens, 3)
  {
    UnquotedKeyPiecesFrom3(s);
    UnquotedKeyTail(s);
    StepsEnd(s, 19, UnquotedKeyCuts, UnquotedKeyTokens);
    StepsCons(s, 18, UnquotedKeyCuts, UnquotedKeyTokens, 4);
    StepsCons(s, 10, UnquotedKeyCuts, UnquotedKeyTokens, 3);
  }

  /** Where tokens 0 to 2 of the input of `UnquotedKeyRejected` are written, with the whitespace before each. */
  lemma UnquotedKeyPieces(s: string)
    requires s == "{" + "\n  " + "\"key\"" + ":" + " " + "\"value\"" + "," + "\n  " + "k" + "ey2: \"valu" + "e\"\n}\n"
    ensures |s| == 38
    ensures s[0..1] == "{"
    ensures s[1..4] == "\n  " && s[4..9] == "\"key\""
    ensures s[9..10] == ":"
  {
  }

  /** The input of `UnquotedKeyRejected` read through its cuts from token 0 on. */
  lemma UnquotedKeySteps(s: string)
    requires s == "{" + "\n  " + "\"key\"" + ":" + " " + "\"value\"" + "," + "\n  " + "k" + "ey2: \"valu" + "e\"\n}\n"
    ensures Steps(s, 0, UnquotedKeyCuts, UnquotedKeyTokens, 0)
  {
    UnquotedKeyPieces(s);
    UnquotedKeyStepsFrom3(s);
    StepsCons(s, 9, UnquotedKeyCuts, UnquotedKeyTokens, 2);
    StepsCons(s, 1, UnquotedKeyCuts, UnquotedKeyTokens, 1);
    StepsCons(s, 0, UnquotedKeyCuts, UnquotedKeyTokens, 0);
  }

  /** The tokens of the input of `UnquotedKeyRejected`. */
  lemma UnquotedKeyLexed(s: string)
    requires s == "{" + "\n  " + "\"key\"" + ":" + " " + "\"value\"" + "," + "\n  " + "k" + "ey2: \"valu" + "e\"\n}\n"
    ensures Tokens(s, 0) == UnquotedKeyTokens
  {
    UnquotedKeySteps(s);
    TokensBySteps(s, 0, UnquotedKeyCuts, UnquotedKeyTokens, 0);
    UnquotedKeyTail(s);
    NoTokensAtUnknown(s, 19, 22);
    assert s[0..] == s;
  }

  /** The unit test `parse_unquoted_key_failure`: `k` yields no token, so the stream ends in `ExpectingKey`. */
  lemma UnquotedKeyRejected()
    ensures Parse("{" + "\n  " + "\"key\"" + ":" + " " + "\"value\"" + "," + "\n  " + "k" + "ey2: \"valu" + "e\"\n}\n") == Err(InvalidObject)
  {
    UnquotedKeyRejectedAt("{" + "\n  " + "\"key\"" + ":" + " " + "\"value\"" + "," + "\n  " + "k" + "ey2: \"valu" + "e\"\n}\n");
  }

  /** The verdict on the input of `UnquotedKeyRejected`, given as its pieces. */
  lemma UnquotedKeyRejectedAt(s: string)
    requires s == "{" + "\n  " + "\"key\"" + ":" + " " + "\"value\"" + "," + "\n  " + "k" + "ey2: \"valu" + "e\"\n}\n"
    ensures Parse(s) == Err(InvalidObject)
  {
    UnquotedKeyLexed(s);
    ParseIsFold(s);
    UnquotedKeyFolds();
  }

  /** What the state machine makes of the tokens of `UnquotedKeyRejected`. */
  lemma UnquotedKeyFolds()
    ensures Fold(UnquotedKeyTokens, Default) == Ok(ExpectingKey)
  {
  }

  /** The input of `KeyValuePairAccepted`, token by token, with where each token's text starts and ends. */
  const KeyValuePairTokens: seq<Token> := [OpenObject, String("key"), KeyValueSeparator, String("value"), CloseObject]
  const KeyValuePairCuts: seq<(nat, nat)> := [(0, 1), (1, 6), (6, 7), (8, 15), (15, 16)]

  /** What follows the last token of the input of `KeyValuePairAccepted`. */
  lemma KeyValuePairTail(s: string)
    requires s == "{" + "\"key\"" + ":" + " " + "\"value\"" + "}"
    ensures |s| == 16
    ensures s[16..] == ""
  {
  }

  /** Where tokens 3 to 4 of the input of `KeyValuePairAccepted` are written, with the whitespace before each. */
  lemma KeyValuePairPiecesFrom3(s: string)
    requires s == "{" + "\"key\"" + ":" + " " + "\"value\"" + "}"
    ensures |s| == 16
    ensures s[7..8] == " " && s[8..15] == "\"value\""
    ensures s[15..16] == "}"
  {
  }

  /** The input of `KeyValuePairAccepted` read through its cuts from token 3 on. */
  lemma KeyValuePairStepsFrom3(s: string)
    requires s == "{" + "\"key\"" + ":" + " " + "\"value\"" + "}"
    ensures Steps(s, 7, KeyValuePairCuts, KeyValuePairTokens, 3)
  {
    KeyValuePairPiecesFrom3(s);
    KeyValuePairTail(s);
    StepsEnd(s, 16, KeyValuePairCuts, KeyValuePairTokens);
    StepsCons(s, 15, KeyValuePairCuts, KeyValuePairTokens, 4);
    StepsCons(s, 7, KeyValuePairCuts, KeyValuePairTokens, 3);
  }

  /** Where tokens 0 to 2 of the input of `KeyValuePairAccepted` are written, with the whitespace before each. */
  lemma KeyValuePairPieces(s: string)
    requires s == "{" + "\"key\"" + ":" + " " + "\"value\"" + "}"
    ensures |s| == 16
    ensures s[0..1] == "{"
    ensures s[1..6] == "\"key\""
    ensures s[6..7] == ":"
  {
  }

  /** The input of `KeyValuePairAccepted` read through its cuts from token 0 on. */
  lemma KeyValuePairSteps(s: string)
    requires s == "{" + "\"key\"" + ":" + " " + "\"value\"" + "}"
    ensures Steps(s, 0, KeyValuePairCuts, KeyValuePairTokens, 0)
  {
    KeyValuePairPieces(s);
    KeyValuePairStepsFrom3(s);
    StepsCons(s, 6, KeyValuePairCuts, KeyValuePairTokens, 2);
    StepsCons(s, 1, KeyValuePairCuts, KeyValuePairTokens, 1);
    StepsCons(s, 0, KeyValuePairCuts, KeyValuePairTokens, 0);
  }

  /** The tokens of the input of `KeyValuePairAccepted`. */
  lemma KeyValuePairLexed(s: string)
    requires s == "{" + "\"key\"" + ":" + " " + "\"value\"" + "}"
    ensures Tokens(s, 0) == KeyValuePairTokens
  {
    KeyValuePairSteps(s);
    TokensBySteps(s, 0, KeyValuePairCuts, KeyValuePairTokens, 0);
    KeyValuePairTail(s);
    NoTokensAtEnd(s, 16);
    assert s[0..] == s;
  }

  /** The unit test `parse_object_key_value_pair_success`. */
  lemma KeyValuePairAccepted()
    ensures Parse("{" + "\"key\"" + ":" + " " + "\"value\"" + "}") == Ok(())
  {
    KeyValuePairAcceptedAt("{" + "\"key\"" + ":" + " " + "\"value\"" + "}");
  }

  /** The verdict on the input of `KeyValuePairAccepted`, given as its pieces. */
  lemma KeyValuePairAcceptedAt(s: string)
    requires s == "{" + "\"key\"" + ":" + " " + "\"value\"" + "}"
    ensures Parse(s) == Ok(())
  {
    KeyValuePairLexed(s);
    ParseIsFold(s);
    KeyValuePairFolds();
  }

  /** What the state machine makes of the tokens of `KeyValuePairAccepted`. */
  lemma KeyValuePairFolds()
    ensures Fold(KeyValuePairTokens, Default) == Ok(Default)
  {
  }

  /** The input of `MultiplePairsAccepted`, token by token, with where each token's text starts and ends. */
  const MultiplePairsTokens: seq<Token> := [OpenObject, String("key"), KeyValueSeparator, String("value"), FieldSeparator, String("key2"), KeyValueSeparator, String("value"), CloseObject]
  const MultiplePairsCuts: seq<(nat, nat)> := [(0, 1), (14, 19), (19, 20), (21, 28), (28, 29), (42, 48), (48, 49), (50, 57), (68, 69)]

  /** What follows the last token of the input of `MultiplePairsAccepted`. */
  lemma MultiplePairsTail(s: string)
    requires s == "{" + "\n            " + "\"key\"" + ":" + " " + "\"value\"" + "," + "\n            " + "\"key2\"" + ":" + " " + "\"value\"" + "\n          " + "}" + "\n          "
    ensures |s| == 80
    ensures s[69..] == "\n          "
  {
  }

  /** Where tokens 6 to 8 of the input of `MultiplePairsAccepted` are written, with the whitespace before each. */
  lemma MultiplePairsPiecesFrom6(s: string)
    requires s == "{" + "\n            " + "\"key\"" + ":" + " " + "\"value\"" + "," + "\n            " + "\"key2\"" + ":" + " " + "\"value\"" + "\n          " + "}" + "\n          "
    ensures |s| == 80
    ensures s[48..49] == ":"
    ensures s[49..50] == " " && s[50..57] == "\"value\""
    ensures s[57..68] == "\n          " && s[68..69] == "}"
  {
  }

  /** The input of `MultiplePairsAccepted` read through its cuts from token 6 on. */
  lemma MultiplePairsStepsFrom6(s: string)
    requires s == "{" + "\n            " + "\"key\"" + ":" + " " + "\"value\"" + "," + "\n            " + "\"key2\"" + ":" + " " + "\"value\"" + "\n          " + "}" + "\n          "
    ensures Steps(s, 48, MultiplePairsCuts, MultiplePairsTokens, 6)
  {
    MultiplePairsPiecesFrom6(s);
    MultiplePairsTail(s);
    StepsEnd(s, 69, MultiplePairsCuts, MultiplePairsTokens);
    StepsCons(s, 57, MultiplePairsCuts, MultiplePairsTokens, 8);
    StepsCons(s, 49, MultiplePairsCuts, MultiplePairsTokens, 7);
    StepsCons(s, 48, MultiplePairsCuts, MultiplePairsTokens, 6);
  }

  /** Where tokens 3 to 5 of the input of `MultiplePairsAccepted` are written, with the whitespace before each. */
  lemma MultiplePairsPiecesFrom3(s: string)
    requires s == "{" + "\n            " + "\"key\"" + ":" + " " + "\"value\"" + "," + "\n            " + "\"key2\"" + ":" + " " + "\"value\"" + "\n          " + "}" + "\n          "
    ensures |s| == 80
    ensures s[20..21] == " " && s[21..28] == "\"value\""
    ensures s[28..29] == ","
    ensures s[29..42] == "\n            " && s[42..48] == "\"key2\""
  {
  }

  /** The input of `MultiplePairsAccepted` read through its cuts from token 3 on. */
  lemma MultiplePairsStepsFrom3(s: string)
    requires s == "{" + "\n            " + "\"key\"" + ":" + " " + "\"value\"" + "," + "\n            " + "\"key2\"" + ":" + " " + "\"value\"" + "\n          " + "}" + "\n          "
    ensures Steps(s, 20, MultiplePairsCuts, MultiplePairsTokens, 3)
  {
    MultiplePairsPiecesFrom3(s);
    MultiplePairsStepsFrom6(s);
    StepsCons(s, 29, MultiplePairsCuts, MultiplePairsTokens, 5);
    StepsCons(s, 28, MultiplePairsCuts, MultiplePairsTokens, 4);
    StepsCons(s, 20, MultiplePairsCuts, MultiplePairsTokens, 3);
  }

  /** Where tokens 0 to 2 of the input of `MultiplePairsAccepted` are written, with the whitespace before each. */
  lemma MultiplePairsPieces(s: string)
    requires s == "{" + "\n            " + "\"key\"" + ":" + " " + "\"value\"" + "," + "\n            " + "\"key2\"" + ":" + " " + "\"value\"" + "\n          " + "}" + "\n          "
    ensures |s| == 80
    ensures s[0..1] == "{"
    ensures s[1..14] == "\n            " && s[14..19] == "\"key\""
    ensures s[19..20] == ":"
  {
  }

  /** The input of `MultiplePairsAccepted` read through its cuts from token 0 on. */
  lemma MultiplePairsSteps(s: string)
    requires s == "{" + "\n            " + "\"key\"" + ":" + " " + "\"value\"" + "," + "\n            " + "\"key2\"" + ":" + " " + "\"value\"" + "\n          " + "}" + "\n          "
    ensures Steps(s, 0, MultiplePairsCuts, MultiplePairsTokens, 0)
  {
    MultiplePairsPieces(s);
    MultiplePairsStepsFrom3(s);
    StepsCons(s, 19, MultiplePairsCuts, MultiplePairsTokens, 2);
    StepsCons(s, 1, MultiplePairsCuts, MultiplePairsTokens, 1);
    StepsCons(s, 0, MultiplePairsCuts, MultiplePairsTokens, 0);
  }

  /** The tokens of the input of `MultiplePairsAccepted`. */
  lemma MultiplePairsLexed(s: string)
    requires s == "{" + "\n            " + "\"key\"" + ":" + " " + "\"value\"" + "," + "\n            " + "\"key2\"" + ":" + " " + "\"value\"" + "\n          " + "}" + "\n          "
    ensures Tokens(s, 0) == MultiplePairsTokens
  {
    MultiplePairsSteps(s);
    TokensBySteps(s, 0, MultiplePairsCuts, MultiplePairsTokens, 0);
    MultiplePairsTail(s);
    NoTokensAtEnd(s, 69);
    assert s[0..] == s;
  }

  /** The unit test `parse_object_multiple_key_value_pair_success`. */
  lemma MultiplePairsAccepted()
    ensures Parse("{" + "\n            " + "\"key\"" + ":" + " " + "\"value\"" + "," + "\n            " + "\"key2\"" + ":" + " " + "\"value\"" + "\n          " + "}" + "\n          ") == Ok(())
  {
    MultiplePairsAcceptedAt("{" + "\n            " + "\"key\"" + ":" + " " + "\"value\"" + "," + "\n            " + "\"key2\"" + ":" + " " + "\"value\"" + "\n          " + "}" + "\n          ");
  }

  /** The verdict on the input of `MultiplePairsAccepted`, given as its pieces. */
  lemma MultiplePairsAcceptedAt(s: string)
    requires s == "{" + "\n            " + "\"key\"" + ":" + " " + "\"value\"" + "," + "\n            " + "\"key2\"" + ":" + " " + "\"value\"" + "\n          " + "}" + "\n          "
    ensures Parse(s) == Ok(())
  {
    MultiplePairsLexed(s);
    ParseIsFold(s);
    MultiplePairsFolds();
  }

  /** What the state machine makes of the tokens of `MultiplePairsAccepted`. */
  lemma MultiplePairsFolds()
    ensures Fold(MultiplePairsTokens, Default) == Ok(Default)
  {
  }

  /** The input of `UnterminatedStringRejected`, token by token, with where each token's text starts and ends. */
  const UnterminatedStringTokens: seq<Token> := [OpenObject, String("key"), KeyValueSeparator]
  const UnterminatedStringCuts: seq<(nat, nat)> := [(0, 1), (1, 6), (6, 7)]

  /** What follows the last token of the input of `UnterminatedStringRejected`. */
  lemma UnterminatedStringTail(s: string)
    requires s == "{" + "\"key\"" + ":" + " " + "\"" + "value}"
    ensures |s| == 15
    ensures s[7..8] == " " && s[8] == '"' && s[9..] == "value}"
  {
  }

  /** Where tokens 0 to 2 of the input of `UnterminatedStringRejected` are written, with the whitespace before each. */
  lemma UnterminatedStringPieces(s: string)
    requires s == "{" + "\"key\"" + ":" + " " + "\"" + "value}"
    ensures |s| == 15
    ensures s[0..1] == "{"
    ensures s[1..6] == "\"key\""
    ensures s[6..7] == ":"
  {
  }

  /** The input of `UnterminatedStringRejected` read through its cuts from token 0 on. */
  lemma UnterminatedStringSteps(s: string)
    requires s == "{" + "\"key\"" + ":" + " " + "\"" + "value}"
    ensures Steps(s, 0, UnterminatedStringCuts, UnterminatedStringTokens, 0)
  {
    UnterminatedStringPieces(s);
    UnterminatedStringTail(s);
    StepsEnd(s, 7, UnterminatedStringCuts, UnterminatedStringTokens);
    StepsCons(s, 6, UnterminatedStringCuts, UnterminatedStringTokens, 2);
    StepsCons(s, 1, UnterminatedStringCuts, UnterminatedStringTokens, 1);
    StepsCons(s, 0, UnterminatedStringCuts, UnterminatedStringTokens, 0);
  }

  /** The tokens of the input of `UnterminatedStringRejected`. */
  lemma UnterminatedStringLexed(s: string)
    requires s == "{" + "\"key\"" + ":" + " " + "\"" + "value}"
    ensures Tokens(s, 0) == UnterminatedStringTokens
  {
    UnterminatedStringSteps(s);
    TokensBySteps(s, 0, UnterminatedStringCuts, UnterminatedStringTokens, 0);
    UnterminatedStringTail(s);
    NoTokensAtUnterminated(s, 7, 8);
    assert s[0..] == s;
  }

  /** An unterminated value yields no token, so the stream ends in `Value`. */
  lemma UnterminatedStringRejected()
    ensures Parse("{" + "\"key\"" + ":" + " " + "\"" + "value}") == Err(InvalidObject)
  {
    UnterminatedStringRejectedAt("{" + "\"key\"" + ":" + " " + "\"" + "value}");
  }

  /** The verdict on the input of `UnterminatedStringRejected`, given as its pieces. */
  lemma UnterminatedStringRejectedAt(s: string)
    requires s == "{" + "\"key\"" + ":" + " " + "\"" + "value}"
    ensures Parse(s) == Err(InvalidObject)
  {
    UnterminatedStringLexed(s);
    ParseIsFold(s);
    UnterminatedStringFolds();
  }

  /** What the state machine makes of the tokens of `UnterminatedStringRejected`. */
  lemma UnterminatedStringFolds()
    ensures Fold(UnterminatedStringTokens, Default) == Ok(Value)
  {
  }

  /** The input of `RepeatedOpenBraceAccepted`, token by token, with where each token's text starts and ends. */
  const RepeatedOpenBraceTokens: seq<Token> := [OpenObject, OpenObject, CloseObject]
  const RepeatedOpenBraceCuts: seq<(nat, nat)> := [(0, 1), (1, 2), (2, 3)]

  /** What follows the last token of the input of `RepeatedOpenBraceAccepted`. */
  lemma RepeatedOpenBraceTail(s: string)
    requires s == "{" + "{" + "}"
    ensures |s| == 3
    ensures s[3..] == ""
  {
  }

  /** Where tokens 0 to 2 of the input of `RepeatedOpenBraceAccepted` are written, with the whitespace before each. */
  lemma RepeatedOpenBracePieces(s: string)
    requires s == "{" + "{" + "}"
    ensures |s| == 3
    ensures s[0..1] == "{"
    ensures s[1..2] == "{"
    ensures s[2..3] == "}"
  {
  }

  /** The input of `RepeatedOpenBraceAccepted` read through its cuts from token 0 on. */
  lemma RepeatedOpenBraceSteps(s: string)
    requires s == "{" + "{" + "}"
    ensures Steps(s, 0, RepeatedOpenBraceCuts, RepeatedOpenBraceTokens, 0)
  {
    RepeatedOpenBracePieces(s);
    RepeatedOpenBraceTail(s);
    StepsEnd(s, 3, RepeatedOpenBraceCuts, RepeatedOpenBraceTokens);
    StepsCons(s, 2, RepeatedOpenBraceCuts, RepeatedOpenBraceTokens, 2);
    StepsCons(s, 1, RepeatedOpenBraceCuts, RepeatedOpenBraceTokens, 1);
    StepsCons(s, 0, RepeatedOpenBraceCuts, RepeatedOpenBraceTokens, 0);
  }

  /** The tokens of the input of `RepeatedOpenBraceAccepted`. */
  lemma RepeatedOpenBraceLexed(s: string)
    requires s == "{" + "{" + "}"
    ensures Tokens(s, 0) == RepeatedOpenBraceTokens
  {
    RepeatedOpenBraceSteps(s);
    TokensBySteps(s, 0, RepeatedOpenBraceCuts, RepeatedOpenBraceTokens, 0);
    RepeatedOpenBraceTail(s);
    NoTokensAtEnd(s, 3);
    assert s[0..] == s;
  }

  /** An opening brace is legal in every state, so a second one restarts the object. */
  lemma RepeatedOpenBraceAccepted()
    ensures Parse("{{}") == Ok(())
  {
    RepeatedOpenBraceAcceptedAt("{{}");
  }

  /** The verdict on the input of `RepeatedOpenBraceAccepted`, given as its pieces. */
  lemma RepeatedOpenBraceAcceptedAt(s: string)
    requires s == "{" + "{" + "}"
    ensures Parse(s) == Ok(())
  {
    RepeatedOpenBraceLexed(s);
    ParseIsFold(s);
    RepeatedOpenBraceFolds();
  }

  /** What the state machine makes of the tokens of `RepeatedOpenBraceAccepted`. */
  lemma RepeatedOpenBraceFolds()
    ensures Fold(RepeatedOpenBraceTokens, Default) == Ok(Default)
  {
  }

  /** The input of `MissingCommaAccepted`, token by token, with where each token's text starts and ends. */
  const MissingCommaTokens: seq<Token> := [OpenObject, String("a"), KeyValueSeparator, String("b"), String("c"), KeyValueSeparator, String("d"), CloseObject]
  const MissingCommaCuts: seq<(nat, nat)> := [(0, 1), (1, 4), (4, 5), (5, 8), (9, 12), (12, 13), (13, 16), (16, 17)]

  /** What follows the last token of the input of `MissingCommaAccepted`. */
  lemma MissingCommaTail(s: string)
    requires s == "{" + "\"a\"" + ":" + "\"b\"" + " " + "\"c\"" + ":" + "\"d\"" + "}"
    ensures |s| == 17
    ensures s[17..] == ""
  {
  }

  /** Where tokens 6 to 7 of the input of `MissingCommaAccepted` are written, with the whitespace before each. */
  lemma MissingCommaPiecesFrom6(s: string)
    requires s == "{" + "\"a\"" + ":" + "\"b\"" + " " + "\"c\"" + ":" + "\"d\"" + "}"
    ensures |s| == 17
    ensures s[13..16] == "\"d\""
    ensures s[16..17] == "}"
  {
  }

  /** The input of `MissingCommaAccepted` read through its cuts from token 6 on. */
  lemma MissingCommaStepsFrom6(s: string)
    requires s == "{" + "\"a\"" + ":" + "\"b\"" + " " + "\"c\"" + ":" + "\"d\"" + "}"
    ensures Steps(s, 13, MissingCommaCuts, MissingCommaTokens, 6)
  {
    MissingCommaPiecesFrom6(s);
    MissingCommaTail(s);
    StepsEnd(s, 17, MissingCommaCuts, MissingCommaTokens);
    StepsCons(s, 16, MissingCommaCuts, MissingCommaTokens, 7);
    StepsCons(s, 13, MissingCommaCuts, MissingCommaTokens, 6);
  }

  /** Where tokens 3 to 5 of the input of `MissingCommaAccepted` are written, with the whitespace before each. */
  lemma MissingCommaPiecesFrom3(s: string)
    requires s == "{" + "\"a\"" + ":" + "\"b\"" + " " + "\"c\"" + ":" + "\"d\"" + "}"
    ensures |s| == 17
    ensures s[5..8] == "\"b\""
    ensures s[8..9] == " " && s[9..12] == "\"c\""
    ensures s[12..13] == ":"
  {
  }

  /** The input of `MissingCommaAccepted` read through its cuts from token 3 on. */
  lemma MissingCommaStepsFrom3(s: string)
    requires s == "{" + "\"a\"" + ":" + "\"b\"" + " " + "\"c\"" + ":" + "\"d\"" + "}"
    ensures Steps(s, 5, MissingCommaCuts, MissingCommaTokens, 3)
  {
    MissingCommaPiecesFrom3(s);
    MissingCommaStepsFrom6(s);
    StepsCons(s, 12, MissingCommaCuts, MissingCommaTokens, 5);
    StepsCons(s, 8, MissingCommaCuts, MissingCommaTokens, 4);
    StepsCons(s, 5, MissingCommaCuts, MissingCommaTokens, 3);
  }

  /** Where tokens 0 to 2 of the input of `MissingCommaAccepted` are written, with the whitespace before each. */
  lemma MissingCommaPieces(s: string)
    requires s == "{" + "\"a\"" + ":" + "\"b\"" + " " + "\"c\"" + ":" + "\"d\"" + "}"
    ensures |s| == 17
    ensures s[0..1] == "{"
    ensures s[1..4] == "\"a\""
    ensures s[4..5] == ":"
  {
  }

  /** The input of `MissingCommaAccepted` read through its cuts from token 0 on. */
  lemma MissingCommaSteps(s: string)
    requires s == "{" + "\"a\"" + ":" + "\"b\"" + " " + "\"c\"" + ":" + "\"d\"" + "}"
    ensures Steps(s, 0, MissingCommaCuts, MissingCommaTokens, 0)
  {
    MissingCommaPieces(s);
    MissingCommaStepsFrom3(s);
    StepsCons(s, 4, MissingCommaCuts, MissingCommaTokens, 2);
    StepsCons(s, 1, MissingCommaCuts, MissingCommaTokens, 1);
    StepsCons(s, 0, MissingCommaCuts, MissingCommaTokens, 0);
  }

  /** The tokens of the input of `MissingCommaAccepted`. */
  lemma MissingCommaLexed(s: string)
    requires s == "{" + "\"a\"" + ":" + "\"b\"" + " " + "\"c\"" + ":" + "\"d\"" + "}"
    ensures Tokens(s, 0) == MissingCommaTokens
  {
    MissingCommaSteps(s);
    TokensBySteps(s, 0, MissingCommaCuts, MissingCommaTokens, 0);
    MissingCommaTail(s);
    NoTokensAtEnd(s, 17);
    assert s[0..] == s;
  }

  /** A string in `Value` returns to `Object`, where the next key may start without a comma. */
  lemma MissingCommaAccepted()
    ensures Parse("{" + "\"a\"" + ":" + "\"b\"" + " " + "\"c\"" + ":" + "\"d\"" + "}") == Ok(())
  {
    MissingCommaAcceptedAt("{" + "\"a\"" + ":" + "\"b\"" + " " + "\"c\"" + ":" + "\"d\"" + "}");
  }

  /** The verdict on the input of `MissingCommaAccepted`, given as its pieces. */
  lemma MissingCommaAcceptedAt(s: string)
    requires s == "{" + "\"a\"" + ":" + "\"b\"" + " " + "\"c\"" + ":" + "\"d\"" + "}"
    ensures Parse(s) == Ok(())
  {
    MissingCommaLexed(s);
    ParseIsFold(s);
    MissingCommaFolds();
  }

  /** What the state machine makes of the tokens of `MissingCommaAccepted`. */
  lemma MissingCommaFolds()
    ensures Fold(MissingCommaTokens, Default) == Ok(Default)
  {
  }

  /** The input of `TrailingGarbageAccepted`, token by token, with where each token's text starts and ends. */
  const TrailingGarbageTokens: seq<Token> := [OpenObject, CloseObject]
  const TrailingGarbageCuts: seq<(nat, nat)> := [(0, 1), (1, 2)]

  /** What follows the last token of the input of `TrailingGarbageAccepted`. */
  lemma TrailingGarbageTail(s: string)
    requires s == "{" + "}" + "x"
    ensures |s| == 3
    ensures s[2..2] == "" && s[2] == 'x'
  {
  }

  /** Where tokens 0 to 1 of the input of `TrailingGarbageAccepted` are written, with the whitespace before each. */
  lemma TrailingGarbagePieces(s: string)
    requires s == "{" + "}" + "x"
    ensures |s| == 3
    ensures s[0..1] == "{"
    ensures s[1..2] == "}"
  {
  }

  /** The input of `TrailingGarbageAccepted` read through its cuts from token 0 on. */
  lemma TrailingGarbageSteps(s: string)
    requires s == "{" + "}" + "x"
    ensures Steps(s, 0, TrailingGarbageCuts, TrailingGarbageTokens, 0)
  {
    TrailingGarbagePieces(s);
    TrailingGarbageTail(s);
    StepsEnd(s, 2, TrailingGarbageCuts, TrailingGarbageTokens);
    StepsCons(s, 1, TrailingGarbageCuts, TrailingGarbageTokens, 1);
    StepsCons(s, 0, TrailingGarbageCuts, TrailingGarbageTokens, 0);
  }

  /** The tokens of the input of `TrailingGarbageAccepted`. */
  lemma TrailingGarbageLexed(s: string)
    requires s == "{" + "}" + "x"
    ensures Tokens(s, 0) == TrailingGarbageTokens
  {
    TrailingGarbageSteps(s);
    TokensBySteps(s, 0, TrailingGarbageCuts, TrailingGarbageTokens, 0);
    TrailingGarbageTail(s);
    NoTokensAtUnknown(s, 2, 2);
    assert s[0..] == s;
  }

  /** The unknown `x` after the closing brace ends the stream in `Default`. */
  lemma TrailingGarbageAccepted()
    ensures Parse("{}x") == Ok(())
  {
    TrailingGarbageAcceptedAt("{}x");
  }

  /** The verdict on the input of `TrailingGarbageAccepted`, given as its pieces. */
  lemma TrailingGarbageAcceptedAt(s: string)
    requires s == "{" + "}" + "x"
    ensures Parse(s) == Ok(())
  {
    TrailingGarbageLexed(s);
    ParseIsFold(s);
    TrailingGarbageFolds();
  }

  /** What the state machine makes of the tokens of `TrailingGarbageAccepted`. */
  lemma TrailingGarbageFolds()
    ensures Fold(TrailingGarbageTokens, Default) == Ok(Default)
  {
  }

  /** The input of `NonAsciiKeyAccepted`, token by token, with where each token's text starts and ends. */
  const NonAsciiKeyTokens: seq<Token> := [OpenObject, String("é"), KeyValueSeparator, String("a"), CloseObject]
  const NonAsciiKeyCuts: seq<(nat, nat)> := [(0, 1), (1, 4), (4, 5), (5, 8), (8, 9)]

  /** What follows the last token of the input of `NonAsciiKeyAccepted`. */
  lemma NonAsciiKeyTail(s: string)
    requires s == "{" + "\"é\"" + ":" + "\"a\"" + "}"
    ensures |s| == 9
    ensures s[9..] == ""
  {
  }

  /** Where tokens 3 to 4 of the input of `NonAsciiKeyAccepted` are written, with the whitespace before each. */
  lemma NonAsciiKeyPiecesFrom3(s: string)
    requires s == "{" + "\"é\"" + ":" + "\"a\"" + "}"
    ensures |s| == 9
    ensures s[5..8] == "\"a\""
    ensures s[8..9] == "}"
  {
  }

  /** The input of `NonAsciiKeyAccepted` read through its cuts from token 3 on. */
  lemma NonAsciiKeyStepsFrom3(s: string)
    requires s == "{" + "\"é\"" + ":" + "\"a\"" + "}"
    ensures Steps(s, 5, NonAsciiKeyCuts, NonAsciiKeyTokens, 3)
  {
    NonAsciiKeyPiecesFrom3(s);
    NonAsciiKeyTail(s);
    StepsEnd(s, 9, NonAsciiKeyCuts, NonAsciiKeyTokens);
    StepsCons(s, 8, NonAsciiKeyCuts, NonAsciiKeyTokens, 4);
    StepsCons(s, 5, NonAsciiKeyCuts, NonAsciiKeyTokens, 3);
  }

  /** Where tokens 0 to 2 of the input of `NonAsciiKeyAccepted` are written, with the whitespace before each. */
  lemma NonAsciiKeyPieces(s: string)
    requires s == "{" + "\"é\"" + ":" + "\"a\"" + "}"
    ensures |s| == 9
    ensures s[0..1] == "{"
    ensures s[1..4] == "\"é\""
    ensures s[4..5] == ":"
  {
  }

  /** The input of `NonAsciiKeyAccepted` read through its cuts from token 0 on. */
  lemma NonAsciiKeySteps(s: string)
    requires s == "{" + "\"é\"" + ":" + "\"a\"" + "}"
    ensures Steps(s, 0, NonAsciiKeyCuts, NonAsciiKeyTokens, 0)
  {
    NonAsciiKeyPieces(s);
    NonAsciiKeyStepsFrom3(s);
    StepsCons(s, 4, NonAsciiKeyCuts, NonAsciiKeyTokens, 2);
    StepsCons(s, 1, NonAsciiKeyCuts, NonAsciiKeyTokens, 1);
    StepsCons(s, 0, NonAsciiKeyCuts, NonAsciiKeyTokens, 0);
  }

  /** The tokens of the input of `NonAsciiKeyAccepted`. */
  lemma NonAsciiKeyLexed(s: string)
    requires s == "{" + "\"é\"" + ":" + "\"a\"" + "}"
    ensures Tokens(s, 0) == NonAsciiKeyTokens
  {
    NonAsciiKeySteps(s);
    TokensBySteps(s, 0, NonAsciiKeyCuts, NonAsciiKeyTokens, 0);
    NonAsciiKeyTail(s);
    NoTokensAtEnd(s, 9);
    assert s[0..] == s;
  }

  /** A key holding a character outside ASCII: the character cursor reads it like any other key. */
  lemma NonAsciiKeyAccepted()
    ensures Parse("{\"é\":\"a\"}") == Ok(())
  {
    NonAsciiKeyAcceptedAt("{\"é\":\"a\"}");
  }

  /** The verdict on the input of `NonAsciiKeyAccepted`, given as its pieces. */
  lemma NonAsciiKeyAcceptedAt(s: string)
    requires s == "{" + "\"é\"" + ":" + "\"a\"" + "}"
    ensures Parse(s) == Ok(())
  {
    NonAsciiKeyLexed(s);
    ParseIsFold(s);
    NonAsciiKeyFolds();
  }

  /** What the state machine makes of the tokens of `NonAsciiKeyAccepted`. */
  lemma NonAsciiKeyFolds()
    ensures Fold(NonAsciiKeyTokens, Default) == Ok(Default)
  {
  }
}
