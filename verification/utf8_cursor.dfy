/** The cursor exactly as `src/json_tokenizer.rs` writes it, over UTF-8 byte offsets.

    Each call resumes with `char_indices().filter(|(pos, _)| *pos >= position)`: the indices are byte
    offsets into the UTF-8 text, but `position` is bumped by one per character. While every character
    is one byte long the two measures agree and this cursor is the one of `JsonTokenizer`. A character
    of two or more bytes leaves the counter behind the byte offsets, by one less than its width. The
    next call therefore resumes too early and reads one or more characters again. Each character read
    again moves the counter on by one, so the counter can catch up.
 */
module Utf8Cursor {
  import opened Wrappers
  import opened JsonTokenizer
  import opened JsonParser

  // ---------------------------------------------------------------------------------------------
  // Byte offsets
  // ---------------------------------------------------------------------------------------------

  /** The length of the UTF-8 encoding of `c`. */
  function Utf8Width(c: char): (n: nat)
    ensures 1 <= n <= 4
    ensures n == 1 <==> (c as int) < 0x80
  {
    var v := c as int;
    if v < 0x80 then 1 else if v < 0x800 then 2 else if v < 0x1_0000 then 3 else 4
  }

  /** The byte offset at which character `i` of `s` starts: the index `char_indices()` pairs it with. */
  function Offset(s: string, i: nat): nat
    requires i <= |s|
  {
    if i == 0 then 0 else Offset(s, i - 1) + Utf8Width(s[i - 1])
  }

  /** Offsets grow by at least one per character. */
  lemma {:induction false} OffsetGrows(s: string, i: nat, j: nat)
    requires i <= j <= |s|
    ensures Offset(s, i) + (j - i) <= Offset(s, j)
    decreases j - i
  {
    if i < j {
      OffsetGrows(s, i, j - 1);
    }
  }

  /** Every character is one byte long. */
  predicate Ascii(s: string) {
    forall i | 0 <= i < |s| :: (s[i] as int) < 0x80
  }

  /** On ASCII text a byte offset is a character index. */
  lemma {:induction false} OffsetOfAscii(s: string, i: nat)
    requires i <= |s| && Ascii(s)
    ensures Offset(s, i) == i
  {
    if i > 0 {
      OffsetOfAscii(s, i - 1);
    }
  }

  /** The first character, from index `i` on, whose byte offset reaches `p`; `|s|` when there is none.
      This is where the filtered iterator resumes. */
  function ResumeFrom(s: string, i: nat, p: nat): (r: nat)
    requires i <= |s|
    ensures i <= r <= |s|
    ensures r < |s| ==> p <= Offset(s, r)
    ensures forall j | i <= j < r :: Offset(s, j) < p
    decreases |s| - i
  {
    if i == |s| || p <= Offset(s, i) then i else ResumeFrom(s, i + 1, p)
  }

  /** `char_indices().filter(|(pos, _)| *pos >= p)` starts at character `Resume(s, p)`. */
  function Resume(s: string, p: nat): (r: nat)
    ensures r <= |s|
    ensures r < |s| ==> p <= Offset(s, r)
    ensures forall j | 0 <= j < r :: Offset(s, j) < p
  {
    ResumeFrom(s, 0, p)
  }

  /** On ASCII text the iterator resumes at the character whose index is the counter. */
  lemma ResumeOfAscii(s: string, p: nat)
    requires Ascii(s)
    ensures Resume(s, p) == if p <= |s| then p else |s|
  {
    var r := Resume(s, p);
    if r < |s| {
      OffsetOfAscii(s, r);
    }
    if r > p {
      OffsetOfAscii(s, p);
    }
  }

  // ---------------------------------------------------------------------------------------------
  // The cursor as written
  // ---------------------------------------------------------------------------------------------

  /** The string-literal loop of `get_string` as written, over characters from index `i` on with the
      counter at `p`: each character looked at bumps the counter by one. */
  function ScanAsWritten(s: string, i: nat, p: nat, acc: string): (r: Lexed)
    requires i <= |s| && (i < |s| ==> p <= Offset(s, i))
    ensures r.token.Some? ==> p < r.position <= Offset(s, |s|)
    decreases |s| - i
  {
    if i == |s| then Lexed(None, p)
    else
      OffsetGrows(s, i, i + 1);
      OffsetGrows(s, i + 1, |s|);
      if s[i] == '"' then Lexed(Some(String(acc)), p + 1)
      else ScanAsWritten(s, i + 1, p + 1, acc + [s[i]])
  }

  /** The loop of `get_next` as written, over characters from index `i` on with the counter at `p`.
      The quote case hands over to `get_string`, which resumes by byte offset from the counter. */
  function ClassifyAsWritten(s: string, i: nat, p: nat): (r: Lexed)
    requires i <= |s| && (i < |s| ==> p <= Offset(s, i))
    ensures r.token.Some? ==> p < r.position <= Offset(s, |s|)
    decreases |s| - i
  {
    if i == |s| then Lexed(None, p)
    else
      OffsetGrows(s, i, i + 1);
      OffsetGrows(s, i + 1, |s|);
      if IsWhitespace(s[i]) then ClassifyAsWritten(s, i + 1, p + 1)
      else match s[i]
        case '{' => Lexed(Some(OpenObject), p + 1)
        case '}' => Lexed(Some(CloseObject), p + 1)
        case '"' => ScanAsWritten(s, Resume(s, p + 1), p + 1, [])
        case ':' => Lexed(Some(KeyValueSeparator), p + 1)
        case ',' => Lexed(Some(FieldSeparator), p + 1)
        case _ => Lexed(None, p + 1)
  }

  /** `get_next` as written, with the counter at `p`. */
  function NextAsWritten(s: string, p: nat): (r: Lexed)
    ensures r.token.Some? ==> p < r.position <= Offset(s, |s|)
  {
    ClassifyAsWritten(s, Resume(s, p), p)
  }

  /** The parse loop over the cursor as written. */
  function RunAsWritten(s: string, p: nat, st: State): (r: Result<(), ParserError>)
    ensures r != Err(Empty)
    decreases Offset(s, |s|) - p
  {
    var next := NextAsWritten(s, p);
    if next.token.None? then Finish(st)
    else
      match Step(st, next.token.value)
      case Err(e) => Err(e)
      case Ok(st') => RunAsWritten(s, next.position, st')
  }

  /** `Parser::parse` over the cursor as written. */
  function ParseAsWritten(s: string): (r: Result<(), ParserError>)
    ensures r == Err(Empty) <==> NextAsWritten(s, 0).token.None?
  {
    if NextAsWritten(s, 0).token.None? then Err(Empty) else RunAsWritten(s, 0, Default)
  }

  // ---------------------------------------------------------------------------------------------
  // On ASCII text the cursor as written is the character cursor
  // ---------------------------------------------------------------------------------------------

  lemma {:induction false} ScanAsWrittenOfAscii(s: string, p: nat, acc: string)
    requires p <= |s| && Ascii(s)
    ensures p < |s| ==> p <= Offset(s, p)
    ensures ScanAsWritten(s, p, p, acc) == ScanString(s, p, acc)
    decreases |s| - p
  {
    if p < |s| {
      OffsetOfAscii(s, p);
      OffsetOfAscii(s, p + 1);
      if s[p] != '"' {
        ScanAsWrittenOfAscii(s, p + 1, acc + [s[p]]);
      }
    }
  }

  lemma {:induction false} ClassifyAsWrittenOfAscii(s: string, p: nat)
    requires p <= |s| && Ascii(s)
    ensures p < |s| ==> p <= Offset(s, p)
    ensures ClassifyAsWritten(s, p, p) == Next(s, p)
    decreases |s| - p
  {
    if p < |s| {
      OffsetOfAscii(s, p);
      OffsetOfAscii(s, p + 1);
      if IsWhitespace(s[p]) {
        ClassifyAsWrittenOfAscii(s, p + 1);
      } else if s[p] == '"' {
        ResumeOfAscii(s, p + 1);
        ScanAsWrittenOfAscii(s, p + 1, []);
      }
    }
  }

  /** On ASCII text each `get_next` call as written yields what the character cursor yields. */
  lemma NextAsWrittenOfAscii(s: string, p: nat)
    requires Ascii(s)
    ensures NextAsWritten(s, p) == Next(s, p)
  {
    ResumeOfAscii(s, p);
    if p <= |s| {
      ClassifyAsWrittenOfAscii(s, p);
    }
  }

  lemma {:induction false} RunAsWrittenOfAscii(s: string, p: nat, st: State)
    requires Ascii(s)
    ensures RunAsWritten(s, p, st) == Run(s, p, st)
    decreases Offset(s, |s|) - p
  {
    NextAsWrittenOfAscii(s, p);
    var next := Next(s, p);
    if next.token.Some? {
      if Step(st, next.token.value).Ok? {
        RunAsWrittenOfAscii(s, next.position, Step(st, next.token.value).value);
      }
    }
  }

  /** On ASCII text the validator as written and the character-cursor validator agree. */
  lemma ParseAsWrittenOfAscii(s: string)
    requires Ascii(s)
    ensures ParseAsWritten(s) == Parse(s)
  {
    NextAsWrittenOfAscii(s, 0);
    RunAsWrittenOfAscii(s, 0, Default);
  }

  // ---------------------------------------------------------------------------------------------
  // A two-byte character in a key
  // ---------------------------------------------------------------------------------------------

  /** Where the characters of `{"é":"a"}` sit, in characters and in bytes, and where the filtered
      iterator resumes for the counters the cursor reaches. */
  lemma NonAsciiKeyOffsets(s: string)
    requires s == "{" + "\"" + "é" + "\"" + ":" + "\"" + "a" + "\"" + "}"
    ensures |s| == 9 && s[0] == '{' && s[1] == '"' && s[2] == 'é' && s[3] == '"' && s[4] == ':'
    ensures s[5] == '"' && s[6] == 'a' && s[7] == '"' && s[8] == '}'
    ensures Offset(s, 1) == 1 && Offset(s, 2) == 2 && Offset(s, 3) == 4 && Offset(s, 4) == 5
    ensures Resume(s, 0) == 0 && Resume(s, 1) == 1 && Resume(s, 2) == 2
    ensures Resume(s, 4) == 3 && Resume(s, 5) == 4
    ensures Offset(s, 6) == 7 && Resume(s, 7) == 6
  {
    assert |s| == 9 && s[0] == '{' && s[1] == '"' && s[2] == 'é' && s[3] == '"' && s[4] == ':';
    assert Offset(s, 1) == 1 && Offset(s, 2) == 2 && Offset(s, 3) == 4 && Offset(s, 4) == 5;
  }

  /** The calls of the cursor as written on `{"é":"a"}`: after the key `é` the counter is 4, which
      is the byte offset of the key's closing quote, so that quote opens the next literal `:`. That
      call reads the closing quote again and ends with the counter at 7, the byte offset of `a`: the
      counter has caught up, and the next resume is `Resume(s, 7) == 6`. */
  lemma NonAsciiKeyCalls(s: string)
    requires s == "{" + "\"" + "é" + "\"" + ":" + "\"" + "a" + "\"" + "}"
    ensures NextAsWritten(s, 0) == Lexed(Some(OpenObject), 1)
    ensures NextAsWritten(s, 1) == Lexed(Some(String("é")), 4)
    ensures NextAsWritten(s, 4) == Lexed(Some(String(":")), 7)
  {
    NonAsciiKeyOffsets(s);
    assert ScanAsWritten(s, 3, 3, "é") == Lexed(Some(String("é")), 4);
    assert ScanAsWritten(s, 2, 2, []) == Lexed(Some(String("é")), 4) by {
      assert [] + [s[2]] == "é";
    }
    assert ScanAsWritten(s, 5, 6, ":") == Lexed(Some(String(":")), 7);
    assert ScanAsWritten(s, 4, 5, []) == Lexed(Some(String(":")), 7) by {
      assert [] + [s[4]] == ":";
    }
  }

  /** `{"é":"a"}` as written: the two-byte `é` leaves the counter one byte behind, so the closing
      quote of the key is read again as an opening quote, `:"` is taken as a second string literal,
      and a string in state `Key` is rejected. */
  lemma NonAsciiKeyAsWritten(s: string)
    requires s == "{" + "\"" + "é" + "\"" + ":" + "\"" + "a" + "\"" + "}"
    ensures ParseAsWritten(s) == Err(InvalidString)
  {
    NonAsciiKeyCalls(s);
    assert RunAsWritten(s, 4, Key) == Err(InvalidString);
    assert RunAsWritten(s, 1, Object) == Err(InvalidString);
    assert RunAsWritten(s, 0, Default) == Err(InvalidString);
  }
}
