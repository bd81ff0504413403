/** The token-to-sentence segmenter of the agent window's
    `update_ai_response` slot: every streamed token is appended to the
    partial sentence, and a token that is exactly one terminator cuts the
    partial sentence off, strips it and hands it to speech synthesis. */
module Segmenter {
  import opened Wrappers
  import opened Text

  /** The seven terminator tokens: fullwidth full stop, comma, exclamation
      and question marks, and the ASCII full stop, exclamation and question
      marks. The ASCII comma is not one of them. */
  const Terminators: set<string> :=
    {"\U{3002}", "\U{FF0C}", "\U{FF01}", "\U{FF1F}", ".", "!", "?"}

  /** The test is membership of the whole token, not a search inside it. */
  predicate IsTerminator(token: string) {
    token in Terminators
  }

  /** Every terminator is a single non-whitespace character. */
  lemma TerminatorShape(token: string)
    requires IsTerminator(token)
    ensures |token| == 1 && !IsSpace(token[0])
  {
  }

  /** `sentence` is what the slot sends to synthesis when the partial
      sentence has grown to `raw`: `raw` ends with a terminator, and the
      sentence is `raw` stripped, non-empty and ending with that same
      terminator. */
  predicate CutFrom(raw: string, sentence: string) {
    && raw != []
    && IsTerminator([raw[|raw| - 1]])
    && sentence == Strip(raw)
    && sentence != []
    && sentence[|sentence| - 1] == raw[|raw| - 1]
  }

  /** Result of one token: the new partial sentence, and the sentence sent
      to speech synthesis, if any. */
  datatype Fed = Fed(buffer: string, sentence: Option<string>)

  /** One call of the slot with partial sentence `buffer`: a sentence is
      sent exactly when the token is a terminator; otherwise the token is
      kept at the end of the partial sentence. */
  function Feed(buffer: string, token: string): (r: Fed)
    ensures r.sentence.Some? <==> IsTerminator(token)
    ensures r.sentence.None? ==> r.buffer == buffer + token
    ensures r.sentence.Some? ==> r.buffer == "" && r.sentence.value == Strip(buffer + token)
  {
    var partial := buffer + token;
    if IsTerminator(token) then Fed("", Some(Strip(partial))) else Fed(partial, None)
  }

  /** On a terminator, the sentence sent is cut from the partial sentence
      plus the terminator: non-empty, ending with the terminator, and with
      only leading whitespace trimmed. */
  lemma FeedCutsSentence(buffer: string, token: string)
    requires IsTerminator(token)
    ensures CutFrom(buffer + token, Feed(buffer, token).sentence.value)
    ensures Feed(buffer, token).sentence.value == (buffer + token)[LeadingSpace(buffer + token)..]
  {
    TerminatorShape(token);
    var partial := buffer + token;
    assert partial[|partial| - 1] == token[0];
    StripKeepsLast(partial);
  }

  /** Number of terminator tokens in `tokens`. */
  function CountTerminators(tokens: seq<string>): nat {
    if tokens == [] then 0
    else (if IsTerminator(tokens[0]) then 1 else 0) + CountTerminators(tokens[1..])
  }

  /** Result of feeding a token stream: the final partial sentence, the
      sentences sent to synthesis in order, and for each of them the
      unstripped text it was cut from. */
  datatype Segmented = Segmented(buffer: string, sentences: seq<string>, raw: seq<string>)

  /** `[p.strip() for p in pieces]`. */
  function StripEach(pieces: seq<string>): (r: seq<string>)
    ensures |r| == |pieces|
  {
    if pieces == [] then [] else [Strip(pieces[0])] + StripEach(pieces[1..])
  }

  predicate EndsWithTerminator(piece: string) {
    piece != [] && IsTerminator([piece[|piece| - 1]])
  }

  /** Feeding `tokens` one at a time, starting from partial sentence
      `buffer`; the lemmas below state what it produces. */
  function FeedAll(buffer: string, tokens: seq<string>): Segmented
    decreases |tokens|
  {
    if tokens == [] then
      Segmented(buffer, [], [])
    else
      var step := Feed(buffer, tokens[0]);
      var rest := FeedAll(step.buffer, tokens[1..]);
      if step.sentence.Some? then
        Segmented(rest.buffer, [step.sentence.value] + rest.sentences, [buffer + tokens[0]] + rest.raw)
      else
        rest
  }

  /** One sentence per terminator token, each the strip of its raw piece,
      and each raw piece ends with a terminator. */
  lemma {:induction false} FeedAllShape(buffer: string, tokens: seq<string>)
    ensures var r := FeedAll(buffer, tokens);
            && |r.raw| == CountTerminators(tokens)
            && (forall i :: 0 <= i < |r.raw| ==> EndsWithTerminator(r.raw[i]))
            && r.sentences == StripEach(r.raw)
    decreases |tokens|
  {
    if tokens != [] {
      var step := Feed(buffer, tokens[0]);
      FeedAllShape(step.buffer, tokens[1..]);
      var rest := FeedAll(step.buffer, tokens[1..]);
      if step.sentence.Some? {
        var raw := [buffer + tokens[0]] + rest.raw;
        assert raw[1..] == rest.raw;
        TerminatorShape(tokens[0]);
      }
    }
  }

  /** Nothing is lost: the raw pieces followed by the final partial sentence
      spell out the starting buffer followed by all tokens fed. */
  lemma {:induction false} FeedAllConserves(buffer: string, tokens: seq<string>)
    ensures Concat(FeedAll(buffer, tokens).raw) + FeedAll(buffer, tokens).buffer
         == buffer + Concat(tokens)
    decreases |tokens|
  {
    if tokens != [] {
      var step := Feed(buffer, tokens[0]);
      FeedAllConserves(step.buffer, tokens[1..]);
      var rest := FeedAll(step.buffer, tokens[1..]);
      if step.sentence.Some? {
        ConcatStep(buffer, tokens, rest.raw, rest.buffer);
      } else {
        assert Concat(tokens) == tokens[0] + Concat(tokens[1..]);
      }
    }
  }

  /** Every sentence a token stream produces is non-empty and ends with the
      terminator its raw piece ends with. */
  lemma SentencesAreCut(buffer: string, tokens: seq<string>)
    ensures var r := FeedAll(buffer, tokens);
            && |r.sentences| == |r.raw|
            && forall i :: 0 <= i < |r.raw| ==> CutFrom(r.raw[i], r.sentences[i])
  {
    var r := FeedAll(buffer, tokens);
    FeedAllShape(buffer, tokens);
    forall i | 0 <= i < |r.raw|
      ensures CutFrom(r.raw[i], r.sentences[i])
    {
      StripEachAt(r.raw, i);
      PieceIsCut(r.raw[i]);
    }
  }

  lemma PieceIsCut(piece: string)
    requires EndsWithTerminator(piece)
    ensures CutFrom(piece, Strip(piece))
  {
    TerminatorShape([piece[|piece| - 1]]);
    StripKeepsLast(piece);
  }

  lemma {:induction false} StripEachAt(pieces: seq<string>, i: nat)
    requires i < |pieces|
    ensures StripEach(pieces)[i] == Strip(pieces[i])
  {
    if i > 0 {
      StripEachAt(pieces[1..], i - 1);
    }
  }

  /** The bookkeeping step of `FeedAll` when a sentence is cut: the piece
      `buffer + tokens[0]` moves from the text fed to the raw pieces. */
  lemma ConcatStep(buffer: string, tokens: seq<string>, raw: seq<string>, rest: string)
    requires tokens != []
    requires Concat(raw) + rest == Concat(tokens[1..])
    ensures Concat([buffer + tokens[0]] + raw) + rest == buffer + Concat(tokens)
  {
    assert ([buffer + tokens[0]] + raw)[1..] == raw;
  }

  /** Feeding a list of tokens in two parts is feeding the first part and
      then the second from where the first left off. */
  lemma {:induction false} FeedAllAppend(buffer: string, a: seq<string>, b: seq<string>)
    ensures FeedAll(buffer, a + b) ==
              var first := FeedAll(buffer, a);
              var second := FeedAll(first.buffer, b);
              Segmented(second.buffer, first.sentences + second.sentences, first.raw + second.raw)
    decreases |a|
  {
    if a == [] {
      assert a + b == b;
    } else {
      var step := Feed(buffer, a[0]);
      assert (a + b)[0] == a[0];
      assert (a + b)[1..] == a[1..] + b;
      FeedAllAppend(step.buffer, a[1..], b);
      var first := FeedAll(step.buffer, a[1..]);
      var second := FeedAll(first.buffer, b);
      if step.sentence.Some? {
        assert [step.sentence.value] + (first.sentences + second.sentences)
            == ([step.sentence.value] + first.sentences) + second.sentences;
        assert [buffer + a[0]] + (first.raw + second.raw)
            == ([buffer + a[0]] + first.raw) + second.raw;
      }
    }
  }

  /** Text already buffered when a stream starts is the front of the first
      piece the stream cuts. */
  lemma {:induction false} FirstPieceKeepsBuffer(buffer: string, tokens: seq<string>)
    requires CountTerminators(tokens) > 0
    ensures FeedAll(buffer, tokens).raw != []
    ensures buffer <= FeedAll(buffer, tokens).raw[0]
    decreases |tokens|
  {
    var step := Feed(buffer, tokens[0]);
    if step.sentence.None? {
      FirstPieceKeepsBuffer(step.buffer, tokens[1..]);
      assert buffer <= step.buffer;
    }
  }

  /** The buffer never holds a terminator token as its last piece: after a
      terminator token the partial sentence is empty. */
  lemma LastTokenTerminates(buffer: string, tokens: seq<string>)
    requires tokens != [] && IsTerminator(tokens[|tokens| - 1])
    ensures FeedAll(buffer, tokens).buffer == ""
    ensures |FeedAll(buffer, tokens).sentences| > 0
  {
    var init := tokens[..|tokens| - 1];
    assert tokens == init + [tokens[|tokens| - 1]];
    FeedAllAppend(buffer, init, [tokens[|tokens| - 1]]);
  }

  /** The test is on whole tokens: a token that merely contains a full stop
      does not end a sentence, while the same text split so that the full
      stop is a token of its own does. */
  lemma WholeTokensOnly()
    ensures Feed("", "Hi.") == Fed("Hi.", None)
    ensures Feed("Hi", ".") == Fed("", Some("Hi."))
  {
    assert !IsTerminator("Hi.");
    assert "Hi" + "." == "Hi.";
    StripUntouched("Hi.");
  }

  /** The ASCII comma does not end a sentence; the fullwidth comma does. */
  lemma CommaExample()
    ensures Feed("Hello", ",") == Fed("Hello,", None)
    ensures Feed("Hello", "\U{FF0C}") == Fed("", Some("Hello\U{FF0C}"))
  {
    assert !IsTerminator(",");
    assert "Hello" + "\U{FF0C}" == "Hello\U{FF0C}";
    StripUntouched("Hello\U{FF0C}");
  }

  /** Whitespace after a terminator is trimmed from the front of the next
      sentence. */
  lemma LeadingSpaceTrimmed()
    ensures Feed(" world", ".") == Fed("", Some("world."))
  {
    var t := " world.";
    assert " world" + "." == t;
    assert t[1..] == "world.";
    assert LeadingSpace("world.") == 0;
    assert LeadingSpace(t) == 1;
    StripKeepsLast(t);
  }
}
