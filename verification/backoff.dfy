/** The back-off cascade and the per-step size handler, exactly as written:
    the order-k lookups scan the characters of a chunk string, and the
    shortened keys are built from the last CHARACTERS of the key. */
module Backoff {
  import opened Results
  import opened Text
  import opened Counter
  import opened Tally
  import opened Sampler
  import opened Chunker

  /** Every element of the corpus is a whitespace-free, non-empty token. */
  predicate Tokens(corpus: seq<string>)
  {
    forall i :: 0 <= i < |corpus| ==> IsToken(corpus[i])
  }

  /** The shape of a corpus list built from corpus: four lists, the corpus
      last, the three chunk lists non-empty whenever the corpus is. */
  predicate ChunkedFrom(cl: seq<seq<string>>, corpus: seq<string>)
  {
    && |cl| == 4 && cl[3] == corpus
    && (|corpus| > 0 ==> |cl[0]| > 0 && |cl[1]| > 0 && |cl[2]| > 0)
  }

  /** corpus_list: the 4-, 3- and 2-way chunk lists, then the corpus itself. */
  function CorpusList(text: string): (cl: seq<seq<string>>)
    ensures |cl| == 4 && cl[3] == Split(text)
    ensures forall j :: 0 <= j < 4 ==> (|cl[j]| > 0 <==> |Split(text)| > 0)
    ensures ChunkedFrom(cl, Split(text)) && Tokens(Split(text))
  {
    [KWaySplit(text, 4), KWaySplit(text, 3), KWaySplit(text, 2), Split(text)]
  }

  /** one_word: draw a follower of the current word from its order-1 tally. */
  function OneWord(pick: Chooser, t: nat, cw: string, corpus: seq<string>): (r: Result<string>)
    ensures r.Ok? <==> HasFollower(cw, corpus)
    ensures r.Err? ==> r.error == EmptyDistribution
    ensures r.Ok? ==> Observed(cw, r.value, corpus)
  {
    var e := WordElement(cw, corpus);
    var k := GetKeys(e);
    var v := GetVals(e, k);
    TallyEmptyIff(cw, corpus);
    Choices(pick, t, k, v)
  }

  /** two_words: try the order-2 tally of the first chunk string of cl[0],
      else fall back to one_word on the last list of cl. */
  function TwoWords(pick: Chooser, t: nat, key: string, cw: string, cl: seq<seq<string>>): Result<string>
    requires |cl| >= 1
  {
    var e2 :- ChunkElement(key, cl[0]);
    var k2 := GetKeys(e2);
    if |k2| > 0 then Choices(pick, t, k2, GetVals(e2, k2))
    else OneWord(pick, t, cw, cl[|cl| - 1])
  }

  /** three_words: try the order-3 tally of the first chunk string of cl[0],
      else two_words on " ".join(key[-2:]) and cl[1:]. */
  function ThreeWords(pick: Chooser, t: nat, key: string, cw: string, cl: seq<seq<string>>): Result<string>
    requires |cl| >= 2
  {
    var e3 :- ChunkElement(key, cl[0]);
    var k3 := GetKeys(e3);
    if |k3| > 0 then Choices(pick, t, k3, GetVals(e3, k3))
    else TwoWords(pick, t, SpacedTail(key, 2), cw, cl[1..])
  }

  /** four_words: try the order-4 tally of the first chunk string of cl[1],
      else three_words on " ".join(key[-3:]) and cl[1:]. */
  function FourWords(pick: Chooser, t: nat, key: string, cw: string, cl: seq<seq<string>>): Result<string>
    requires |cl| >= 3
  {
    var e4 :- ChunkElement(key, cl[1]);
    var k4 := GetKeys(e4);
    if |k4| > 0 then Choices(pick, t, k4, GetVals(e4, k4))
    else ThreeWords(pick, t, SpacedTail(key, 3), cw, cl[1..])
  }

  /** The order-1 step: append the drawn word to the sentence and make it
      the current word. */
  function AppendWord(sentence: seq<string>, next: Result<string>): (r: Result<(seq<string>, string)>)
    ensures r.Ok? <==> next.Ok?
    ensures r.Ok? ==> r.value.0 == sentence + [next.value] && r.value.1 == next.value
    ensures r.Err? ==> r.error == next.error
  {
    var w :- next;
    Ok((sentence + [w], w))
  }

  /** The higher-order step: extend the sentence by the tokens of the drawn
      chunk and make the last of them the current word. */
  function Extend(sentence: seq<string>, next: Result<string>): (r: Result<(seq<string>, string)>)
    ensures r.Ok? <==> next.Ok? && |Split(next.value)| > 0
    ensures r.Err? ==> r.error == (if next.Err? then next.error else IndexOutOfRange)
    ensures r.Ok? ==> next.Ok? && r.value.0 == sentence + Split(next.value)
    ensures r.Ok? ==> |r.value.0| > |sentence| && r.value.1 == r.value.0[|r.value.0| - 1]
  {
    var nw :- next;
    var ws := Split(nw);
    if |ws| == 0 then Err(IndexOutOfRange) else Ok((sentence + ws, ws[|ws| - 1]))
  }

  /** size_handler: one generation step at the requested order. */
  function SizeHandler(pick: Chooser, t: nat, size: int, sentence: seq<string>, cw: string,
                       cl: seq<seq<string>>): Result<(seq<string>, string)>
    requires |cl| == 4
  {
    if size > 1 && |sentence| >= size then
      var key := Join(sentence[|sentence| - size..]);
      if size == 4 then Extend(sentence, FourWords(pick, t, key, cw, cl))
      else if size == 3 then Extend(sentence, ThreeWords(pick, t, key, cw, cl[1..]))
      else if size == 2 then Extend(sentence, TwoWords(pick, t, key, cw, cl[2..]))
      else Err(UnpackNone)
    else
      AppendWord(sentence, OneWord(pick, t, cw, cl[3]))
  }

  /** A key other than a single character finds nothing at order 2, so
      two_words is one_word on the last list. */
  lemma TwoWordsFallsThrough(pick: Chooser, t: nat, key: string, cw: string, cl: seq<seq<string>>)
    requires |cl| >= 1 && |cl[0]| > 0 && |key| != 1
    ensures TwoWords(pick, t, key, cw, cl) == OneWord(pick, t, cw, cl[|cl| - 1])
  {
    ChunkElementNeverMatches(key, cl[0]);
  }

  /** The same at order 3: its own lookup and the order-2 one on the
      shortened key both find nothing. */
  lemma ThreeWordsFallsThrough(pick: Chooser, t: nat, key: string, cw: string, cl: seq<seq<string>>)
    requires |cl| >= 2 && |cl[0]| > 0 && |cl[1]| > 0 && |key| != 1
    ensures ThreeWords(pick, t, key, cw, cl) == OneWord(pick, t, cw, cl[|cl| - 1])
  {
    var rest := cl[1..];
    assert |rest| == |cl| - 1 && rest[0] == cl[1] && rest[|rest| - 1] == cl[|cl| - 1];
    assert |cl| >= 3 ==> rest[1] == cl[2];
    var key2 := SpacedTail(key, 2);
    assert |key2| != 1;
    TwoWordsFallsThrough(pick, t, key2, cw, rest);
    var last := rest[|rest| - 1];
    assert last == cl[|cl| - 1];
    assert TwoWords(pick, t, key2, cw, rest) == OneWord(pick, t, cw, last);
    ChunkElementNeverMatches(key, cl[0]);
  }

  /** The same at order 4: orders 4, 3 and 2 all find nothing. */
  lemma FourWordsFallsThrough(pick: Chooser, t: nat, key: string, cw: string, cl: seq<seq<string>>)
    requires |cl| >= 3 && |cl[1]| > 0 && |cl[2]| > 0 && |key| != 1
    ensures FourWords(pick, t, key, cw, cl) == OneWord(pick, t, cw, cl[|cl| - 1])
  {
    var rest := cl[1..];
    assert |rest| == |cl| - 1 && rest[0] == cl[1] && rest[|rest| - 1] == cl[|cl| - 1];
    assert |cl| >= 3 ==> rest[1] == cl[2];
    var key3 := SpacedTail(key, 3);
    assert |key3| != 1;
    ThreeWordsFallsThrough(pick, t, key3, cw, rest);
    var last := rest[|rest| - 1];
    assert last == cl[|cl| - 1];
    assert ThreeWords(pick, t, key3, cw, rest) == OneWord(pick, t, cw, last);
    ChunkElementNeverMatches(key, cl[1]);
  }

  /** A follower drawn from the corpus is one of its tokens. */
  lemma OneWordToken(pick: Chooser, t: nat, cw: string, corpus: seq<string>)
    requires Tokens(corpus)
    ensures var r := OneWord(pick, t, cw, corpus);
      r.Ok? ==> r.value in corpus && IsToken(r.value)
  {
    var r := OneWord(pick, t, cw, corpus);
    if r.Ok? {
      var i :| Qualifies(cw, corpus, i) && corpus[i + 1] == r.value;
      assert corpus[i + 1] in corpus;
    }
  }

  /** Extending by the split of a token appends just that token. */
  lemma ExtendToken(sentence: seq<string>, next: Result<string>)
    requires next.Ok? ==> IsToken(next.value)
    ensures Extend(sentence, next) == AppendWord(sentence, next)
  {
    if next.Ok? {
      SplitToken(next.value);
    }
  }

  /** A space-joined run of at least two tokens is longer than one character. */
  lemma KeyLength(sentence: seq<string>, size: int)
    requires 2 <= size <= |sentence|
    requires forall i :: 0 <= i < |sentence| ==> IsToken(sentence[i])
    ensures |Join(sentence[|sentence| - size..])| != 1
  {
    var words := sentence[|sentence| - size..];
    forall i | 0 <= i < |words| ensures |words[i]| >= 1 {
      assert words[i] == sentence[|sentence| - size + i];
    }
    JoinLength(words);
  }

  /** Unfolding helper: size_handler at an order k from 2 to 4 with at least
      k words written, kept apart so that the proof of SizeHandlerStep does
      not unfold the cascade itself. */
  lemma SizeHandlerHigh(pick: Chooser, t: nat, size: int, sentence: seq<string>, cw: string,
                        cl: seq<seq<string>>)
    requires |cl| == 4 && 2 <= size <= 4 && |sentence| >= size
    ensures var key := Join(sentence[|sentence| - size..]);
      SizeHandler(pick, t, size, sentence, cw, cl)
        == Extend(sentence, if size == 4 then FourWords(pick, t, key, cw, cl)
                            else if size == 3 then ThreeWords(pick, t, key, cw, cl[1..])
                            else TwoWords(pick, t, key, cw, cl[2..]))
  {
  }

  /** The cascade at order k from 2 to 4, on a key longer than one
      character, is one_word on the corpus. */
  lemma CascadeFallsThrough(pick: Chooser, t: nat, size: int, key: string, cw: string,
                            cl: seq<seq<string>>, corpus: seq<string>)
    requires 2 <= size <= 4 && |key| != 1
    requires ChunkedFrom(cl, corpus) && |corpus| > 0
    ensures (if size == 4 then FourWords(pick, t, key, cw, cl)
             else if size == 3 then ThreeWords(pick, t, key, cw, cl[1..])
             else TwoWords(pick, t, key, cw, cl[2..]))
         == OneWord(pick, t, cw, corpus)
  {
    assert cl[1..][0] == cl[1] && cl[1..][1] == cl[2] && cl[1..][2] == cl[3] && |cl[1..]| == 3;
    assert cl[2..][0] == cl[2] && cl[2..][1] == cl[3] && |cl[2..]| == 2;
    if size == 4 {
      FourWordsFallsThrough(pick, t, key, cw, cl);
    } else if size == 3 {
      ThreeWordsFallsThrough(pick, t, key, cw, cl[1..]);
    } else {
      TwoWordsFallsThrough(pick, t, key, cw, cl[2..]);
    }
  }

  /** Every step, whatever order is drawn, is one_word on the corpus: it
      appends exactly one corpus token, keeps the sentence before it, and
      makes that token the current word (or fails as one_word fails). */
  lemma SizeHandlerStep(pick: Chooser, t: nat, size: int, sentence: seq<string>, cw: string,
                        cl: seq<seq<string>>, corpus: seq<string>)
    requires 1 <= size <= 4
    requires ChunkedFrom(cl, corpus) && Tokens(corpus)
    requires forall i :: 0 <= i < |sentence| ==> sentence[i] in corpus
    ensures SizeHandler(pick, t, size, sentence, cw, cl) == AppendWord(sentence, OneWord(pick, t, cw, corpus))
  {
    var next := OneWord(pick, t, cw, corpus);
    if size > 1 && |sentence| >= size {
      assert sentence[0] in corpus;
      assert forall i :: 0 <= i < |sentence| ==> IsToken(sentence[i]);
      KeyLength(sentence, size);
      OneWordToken(pick, t, cw, corpus);
      ExtendToken(sentence, next);
      CascadeFallsThrough(pick, t, size, Join(sentence[|sentence| - size..]), cw, cl, corpus);
      SizeHandlerHigh(pick, t, size, sentence, cw, cl);
    }
  }
}
