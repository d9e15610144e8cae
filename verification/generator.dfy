/** Sentence and document assembly: the loops of main with the file I/O,
    the printing and the random draws of lengths and orders taken out as
    parameters. */
module Generator {
  import opened Results
  import opened Text
  import opened Tally
  import opened Sampler
  import opened Backoff

  function Max(a: int, b: int): int
  {
    if a < b then b else a
  }

  /** size_handler for a fixed chooser and corpus list, as a function of the
      draw number, the drawn order, the sentence so far and the current word. */
  function Handler(pick: Chooser, cl: seq<seq<string>>)
    : (h: (nat, int, seq<string>, string) -> Result<(seq<string>, string)>)
    requires |cl| == 4
    ensures forall t, size, sentence, cw :: h(t, size, sentence, cw) == SizeHandler(pick, t, size, sentence, cw, cl)
  {
    (t: nat, size: int, sentence: seq<string>, cw: string) => SizeHandler(pick, t, size, sentence, cw, cl)
  }

  /** The inner loop of main: one size_handler call per drawn order, the k-th
      call using draw number t + k. */
  function RunSteps(h: (nat, int, seq<string>, string) -> Result<(seq<string>, string)>, t: nat,
                    sizes: seq<int>, sentence: seq<string>, cw: string): Result<(seq<string>, string)>
    decreases |sizes|
  {
    if |sizes| == 0 then Ok((sentence, cw))
    else
      var step :- h(t, sizes[0], sentence, cw);
      RunSteps(h, t + 1, sizes[1..], step.0, step.1)
  }

  /** The order-1 draw of one_word on the corpus, as a function of the draw
      number and the current word: whatever it returns was observed after
      the current word, and it fails only for want of a follower. */
  function Draw(pick: Chooser, corpus: seq<string>): (next: (nat, string) -> Result<string>)
    ensures forall t, w :: next(t, w) == OneWord(pick, t, w, corpus)
    ensures forall t, w :: next(t, w).Ok? ==> Observed(w, next(t, w).value, corpus)
    ensures forall t, w :: next(t, w).Err? ==> next(t, w).error == EmptyDistribution
  {
    (t: nat, w: string) => OneWord(pick, t, w, corpus)
  }

  /** Reference behaviour: n plain steps of a next-word draw, each appending
      the drawn word and making it the current word. */
  function Walk(next: (nat, string) -> Result<string>, t: nat, n: nat, sentence: seq<string>,
                cw: string): Result<(seq<string>, string)>
    decreases n
  {
    if n == 0 then Ok((sentence, cw))
    else
      var step :- AppendWord(sentence, next(t, cw));
      Walk(next, t + 1, n - 1, step.0, step.1)
  }

  /** ws is a path of the order-1 chain from cw: every token was observed
      following its predecessor (cw for the first) in the corpus. */
  ghost predicate Chained(cw: string, ws: seq<string>, corpus: seq<string>)
  {
    && (|ws| > 0 ==> Observed(cw, ws[0], corpus))
    && (forall j :: 1 <= j < |ws| ==> Observed(ws[j - 1], ws[j], corpus))
  }

  /** The chain only visits corpus tokens. */
  lemma ChainedInCorpus(cw: string, ws: seq<string>, corpus: seq<string>)
    requires Chained(cw, ws, corpus)
    ensures forall j :: 0 <= j < |ws| ==> ws[j] in corpus
  {
    forall j | 0 <= j < |ws| ensures ws[j] in corpus {
      if j == 0 {
        ObservedIn(cw, ws[0], corpus);
      } else {
        ObservedIn(ws[j - 1], ws[j], corpus);
      }
    }
  }

  /** Every token of the sentence is a corpus token. */
  predicate InCorpus(sentence: seq<string>, corpus: seq<string>)
  {
    forall i :: 0 <= i < |sentence| ==> sentence[i] in corpus
  }

  /** A step function that, for every order from 1 to 4 and every sentence of
      corpus tokens, appends the word of the draw next. */
  ghost predicate StepsAreDraws(h: (nat, int, seq<string>, string) -> Result<(seq<string>, string)>,
                                next: (nat, string) -> Result<string>, corpus: seq<string>)
  {
    && (forall t, size, sentence, cw :: 1 <= size <= 4 && InCorpus(sentence, corpus) ==>
          h(t, size, sentence, cw) == AppendWord(sentence, next(t, cw)))
    && (forall t, w :: next(t, w).Ok? ==> next(t, w).value in corpus)
  }

  /** main's size_handler is the order-1 draw at every order from 1 to 4. */
  lemma HandlerIsDraw(pick: Chooser, cl: seq<seq<string>>, corpus: seq<string>)
    requires ChunkedFrom(cl, corpus) && Tokens(corpus)
    ensures StepsAreDraws(Handler(pick, cl), Draw(pick, corpus), corpus)
  {
    var h, next := Handler(pick, cl), Draw(pick, corpus);
    forall t, size, sentence, cw | 1 <= size <= 4 && InCorpus(sentence, corpus)
      ensures h(t, size, sentence, cw) == AppendWord(sentence, next(t, cw))
    {
      SizeHandlerStep(pick, t, size, sentence, cw, cl, corpus);
    }
    forall t, w | next(t, w).Ok? ensures next(t, w).value in corpus {
      OneWordToken(pick, t, w, corpus);
    }
  }

  /** Whatever orders are drawn, the inner loop is the plain order-1 walk:
      the order draws have no influence on the output. */
  lemma {:induction false} RunStepsIsWalk(h: (nat, int, seq<string>, string) -> Result<(seq<string>, string)>,
                                          next: (nat, string) -> Result<string>, t: nat, sizes: seq<int>,
                                          sentence: seq<string>, cw: string, corpus: seq<string>)
    requires StepsAreDraws(h, next, corpus)
    requires Orders(sizes) && InCorpus(sentence, corpus)
    ensures RunSteps(h, t, sizes, sentence, cw) == Walk(next, t, |sizes|, sentence, cw)
    decreases |sizes|
  {
    if |sizes| > 0 {
      var x := next(t, cw);
      assert h(t, sizes[0], sentence, cw) == AppendWord(sentence, x);
      if x.Ok? {
        var s1 := sentence + [x.value];
        assert InCorpus(s1, corpus);
        RunStepsIsWalk(h, next, t + 1, sizes[1..], s1, x.value, corpus);
      }
    }
  }

  /** A walk of n steps with a draw that only returns observed followers
      appends exactly n tokens after the untouched sentence, each observed
      after its predecessor, and ends on the last of them; it fails only
      with an error of the draw. */
  lemma {:induction false} WalkShape(next: (nat, string) -> Result<string>, t: nat, n: nat,
                                     sentence: seq<string>, cw: string, corpus: seq<string>)
    requires forall t, w :: next(t, w).Ok? ==> Observed(w, next(t, w).value, corpus)
    requires forall t, w :: next(t, w).Err? ==> next(t, w).error == EmptyDistribution
    ensures var r := Walk(next, t, n, sentence, cw);
      r.Ok? ==>
        && |r.value.0| == |sentence| + n
        && r.value.0[..|sentence|] == sentence
        && Chained(cw, r.value.0[|sentence|..], corpus)
        && r.value.1 == (if n == 0 then cw else r.value.0[|r.value.0| - 1])
    ensures var r := Walk(next, t, n, sentence, cw);
      r.Err? ==> r.error == EmptyDistribution
    decreases n
  {
    var r := Walk(next, t, n, sentence, cw);
    if n == 0 {
      assert r.value.0[|sentence|..] == [];
    } else {
      var x := next(t, cw);
      if x.Ok? {
        var w := x.value;
        var s1 := sentence + [w];
        WalkShape(next, t + 1, n - 1, s1, w, corpus);
        assert r == Walk(next, t + 1, n - 1, s1, w);
        if r.Ok? {
          WalkPrepend(cw, w, r.value.0, sentence, corpus);
        }
      }
    }
  }

  /** Extending a chain by a first step observed after cw. */
  lemma WalkPrepend(cw: string, w: string, s': seq<string>, sentence: seq<string>, corpus: seq<string>)
    requires Observed(cw, w, corpus)
    requires |s'| > |sentence| && s'[..|sentence| + 1] == sentence + [w]
    requires Chained(w, s'[|sentence| + 1..], corpus)
    ensures s'[..|sentence|] == sentence
    ensures Chained(cw, s'[|sentence|..], corpus)
  {
    var added := s'[|sentence|..];
    var tail := s'[|sentence| + 1..];
    assert s'[..|sentence|] == (sentence + [w])[..|sentence|];
    assert added[0] == w;
    forall j | 1 <= j < |added| ensures Observed(added[j - 1], added[j], corpus) {
      assert added[j] == tail[j - 1];
      if j > 1 {
        assert added[j - 1] == tail[j - 2];
      }
    }
  }

  /** The truncation after the inner loop of main: with i = L - 1 the last
      value of the loop variable, sentence[-i:] keeps the last L - 1 tokens
      (the whole buffer when L = 1, the slice then being sentence[-0:]), and
      the current word becomes the last kept token. */
  function Truncate(s: seq<string>, L: nat): (r: Result<(seq<string>, string)>)
    requires L >= 1
    ensures r.Ok? <==> |s| > 0
    ensures r.Err? ==> r.error == IndexOutOfRange
    ensures r.Ok? ==>
      var keep := if L == 1 then |s| else if |s| < L - 1 then |s| else L - 1;
      && r.value.0 == s[|s| - keep..]
      && r.value.1 == s[|s| - 1]
  {
    var i := L - 1;
    var start := if i == 0 then 0 else Max(0, |s| - i);
    var kept := s[start..];
    if |kept| == 0 then Err(IndexOutOfRange) else Ok((kept, kept[|kept| - 1]))
  }

  /** One sentence of main: L = |sizes| steps from an empty buffer, then the
      truncation. */
  function Sentence(pick: Chooser, t: nat, sizes: seq<int>, cw: string,
                    cl: seq<seq<string>>): Result<(seq<string>, string)>
    requires |cl| == 4 && |sizes| >= 1
  {
    var run :- RunSteps(Handler(pick, cl), t, sizes, [], cw);
    Truncate(run.0, |sizes|)
  }

  /** Sentence truncation: a sentence of L steps succeeds exactly when the
      order-1 walk of L steps does; it then keeps all but the first of the L
      generated tokens (all of them when L = 1), every kept token is a corpus
      token observed after its predecessor, and the next current word is the
      last kept token. */
  lemma SentenceShape(pick: Chooser, t: nat, sizes: seq<int>, cw: string, cl: seq<seq<string>>,
                      corpus: seq<string>)
    requires |sizes| >= 1 && Orders(sizes)
    requires ChunkedFrom(cl, corpus) && Tokens(corpus)
    ensures var r, w := Sentence(pick, t, sizes, cw, cl), Walk(Draw(pick, corpus), t, |sizes|, [], cw);
      && (r.Ok? <==> w.Ok?)
      && (r.Err? ==> r.error == EmptyDistribution)
      && (r.Ok? ==>
           && w.Ok? && |w.value.0| == |sizes|
           && r.value.0 == w.value.0[(if |sizes| == 1 then 0 else 1)..]
           && |r.value.0| == Max(1, |sizes| - 1)
           && (forall j :: 0 <= j < |r.value.0| ==> r.value.0[j] in corpus)
           && (forall j :: 1 <= j < |r.value.0| ==> Observed(r.value.0[j - 1], r.value.0[j], corpus))
           && r.value.1 == r.value.0[|r.value.0| - 1])
  {
    SentenceIsTruncatedWalk(pick, t, sizes, cw, cl, corpus);
    TruncatedWalkShape(Draw(pick, corpus), t, |sizes|, cw, corpus);
  }

  /** The truncated walk of L steps from an empty buffer, for any draw that
      only returns observed followers. */
  lemma TruncatedWalkShape(next: (nat, string) -> Result<string>, t: nat, L: nat, cw: string,
                           corpus: seq<string>)
    requires L >= 1
    requires forall t, w :: next(t, w).Ok? ==> Observed(w, next(t, w).value, corpus)
    requires forall t, w :: next(t, w).Err? ==> next(t, w).error == EmptyDistribution
    ensures var w := Walk(next, t, L, [], cw);
      var r := if w.Ok? then Truncate(w.value.0, L) else Err(w.error);
      && (r.Ok? <==> w.Ok?)
      && (r.Err? ==> r.error == EmptyDistribution)
      && (r.Ok? ==>
           && w.Ok? && |w.value.0| == L
           && r.value.0 == w.value.0[(if L == 1 then 0 else 1)..]
           && |r.value.0| == Max(1, L - 1)
           && (forall j :: 0 <= j < |r.value.0| ==> r.value.0[j] in corpus)
           && (forall j :: 1 <= j < |r.value.0| ==> Observed(r.value.0[j - 1], r.value.0[j], corpus))
           && r.value.1 == r.value.0[|r.value.0| - 1])
  {
    var w := Walk(next, t, L, [], cw);
    WalkShape(next, t, L, [], cw, corpus);
    if w.Ok? {
      var s := w.value.0;
      assert s[0..] == s;
      TruncateChain(cw, s, L, corpus);
    }
  }

  /** A sentence is the truncation of the order-1 walk from an empty buffer. */
  lemma SentenceIsTruncatedWalk(pick: Chooser, t: nat, sizes: seq<int>, cw: string, cl: seq<seq<string>>,
                                corpus: seq<string>)
    requires |sizes| >= 1 && Orders(sizes)
    requires ChunkedFrom(cl, corpus) && Tokens(corpus)
    ensures var r, w := Sentence(pick, t, sizes, cw, cl), Walk(Draw(pick, corpus), t, |sizes|, [], cw);
      r == if w.Ok? then Truncate(w.value.0, |sizes|) else Err(w.error)
  {
    HandlerIsDraw(pick, cl, corpus);
    RunStepsIsWalk(Handler(pick, cl), Draw(pick, corpus), t, sizes, [], cw, corpus);
  }

  /** Truncating a chain of exactly L tokens. */
  lemma TruncateChain(cw: string, s: seq<string>, L: nat, corpus: seq<string>)
    requires |s| == L >= 1 && Chained(cw, s, corpus)
    ensures var r, k := Truncate(s, L), if L == 1 then 0 else 1;
      && r.Ok?
      && r.value.0 == s[k..]
      && |r.value.0| == Max(1, L - 1)
      && (forall j :: 0 <= j < |r.value.0| ==> r.value.0[j] in corpus)
      && (forall j :: 1 <= j < |r.value.0| ==> Observed(r.value.0[j - 1], r.value.0[j], corpus))
      && r.value.1 == r.value.0[|r.value.0| - 1]
  {
    var k := if L == 1 then 0 else 1;
    ChainedInCorpus(cw, s, corpus);
    ChainedSuffix(cw, s, corpus, k);
  }

  /** A suffix of a chain is still chained inside. */
  lemma ChainedSuffix(cw: string, s: seq<string>, corpus: seq<string>, k: nat)
    requires Chained(cw, s, corpus) && k <= |s|
    ensures forall j :: 1 <= j < |s| - k ==> Observed(s[k..][j - 1], s[k..][j], corpus)
  {
    forall j | 1 <= j < |s| - k ensures Observed(s[k..][j - 1], s[k..][j], corpus) {
      assert s[k..][j] == s[k + j] && s[k..][j - 1] == s[k + j - 1];
    }
  }

  /** The sentence maker of main for a fixed chooser and corpus list, as a
      function of the draw number, the drawn orders and the current word. */
  function SentenceMaker(pick: Chooser, cl: seq<seq<string>>)
    : (f: (nat, seq<int>, string) --> Result<(seq<string>, string)>)
    requires |cl| == 4
    ensures forall t, sizes, cw :: |sizes| >= 1 ==> f.requires(t, sizes, cw)
    ensures forall t, sizes, cw :: |sizes| >= 1 ==> f(t, sizes, cw) == Sentence(pick, t, sizes, cw, cl)
  {
    (t: nat, sizes: seq<int>, cw: string) requires |sizes| >= 1 => Sentence(pick, t, sizes, cw, cl)
  }

  /** The outer loop of main: one sentence per plan, each seeded with the
      current word the previous one ended on, the draw numbers running on
      from one sentence to the next. */
  function Sentences(one: (nat, seq<int>, string) --> Result<(seq<string>, string)>, t: nat,
                     plans: seq<seq<int>>, cw: string): Result<seq<seq<string>>>
    requires forall t, sizes, cw :: |sizes| >= 1 ==> one.requires(t, sizes, cw)
    requires forall o :: 0 <= o < |plans| ==> |plans[o]| >= 1
    decreases |plans|
  {
    if |plans| == 0 then Ok([])
    else
      var s :- one(t, plans[0], cw);
      var rest :- Sentences(one, t + |plans[0]|, plans[1..], s.1);
      Ok([s.0] + rest)
  }

  /** np.random.choice(corpus): the first current word, drawn uniformly from
      the whole corpus with draw number 0. */
  function FirstWord(pick: Chooser, corpus: seq<string>): (w: string)
    requires |corpus| > 0
    ensures w in corpus
  {
    corpus[pick(0, corpus, seq(|corpus|, _ => 1))]
  }

  /** main without its I/O: tokenise and chunk the text, draw a first word
      from the corpus, then write the sentences. */
  function Generate(pick: Chooser, text: string, plans: seq<seq<int>>): Result<seq<seq<string>>>
    requires forall o :: 0 <= o < |plans| ==> |plans[o]| >= 1
  {
    var corpus := Split(text);
    if |corpus| == 0 then Err(EmptyCorpus)
    else Sentences(SentenceMaker(pick, CorpusList(text)), 1, plans, FirstWord(pick, corpus))
  }

  /** doc holds one sentence per plan, of Max(1, L - 1) tokens for a plan of
      L steps, made only of corpus tokens. */
  ghost predicate Shaped(doc: seq<seq<string>>, plans: seq<seq<int>>, corpus: seq<string>)
  {
    && |doc| == |plans|
    && (forall o :: 0 <= o < |plans| ==> |doc[o]| == Max(1, |plans[o]| - 1))
    && (forall o, j :: 0 <= o < |doc| && 0 <= j < |doc[o]| ==> doc[o][j] in corpus)
  }

  /** Orders drawn from 1 to 4, as main draws them. */
  predicate Orders(sizes: seq<int>)
  {
    forall j :: 0 <= j < |sizes| ==> 1 <= sizes[j] <= 4
  }

  /** What the outer loop needs of its sentence maker: for a plan of at least
      one step, a sentence of Max(1, L - 1) corpus tokens, or the failure of
      a draw. */
  ghost predicate GoodMaker(one: (nat, seq<int>, string) --> Result<(seq<string>, string)>, corpus: seq<string>)
  {
    && (forall t, sizes, cw :: |sizes| >= 1 ==> one.requires(t, sizes, cw))
    && (forall t, sizes, cw :: |sizes| >= 1 && Orders(sizes) && one(t, sizes, cw).Err? ==>
          one(t, sizes, cw).error == EmptyDistribution)
    && (forall t, sizes, cw :: |sizes| >= 1 && Orders(sizes) && one(t, sizes, cw).Ok? ==>
          Shaped([one(t, sizes, cw).value.0], [sizes], corpus))
  }

  /** main's sentence maker meets what the outer loop needs of it. */
  lemma MakerGood(pick: Chooser, cl: seq<seq<string>>, corpus: seq<string>)
    requires ChunkedFrom(cl, corpus) && Tokens(corpus)
    ensures GoodMaker(SentenceMaker(pick, cl), corpus)
  {
    var one := SentenceMaker(pick, cl);
    forall t, sizes, cw | |sizes| >= 1 && Orders(sizes)
      ensures one(t, sizes, cw).Err? ==> one(t, sizes, cw).error == EmptyDistribution
      ensures one(t, sizes, cw).Ok? ==> Shaped([one(t, sizes, cw).value.0], [sizes], corpus)
    {
      SentenceFacts(pick, t, sizes, cw, cl, corpus);
    }
  }

  /** The facts about one sentence that the outer loop needs. */
  lemma SentenceFacts(pick: Chooser, t: nat, sizes: seq<int>, cw: string, cl: seq<seq<string>>,
                      corpus: seq<string>)
    requires |sizes| >= 1 && Orders(sizes)
    requires ChunkedFrom(cl, corpus) && Tokens(corpus)
    ensures var r := Sentence(pick, t, sizes, cw, cl);
      && (r.Err? ==> r.error == EmptyDistribution)
      && (r.Ok? ==> Shaped([r.value.0], [sizes], corpus))
  {
    var r := Sentence(pick, t, sizes, cw, cl);
    SentenceShape(pick, t, sizes, cw, cl, corpus);
    if r.Ok? {
      ShapedOne(r.value.0, sizes, corpus);
    }
  }

  /** A single sentence of the right length, made of corpus tokens. */
  lemma ShapedOne(s: seq<string>, sizes: seq<int>, corpus: seq<string>)
    requires |s| == Max(1, |sizes| - 1)
    requires forall j :: 0 <= j < |s| ==> s[j] in corpus
    ensures Shaped([s], [sizes], corpus)
  {
  }

  /** Documents: the outer loop writes one sentence per plan, each of
      Max(1, L - 1) corpus tokens, and only a missing follower stops it. */
  lemma {:induction false} SentencesShape(one: (nat, seq<int>, string) --> Result<(seq<string>, string)>,
                                          t: nat, plans: seq<seq<int>>, cw: string, corpus: seq<string>)
    requires GoodMaker(one, corpus)
    requires forall o :: 0 <= o < |plans| ==> |plans[o]| >= 1 && Orders(plans[o])
    ensures var r := Sentences(one, t, plans, cw);
      && (r.Err? ==> r.error == EmptyDistribution)
      && (r.Ok? ==> Shaped(r.value, plans, corpus))
    decreases |plans|
  {
    if |plans| > 0 {
      var s := one(t, plans[0], cw);
      if s.Ok? {
        var r := Sentences(one, t, plans, cw);
        var rest := Sentences(one, t + |plans[0]|, plans[1..], s.value.1);
        SentencesShape(one, t + |plans[0]|, plans[1..], s.value.1, corpus);
        if rest.Ok? {
          assert r == Ok([s.value.0] + rest.value);
          ShapedCons(s.value.0, rest.value, plans, corpus);
        }
      }
    }
  }

  /** Shaped is closed under putting a shaped sentence in front. */
  lemma ShapedCons(s: seq<string>, doc: seq<seq<string>>, plans: seq<seq<int>>, corpus: seq<string>)
    requires |plans| > 0
    requires Shaped([s], [plans[0]], corpus) && Shaped(doc, plans[1..], corpus)
    ensures Shaped([s] + doc, plans, corpus)
  {
    var d := [s] + doc;
    forall o | 1 <= o < |plans| ensures d[o] == doc[o - 1] && plans[o] == plans[1..][o - 1] {
    }
  }

  /** A document has one sentence per plan, of L - 1 tokens for a plan of
      L >= 2 steps (one token for L = 1), made only of corpus tokens; an
      empty corpus is refused before anything is drawn, and otherwise only a
      missing follower can stop generation. */
  lemma GenerateShape(pick: Chooser, text: string, plans: seq<seq<int>>)
    requires forall o :: 0 <= o < |plans| ==> |plans[o]| >= 1 && Orders(plans[o])
    ensures var r := Generate(pick, text, plans);
      && (r.Err? && r.error == EmptyCorpus <==> |Split(text)| == 0)
      && (r.Err? ==> r.error in {EmptyCorpus, EmptyDistribution})
      && (r.Ok? ==> Shaped(r.value, plans, Split(text)))
  {
    var corpus := Split(text);
    var r := Generate(pick, text, plans);
    if |corpus| > 0 {
      var cl := CorpusList(text);
      var one := SentenceMaker(pick, cl);
      var first := FirstWord(pick, corpus);
      assert r == Sentences(one, 1, plans, first);
      MakerGood(pick, cl, corpus);
      SentencesShape(one, 1, plans, first, corpus);
    } else {
      assert r == Err(EmptyCorpus);
    }
  }
}
