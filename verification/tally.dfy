/** The follower tallies: for a key, how often each value follows it in a
    scanned sequence, under the generator's boundary rule. */
module Tally {
  import opened Results
  import opened Text
  import opened Counter

  /** A position i of c holding w whose follower counts: i + 1 < |c| - 1,
      so neither of the last two positions ever contributes. */
  predicate Qualifies(w: string, c: seq<string>, i: int)
  {
    0 <= i && i + 2 < |c| && c[i] == w
  }

  /** w has at least one counted follower in c. */
  ghost predicate HasFollower(w: string, c: seq<string>)
  {
    exists i :: Qualifies(w, c, i)
  }

  /** x follows w at some counted position of c. */
  ghost predicate Observed(w: string, x: string, c: seq<string>)
  {
    exists i :: Qualifies(w, c, i) && c[i + 1] == x
  }

  /** An observed follower is an element of the scanned sequence. */
  lemma ObservedIn(w: string, x: string, c: seq<string>)
    requires Observed(w, x, c)
    ensures x in c
  {
    var i :| Qualifies(w, c, i) && c[i + 1] == x;
    assert c[i + 1] in c;
  }

  /** The followers of w contributed by positions below m, in scan order. */
  function FollowersBelow(w: string, c: seq<string>, m: nat): (fs: seq<string>)
    requires m <= |c|
    ensures forall y :: y in fs ==> Observed(w, y, c)
  {
    if m == 0 then []
    else
      var fs := FollowersBelow(w, c, m - 1);
      if c[m - 1] == w && m < |c| - 1 then
        assert Qualifies(w, c, m - 1) && c[m - 1 + 1] == c[m];
        fs + [c[m]]
      else fs
  }

  /** The follower list word_list: c[i + 1] for every qualifying i, in order. */
  function Followers(w: string, c: seq<string>): seq<string>
  {
    FollowersBelow(w, c, |c|)
  }

  /** word_element(w, c): each counted follower of w with its number of occurrences. */
  function WordElement(w: string, c: seq<string>): (d: Dict)
    ensures Valid(d)
    ensures forall x :: x in d.vals ==> d.vals[x] >= 1 && Observed(w, x, c)
  {
    CountAll(Followers(w, c))
  }

  /** The qualifying positions below m whose follower is x. */
  ghost function MatchesBelow(w: string, x: string, c: seq<string>, m: int): set<int>
  {
    set i | 0 <= i < m && Qualifies(w, c, i) && c[i + 1] == x
  }

  /** The qualifying positions below m. */
  ghost function SourcesBelow(w: string, c: seq<string>, m: int): set<int>
  {
    set i | 0 <= i < m && Qualifies(w, c, i)
  }

  /** One more position adds itself to the matches exactly when it
      qualifies with follower x. */
  lemma MatchesStep(w: string, x: string, c: seq<string>, m: nat)
    requires 0 < m <= |c|
    ensures MatchesBelow(w, x, c, m)
         == MatchesBelow(w, x, c, m - 1) + (if Qualifies(w, c, m - 1) && c[m] == x then {m - 1} else {})
    ensures m - 1 !in MatchesBelow(w, x, c, m - 1)
  {
  }

  /** One more position adds itself to the sources exactly when it qualifies. */
  lemma SourcesStep(w: string, c: seq<string>, m: nat)
    requires 0 < m <= |c|
    ensures SourcesBelow(w, c, m) == SourcesBelow(w, c, m - 1) + (if Qualifies(w, c, m - 1) then {m - 1} else {})
    ensures m - 1 !in SourcesBelow(w, c, m - 1)
  {
  }

  /** The follower list below m, one step back. */
  lemma FollowersStep(w: string, c: seq<string>, m: nat)
    requires 0 < m <= |c|
    ensures FollowersBelow(w, c, m)
         == FollowersBelow(w, c, m - 1) + (if Qualifies(w, c, m - 1) then [c[m]] else [])
  {
  }

  /** Appending v (when q) to a list adds one occurrence of x exactly when
      it adds the fresh position k to a matching set. */
  lemma CountStep(prev: seq<string>, ms: set<int>, x: string, v: string, q: bool, k: int)
    requires multiset(prev)[x] == |ms| && k !in ms
    ensures multiset(prev + (if q then [v] else []))[x] == |ms + (if q && v == x then {k} else {})|
  {
    if q {
      assert multiset(prev + [v]) == multiset(prev) + multiset{v};
    } else {
      assert prev + [] == prev;
    }
  }

  lemma {:induction false} MatchesCount(w: string, x: string, c: seq<string>, m: nat)
    requires m <= |c|
    ensures multiset(FollowersBelow(w, c, m))[x] == |MatchesBelow(w, x, c, m)|
    decreases m
  {
    if m == 0 {
      assert MatchesBelow(w, x, c, m) == {};
    } else {
      MatchesCount(w, x, c, m - 1);
      MatchesStep(w, x, c, m);
      FollowersStep(w, c, m);
      var v := if m < |c| then c[m] else x;
      CountStep(FollowersBelow(w, c, m - 1), MatchesBelow(w, x, c, m - 1), x, v, Qualifies(w, c, m - 1), m - 1);
    }
  }

  lemma {:induction false} SourcesCount(w: string, c: seq<string>, m: nat)
    requires m <= |c|
    ensures |FollowersBelow(w, c, m)| == |SourcesBelow(w, c, m)|
    decreases m
  {
    if m == 0 {
      assert SourcesBelow(w, c, m) == {};
    } else {
      SourcesCount(w, c, m - 1);
      SourcesStep(w, c, m);
      FollowersStep(w, c, m);
    }
  }

  /** Tally contents: x is a key exactly when some qualifying position of w
      is followed by x, and its count is the number of such positions. */
  lemma TallyContents(w: string, c: seq<string>, x: string)
    ensures x in WordElement(w, c).vals <==> |MatchesBelow(w, x, c, |c|)| > 0
    ensures x in WordElement(w, c).vals ==> WordElement(w, c).vals[x] == |MatchesBelow(w, x, c, |c|)|
  {
    MatchesCount(w, x, c, |c|);
  }

  /** The counts of the tally add up to the number of qualifying positions. */
  lemma TallyTotal(w: string, c: seq<string>)
    ensures Sum(GetVals(WordElement(w, c), GetKeys(WordElement(w, c)))) == |SourcesBelow(w, c, |c|)|
  {
    CountAllTotal(Followers(w, c));
    SourcesCount(w, c, |c|);
  }

  /** Boundary rule: the tally is empty exactly when w occurs nowhere but in
      the last two positions of c (or not at all). */
  lemma TallyEmptyIff(w: string, c: seq<string>)
    ensures GetKeys(WordElement(w, c)) == [] <==> forall i :: 0 <= i < |c| - 2 ==> c[i] != w
    ensures GetKeys(WordElement(w, c)) == [] <==> !HasFollower(w, c)
  {
    var d := WordElement(w, c);
    var fs := Followers(w, c);
    SourcesCount(w, c, |c|);
    if HasFollower(w, c) {
      var i :| Qualifies(w, c, i);
      assert i in SourcesBelow(w, c, |c|);
      assert fs[0] in d.vals;
      assert d.keys != [];
    } else {
      forall i | 0 <= i < |c| - 2 ensures c[i] != w {
        assert !Qualifies(w, c, i);
      }
      assert SourcesBelow(w, c, |c|) == {};
      assert fs == [];
      assert forall x :: x !in d.keys;
      assert d.keys == [];
    }
  }

  /** two_word_element, three_word_element and four_word_element, which share
      one body: scan the FIRST element of the chunk list they are handed, a
      chunk string, whose elements are therefore its single characters. */
  function ChunkElement(key: string, chunks: seq<string>): (r: Result<Dict>)
    ensures r.Ok? <==> |chunks| > 0
    ensures r.Err? ==> r.error == IndexOutOfRange
    ensures r.Ok? ==> Valid(r.value)
    ensures r.Ok? ==> forall x :: x in r.value.vals ==> Observed(key, x, Chars(chunks[0]))
  {
    if |chunks| == 0 then Err(IndexOutOfRange) else Ok(WordElement(key, Chars(chunks[0])))
  }

  /** Chunk tally contents: on a non-empty chunk list, x is tallied exactly
      when it was observed after the key among the characters of the first
      chunk string, and its count is the number of qualifying positions
      followed by x. */
  lemma ChunkElementContents(key: string, chunks: seq<string>, x: string)
    requires |chunks| > 0
    ensures var cs, d := Chars(chunks[0]), ChunkElement(key, chunks).value;
      && (x in d.vals <==> Observed(key, x, cs))
      && (x in d.vals ==> d.vals[x] == |MatchesBelow(key, x, cs, |cs|)|)
  {
    var cs := Chars(chunks[0]);
    var ms := MatchesBelow(key, x, cs, |cs|);
    TallyContents(key, cs, x);
    if Observed(key, x, cs) {
      var i :| Qualifies(key, cs, i) && cs[i + 1] == x;
      assert i in ms;
    }
    if |ms| > 0 {
      var i :| i in ms;
      assert Qualifies(key, cs, i) && cs[i + 1] == x;
    }
  }

  /** A key that is not a single character never matches a character of the
      scanned chunk string, so the order-k tally is empty. */
  lemma ChunkElementNeverMatches(key: string, chunks: seq<string>)
    requires |chunks| > 0 && |key| != 1
    ensures ChunkElement(key, chunks) == Ok(Empty)
  {
    var cs := Chars(chunks[0]);
    TallyEmptyIff(key, cs);
    var d := WordElement(key, cs);
    assert d.keys == [] by {
      forall i | 0 <= i < |cs| - 2 ensures cs[i] != key {
        assert |cs[i]| == 1;
      }
    }
    assert d.vals == map[] by {
      forall x ensures x !in d.vals {
        assert x !in d.keys;
      }
    }
  }
}
