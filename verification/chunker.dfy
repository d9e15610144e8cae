/** The non-overlapping chunkers: the corpus regrouped into windows of k
    tokens starting at index 0, each window space-joined into one chunk. */
module Chunker {
  import opened Text

  function Min(a: int, b: int): int
  {
    if a < b then a else b
  }

  /** The concatenation of a list of token lists. */
  function Flatten(xss: seq<seq<string>>): seq<string>
  {
    if |xss| == 0 then [] else xss[0] + Flatten(xss[1..])
  }

  /** Every string of a list split into its tokens, element by element. */
  function SplitAll(cs: seq<string>): (wss: seq<seq<string>>)
    ensures |wss| == |cs|
    ensures forall j :: 0 <= j < |cs| ==> wss[j] == Split(cs[j])
  {
    if |cs| == 0 then [] else [Split(cs[0])] + SplitAll(cs[1..])
  }

  /** The corpus cut into consecutive slices of k tokens, starting at the
      first token; the last slice holds what remains. */
  function Windows(words: seq<string>, k: nat): (ws: seq<seq<string>>)
    requires k >= 1
    ensures Flatten(ws) == words
    ensures forall j :: 0 <= j < |ws| - 1 ==> |ws[j]| == k
    ensures |ws| > 0 ==> 1 <= |ws[|ws| - 1]| <= k
    ensures |ws| == 0 <==> |words| == 0
    ensures forall j, i :: 0 <= j < |ws| && 0 <= i < |ws[j]| ==> ws[j][i] in words
    decreases |words|
  {
    if |words| == 0 then []
    else
      var m := Min(k, |words|);
      var rest := Windows(words[m..], k);
      assert words == words[..m] + words[m..];
      assert ([words[..m]] + rest)[1..] == rest;
      [words[..m]] + rest
  }

  /** There are ceil(n / k) windows of n tokens. */
  lemma {:induction false} WindowsCount(words: seq<string>, k: nat)
    requires k >= 1
    ensures var n := |Windows(words, k)|;
      n > 0 ==> (n - 1) * k < |words| <= n * k
    decreases |words|
  {
    if |words| > 0 {
      var m := Min(k, |words|);
      var rest := Windows(words[m..], k);
      assert Windows(words, k) == [words[..m]] + rest;
      WindowsCount(words[m..], k);
      var r := |rest|;
      MulStep(r, k);
      if r > 0 {
        MulStep(r - 1, k);
        assert m == k;
      }
    }
  }

  lemma MulStep(r: nat, k: nat)
    ensures (r + 1) * k == r * k + k && 0 * k == 0
  {
  }

  /** two_way_split, three_way_split and four_way_split: the whitespace tokens
      of the text, regrouped k at a time and space-joined. */
  function KWaySplit(text: string, k: nat): (cs: seq<string>)
    requires k >= 1
    ensures |cs| > 0 <==> |Split(text)| > 0
  {
    var ws := Windows(Split(text), k);
    seq(|ws|, j requires 0 <= j < |ws| => Join(ws[j]))
  }

  /** Chunk shape and round trip: each chunk splits back into its window of
      the corpus, every window but the last holds k tokens and the last 1 to
      k, there are ceil(n / k) of them, and splitting every chunk and
      concatenating gives back the corpus. */
  lemma ChunksRoundTrip(text: string, k: nat)
    requires k >= 1
    ensures var cs, toks := KWaySplit(text, k), Split(text);
      && SplitAll(cs) == Windows(toks, k)
      && Flatten(SplitAll(cs)) == toks
      && (forall j :: 0 <= j < |cs| - 1 ==> |Split(cs[j])| == k)
      && (|cs| > 0 ==> 1 <= |Split(cs[|cs| - 1])| <= k)
      && (|cs| > 0 ==> (|cs| - 1) * k < |toks| <= |cs| * k)
  {
    var toks := Split(text);
    var ws := Windows(toks, k);
    var cs := KWaySplit(text, k);
    forall j | 0 <= j < |ws| ensures Split(cs[j]) == ws[j] {
      SplitJoin(ws[j]);
    }
    assert SplitAll(cs) == ws;
    WindowsCount(toks, k);
  }
}
