/** Whitespace tokenising and space-joining of strings, the way Python's
    argument-less str.split() and " ".join treat them. */
module Text {

  /** The characters Python's str.split() separates on: the ASCII controls
      tab through carriage return, the file/group/record/unit separators,
      space, and the Unicode spaces and line/paragraph separators. */
  predicate IsSpace(c: char)
  {
    var n := c as int;
    || 9 <= n <= 13
    || 28 <= n <= 32
    || n == 0x85 || n == 0xA0 || n == 0x1680
    || 0x2000 <= n <= 0x200A
    || n == 0x2028 || n == 0x2029 || n == 0x202F || n == 0x205F || n == 0x3000
  }

  /** A token: a non-empty string without whitespace, one unit of the corpus. */
  predicate IsToken(t: string)
  {
    |t| > 0 && forall i :: 0 <= i < |t| ==> !IsSpace(t[i])
  }

  /** " ".join(ws) */
  function Join(ws: seq<string>): string
  {
    if |ws| == 0 then ""
    else if |ws| == 1 then ws[0]
    else ws[0] + " " + Join(ws[1..])
  }

  /** The longest prefix of s that holds no whitespace. */
  function LeadingWord(s: string): (w: string)
    ensures |w| <= |s| && w == s[..|w|]
    ensures forall i :: 0 <= i < |w| ==> !IsSpace(w[i])
    ensures |w| < |s| ==> IsSpace(s[|w|])
  {
    if |s| == 0 || IsSpace(s[0]) then "" else [s[0]] + LeadingWord(s[1..])
  }

  /** s.split(): the maximal whitespace-free runs of s, in order. */
  function Split(s: string): (ws: seq<string>)
    ensures forall i :: 0 <= i < |ws| ==> IsToken(ws[i])
    ensures forall t :: t in ws ==> IsToken(t)
    decreases |s|
  {
    if |s| == 0 then []
    else if IsSpace(s[0]) then Split(s[1..])
    else
      var w := LeadingWord(s);
      [w] + Split(s[|w|..])
  }

  /** The one-character strings of s, in order: what indexing a Python string yields. */
  function Chars(s: string): (cs: seq<string>)
    ensures |cs| == |s|
    ensures forall i :: 0 <= i < |s| ==> cs[i] == [s[i]]
  {
    if |s| == 0 then [] else Chars(s[..|s| - 1]) + [[s[|s| - 1]]]
  }

  /** s[-n:] for n >= 1: the last n elements, or all of s when it is shorter. */
  function Tail<T>(s: seq<T>, n: nat): (r: seq<T>)
    requires n >= 1
    ensures |r| == if |s| < n then |s| else n
    ensures r == s[|s| - |r|..]
  {
    if |s| <= n then s else s[|s| - n..]
  }

  /** " ".join(s) for a string s: its characters with a space between
      neighbours. */
  function SpaceOut(s: string): (r: string)
    ensures |r| == if |s| == 0 then 0 else 2 * |s| - 1
  {
    if |s| <= 1 then s else [s[0]] + " " + SpaceOut(s[1..])
  }

  /** SpaceOut is the join of the single-character strings of s. */
  lemma {:induction false} SpaceOutIsJoin(s: string)
    ensures SpaceOut(s) == Join(Chars(s))
    decreases |s|
  {
    if |s| > 1 {
      SpaceOutIsJoin(s[1..]);
      assert Chars(s)[1..] == Chars(s[1..]);
    } else if |s| == 1 {
      assert s == [s[0]];
      assert Chars(s) == [s];
    }
  }

  /** " ".join(s[-n:]) for a string s: the last n CHARACTERS of s, spaced apart. */
  function SpacedTail(s: string, n: nat): (r: string)
    requires n >= 1
    ensures |r| == if |s| == 0 then 0 else 2 * (if |s| < n then |s| else n) - 1
  {
    SpaceOut(Tail(s, n))
  }

  /** SpacedTail joins the characters of the tail. */
  lemma SpacedTailIsJoin(s: string, n: nat)
    requires n >= 1
    ensures SpacedTail(s, n) == Join(Chars(Tail(s, n)))
  {
    SpaceOutIsJoin(Tail(s, n));
  }

  /** Joining k non-empty strings yields at least k characters plus k - 1 separators. */
  lemma {:induction false} JoinLength(ws: seq<string>)
    requires forall i :: 0 <= i < |ws| ==> |ws[i]| >= 1
    ensures |ws| >= 1 ==> |Join(ws)| >= 2 * |ws| - 1
    decreases |ws|
  {
    if |ws| >= 2 {
      JoinLength(ws[1..]);
    }
  }

  /** The leading word of a token followed by a space (or by nothing) is the token. */
  lemma {:induction false} LeadingWordOfToken(t: string, rest: string)
    requires IsToken(t)
    requires |rest| == 0 || rest[0] == ' '
    ensures LeadingWord(t + rest) == t
    decreases |t|
  {
    var s := t + rest;
    assert s[1..] == t[1..] + rest;
    if |t| > 1 {
      LeadingWordOfToken(t[1..], rest);
    } else {
      assert t == [t[0]];
    }
  }

  /** Splitting a space-joined list of tokens gives back the tokens. */
  lemma {:induction false} SplitJoin(ws: seq<string>)
    requires forall i :: 0 <= i < |ws| ==> IsToken(ws[i])
    ensures Split(Join(ws)) == ws
    decreases |ws|
  {
    if |ws| == 1 {
      var t := ws[0];
      LeadingWordOfToken(t, "");
      assert t + "" == t;
      assert t[|t|..] == "";
    } else if |ws| >= 2 {
      var t := ws[0];
      var rest := " " + Join(ws[1..]);
      var s := t + rest;
      assert Join(ws) == s;
      LeadingWordOfToken(t, rest);
      assert s[|t|..] == rest;
      assert rest[1..] == Join(ws[1..]);
      SplitJoin(ws[1..]);
      assert Split(s) == [t] + Split(rest);
      assert Split(rest) == Split(Join(ws[1..]));
    }
  }

  /** A token splits to itself alone. */
  lemma SplitToken(t: string)
    requires IsToken(t)
    ensures Split(t) == [t]
  {
    SplitJoin([t]);
  }
}
