/** Building the summarizer's input: the pending summaries' texts joined
    with a single space, as `join(" ")` does on a vector of strings. */
module Condense {

  /** The texts with one space between neighbours and none at either end. */
  function JoinWithSpace(texts: seq<string>): (joined: string)
    ensures texts == [] ==> joined == ""
    ensures texts != [] ==> texts[0] <= joined
  {
    if |texts| == 0 then ""
    else if |texts| == 1 then texts[0]
    else texts[0] + " " + JoinWithSpace(texts[1..])
  }

  /** Splitting at every space, as `split(' ')` does: an independent reading
      of a joined text, used to state that joining loses nothing. */
  function SplitOnSpace(s: string): (parts: seq<string>)
    ensures |parts| >= 1
  {
    if s == "" then [""]
    else
      var rest := SplitOnSpace(s[1..]);
      if s[0] == ' ' then [""] + rest
      else [[s[0]] + rest[0]] + rest[1..]
  }

  /** No text in the list contains the separator. */
  predicate SpaceFree(texts: seq<string>)
  {
    forall i :: 0 <= i < |texts| ==> ' ' !in texts[i]
  }

  /** Joining two non-empty lists puts exactly one space between their
      joins: the separator is neither dropped nor doubled at the seam. */
  lemma {:induction false} JoinAppend(a: seq<string>, b: seq<string>)
    requires a != [] && b != []
    ensures JoinWithSpace(a + b) == JoinWithSpace(a) + " " + JoinWithSpace(b)
  {
    if |a| == 1 {
      assert (a + b)[1..] == b;
    } else {
      assert (a + b)[1..] == a[1..] + b;
      JoinAppend(a[1..], b);
    }
  }

  /** A non-empty join starts with the first text and ends with the last:
      there is no leading or trailing separator. */
  lemma {:induction false} JoinEnds(texts: seq<string>)
    requires texts != []
    ensures texts[0] <= JoinWithSpace(texts)
    ensures |texts[|texts| - 1]| <= |JoinWithSpace(texts)|
    ensures JoinWithSpace(texts)[|JoinWithSpace(texts)| - |texts[|texts| - 1]|..] == texts[|texts| - 1]
  {
    if |texts| > 1 {
      JoinEnds(texts[1..]);
      var j := JoinWithSpace(texts[1..]);
      var last := texts[|texts| - 1];
      assert texts[1..][|texts[1..]| - 1] == last;
      var whole := texts[0] + " " + j;
      assert whole[..|texts[0]|] == texts[0];
      assert whole[|whole| - |last|..] == j[|j| - |last|..];
    }
  }

  /** Splitting a space-free word followed by a space and more text gives
      the word, then the split of the rest. */
  lemma {:induction false} SplitAfterWord(w: string, t: string)
    requires ' ' !in w
    ensures SplitOnSpace(w + " " + t) == [w] + SplitOnSpace(t)
  {
    if w == "" {
      assert w + " " + t == [' '] + t;
      assert (w + " " + t)[1..] == t;
    } else {
      assert (w + " " + t)[1..] == w[1..] + " " + t;
      assert ' ' !in w[1..] by {
        forall k | 0 <= k < |w[1..]| ensures w[1..][k] != ' ' { assert w[1..][k] == w[k + 1]; }
      }
      SplitAfterWord(w[1..], t);
      assert [w[0]] + w[1..] == w;
    }
  }

  /** A space-free word splits to itself. */
  lemma {:induction false} SplitWord(w: string)
    requires ' ' !in w
    ensures SplitOnSpace(w) == [w]
  {
    if w != "" {
      assert ' ' !in w[1..] by {
        forall k | 0 <= k < |w[1..]| ensures w[1..][k] != ' ' { assert w[1..][k] == w[k + 1]; }
      }
      SplitWord(w[1..]);
      assert [w[0]] + w[1..] == w;
    }
  }

  /** Round trip: when no text contains a space, splitting the join gives
      back exactly the texts, so each pending summary's text reaches the
      summarizer whole, in order and separated by exactly one space. */
  lemma {:induction false} SplitJoin(texts: seq<string>)
    requires texts != [] && SpaceFree(texts)
    ensures SplitOnSpace(JoinWithSpace(texts)) == texts
  {
    if |texts| == 1 {
      SplitWord(texts[0]);
    } else {
      assert SpaceFree(texts[1..]) by {
        forall k | 0 <= k < |texts[1..]| ensures ' ' !in texts[1..][k] { assert texts[1..][k] == texts[k + 1]; }
      }
      SplitJoin(texts[1..]);
      SplitAfterWord(texts[0], JoinWithSpace(texts[1..]));
      assert [texts[0]] + texts[1..] == texts;
    }
  }

  /** The joined text is as long as all texts together plus one space
      between each pair of neighbours. */
  lemma {:induction false} JoinLength(texts: seq<string>)
    requires texts != []
    ensures |JoinWithSpace(texts)| == TotalLength(texts) + |texts| - 1
  {
    if |texts| > 1 {
      JoinLength(texts[1..]);
    }
  }

  /** The sum of the lengths of the texts. */
  function TotalLength(texts: seq<string>): (n: nat)
  {
    if texts == [] then 0 else |texts[0]| + TotalLength(texts[1..])
  }
}
