/** The watermark and the pending set: which summaries one recap cycle has
    to fold into a digest. The two store queries become functions over the
    stored sequences. */
module Window {
  import opened Wrappers
  import opened Records

  /** The timestamp of the newest digest, or None when no digest exists
      (`ORDER BY timestamp DESC LIMIT 1`; ties all share that timestamp). */
  function LatestTimestamp(ds: seq<Digest>): (w: Option<int>)
    ensures w.None? <==> ds == []
    ensures w.Some? ==> exists i :: 0 <= i < |ds| && ds[i].timestamp == w.value
    ensures w.Some? ==> forall i :: 0 <= i < |ds| ==> ds[i].timestamp <= w.value
  {
    if ds == [] then None
    else
      var rest := LatestTimestamp(ds[1..]);
      if rest.None? || rest.value <= ds[0].timestamp then
        Some(ds[0].timestamp)
      else
        assert forall i :: 1 <= i < |ds| ==> ds[i] == ds[1..][i - 1];
        rest
  }

  /** Appending a digest moves the watermark to the later of the old
      watermark and the new digest's timestamp. */
  lemma {:induction false} LatestAfterAppend(ds: seq<Digest>, d: Digest)
    ensures LatestTimestamp(ds + [d]) ==
      if ds == [] then Some(d.timestamp)
      else Some(if LatestTimestamp(ds).value <= d.timestamp then d.timestamp else LatestTimestamp(ds).value)
  {
    var e := ds + [d];
    var w := LatestTimestamp(e);
    assert e[|ds|] == d;
    if ds != [] {
      var v := LatestTimestamp(ds).value;
      var j :| 0 <= j < |ds| && ds[j].timestamp == v;
      assert e[j] == ds[j];
      assert w.value >= d.timestamp && w.value >= v;
      var k :| 0 <= k < |e| && e[k].timestamp == w.value;
      if k < |ds| {
        assert e[k] == ds[k];
        assert w.value <= v;
      }
    }
  }

  /** The summaries whose timestamp is at or after `w`, in stored order
      (the `WHERE timestamp >= ?` clause). */
  function AtOrAfter(s: seq<Summary>, w: int): (r: seq<Summary>)
    ensures forall x :: multiset(r)[x] == if x.timestamp >= w then multiset(s)[x] else 0
    ensures forall x :: x in r <==> x in s && x.timestamp >= w
  {
    if s == [] then []
    else
      assert s == [s[0]] + s[1..];
      if s[0].timestamp >= w then [s[0]] + AtOrAfter(s[1..], w)
      else AtOrAfter(s[1..], w)
  }

  /** Timestamps never decrease along `s` (the `ORDER BY timestamp ASC`
      clause). */
  ghost predicate AscendingByTimestamp(s: seq<Summary>)
  {
    forall i, j :: 0 <= i < j < |s| ==> s[i].timestamp <= s[j].timestamp
  }

  /** A summary no later than the head of an ascending sequence can go in
      front of it. */
  lemma ConsAscending(y: Summary, s: seq<Summary>)
    requires AscendingByTimestamp(s)
    requires s != [] ==> y.timestamp <= s[0].timestamp
    ensures AscendingByTimestamp([y] + s)
  {
    var r := [y] + s;
    forall i, j | 0 <= i < j < |r| ensures r[i].timestamp <= r[j].timestamp {
      assert r[j] == s[j - 1];
      if i > 0 {
        assert r[i] == s[i - 1];
      }
    }
  }

  /** Places `x` into an ascending sequence, before the first element that
      is not earlier than it. */
  function InsertByTimestamp(x: Summary, s: seq<Summary>): (r: seq<Summary>)
    requires AscendingByTimestamp(s)
    ensures AscendingByTimestamp(r)
    ensures multiset(r) == multiset(s) + multiset{x}
    ensures |r| == |s| + 1 && (r[0] == x || (s != [] && r[0] == s[0]))
  {
    if s == [] || x.timestamp <= s[0].timestamp then [x] + s
    else
      var rest := InsertByTimestamp(x, s[1..]);
      assert s == [s[0]] + s[1..];
      ConsAscending(s[0], rest);
      [s[0]] + rest
  }

  /** A stable sort by timestamp: equal timestamps keep their stored order,
      one of the orders the store is free to return. */
  function SortByTimestamp(s: seq<Summary>): (r: seq<Summary>)
    ensures AscendingByTimestamp(r)
    ensures multiset(r) == multiset(s)
  {
    if s == [] then []
    else
      assert s == [s[0]] + s[1..];
      InsertByTimestamp(s[0], SortByTimestamp(s[1..]))
  }

  /** The pending set for a watermark: with one, the summaries at or after
      it in ascending timestamp order; without one, every summary in the
      order the store keeps them (that query has no ORDER BY). */
  function Pending(summaries: seq<Summary>, watermark: Option<int>): (p: seq<Summary>)
    ensures watermark.Some? ==> AscendingByTimestamp(p)
    ensures watermark.None? ==> p == summaries
  {
    match watermark
    case None => summaries
    case Some(w) => SortByTimestamp(AtOrAfter(summaries, w))
  }

  /** With a watermark the pending set is ascending by timestamp and holds
      each summary at or after the watermark exactly as often as the store
      does, and nothing else; without one it is the whole store. */
  lemma PendingIsWindow(summaries: seq<Summary>, watermark: Option<int>)
    ensures watermark.None? ==> Pending(summaries, watermark) == summaries
    ensures watermark.Some? ==> AscendingByTimestamp(Pending(summaries, watermark))
    ensures watermark.Some? ==>
      (forall x :: multiset(Pending(summaries, watermark))[x] ==
                   if x.timestamp >= watermark.value then multiset(summaries)[x] else 0)
  {
  }

  /** Membership in the pending set, both directions. The boundary is
      inclusive: a summary stamped exactly at the watermark is pending. */
  lemma PendingMembers(summaries: seq<Summary>, watermark: Option<int>, x: Summary)
    ensures x in Pending(summaries, watermark) <==>
      x in summaries && (watermark.None? || x.timestamp >= watermark.value)
  {
    if watermark.Some? {
      var p := Pending(summaries, watermark);
      assert x in p <==> x in multiset(p);
    }
  }

  /** The pending set is empty exactly when every stored summary is older
      than the watermark (and, with no watermark, when the store is empty). */
  lemma {:induction false} PendingEmpty(summaries: seq<Summary>, watermark: Option<int>)
    ensures Pending(summaries, watermark) == [] <==>
      forall i :: 0 <= i < |summaries| ==>
        watermark.Some? && summaries[i].timestamp < watermark.value
  {
    var p := Pending(summaries, watermark);
    if p == [] {
      forall i | 0 <= i < |summaries|
        ensures watermark.Some? && summaries[i].timestamp < watermark.value
      {
        PendingMembers(summaries, watermark, summaries[i]);
      }
    } else {
      PendingMembers(summaries, watermark, p[0]);
    }
  }
}
