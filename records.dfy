/** The two kinds of record held by the store: summaries written by an
    upstream producer, and digests written by the recap cycle. */
module Records {

  /** One row of the `summaries` table. Timestamps are modelled as integers,
      ordered as the store orders its date-time column. */
  datatype Summary = Summary(id: int, text: string, timestamp: int)

  /** One row of the `daily_digests` table together with the summary ids it
      covers. The row id assigned by the store is not modelled. */
  datatype Digest = Digest(text: string, covered: seq<int>, timestamp: int)

  /** The ids of a sequence of summaries, one per summary, in the same
      order. */
  function Ids(s: seq<Summary>): (ids: seq<int>)
    ensures |ids| == |s|
    ensures forall i :: 0 <= i < |s| ==> ids[i] == s[i].id
  {
    seq(|s|, i requires 0 <= i < |s| => s[i].id)
  }

  /** The texts of a sequence of summaries, one per summary, in the same
      order. */
  function Texts(s: seq<Summary>): (texts: seq<string>)
    ensures |texts| == |s|
    ensures forall i :: 0 <= i < |s| ==> texts[i] == s[i].text
  {
    seq(|s|, i requires 0 <= i < |s| => s[i].text)
  }

  /** Some digest in `ds` lists `id` among the summaries it covers. */
  ghost predicate CoveredBy(id: int, ds: seq<Digest>)
  {
    exists i :: 0 <= i < |ds| && id in ds[i].covered
  }
}
