/**
 * The object that the page's chart script hands back to the spider, and the
 * shape check that turns it into a four-value record (extract_indices in
 * CFETSSentimentSpider.py).
 */
module Payload {

  import opened Wrappers

  /**
   * A value as the browser driver converts it from JavaScript: null, an
   * opaque scalar (a number, a string, a boolean), a list or a dictionary
   * with string keys. The scalar's own type S is never inspected.
   */
  datatype Payload<S> =
    | Null
    | Scalar(s: S)
    | List(items: seq<Payload<S>>)
    | Dict(fields: map<string, Payload<S>>)

  /** The keys the chart's data point must carry. */
  const SingleKey: string := "single"
  const ValueKey: string := "value"

  /** Python's `p and isinstance(p, dict)`: a dictionary that is not empty. */
  predicate IsTruthyDict<S>(p: Payload<S>)
  {
    p.Dict? && |p.fields| > 0
  }

  /**
   * The payload check: a non-empty dictionary with both keys, whose 'single'
   * is a list of at least three entries, gives
   * [single[0], single[1], single[2], value]; anything else gives None.
   */
  function ExtractIndices<S>(p: Payload<S>): (r: Option<seq<Payload<S>>>)
    ensures r.Some? ==> |r.value| == 4
    ensures r.Some? ==> p.Dict? && SingleKey in p.fields && ValueKey in p.fields
    ensures r.Some? ==> p.fields[SingleKey].List? && |p.fields[SingleKey].items| >= 3
    ensures r.Some? ==> r.value[..3] == p.fields[SingleKey].items[..3]
    ensures r.Some? ==> r.value[3] == p.fields[ValueKey]
  {
    if IsTruthyDict(p) && SingleKey in p.fields && ValueKey in p.fields then
      var single := p.fields[SingleKey];
      var combined := p.fields[ValueKey];
      if single.List? && |single.items| >= 3 then
        Some([single.items[0], single.items[1], single.items[2], combined])
      else
        None
    else
      None
  }

  /** The shape the chart's latest data point is expected to have. */
  ghost predicate WellShaped<S>(p: Payload<S>)
  {
    && p.Dict?
    && SingleKey in p.fields
    && ValueKey in p.fields
    && p.fields[SingleKey].List?
    && |p.fields[SingleKey].items| >= 3
  }

  /**
   * The value fits a left-aligned `:<6` format field: a number, a string or a
   * boolean does, while None, a list and a dictionary raise TypeError.
   */
  predicate Formattable<S>(p: Payload<S>)
  {
    p.Scalar?
  }

  /** The data point the chart publishes: three category indices and the composite. */
  function ChartPoint<S>(a: Payload<S>, b: Payload<S>, c: Payload<S>, d: Payload<S>): (p: Payload<S>)
    ensures WellShaped(p)
  {
    Dict(map[SingleKey := List([a, b, c]), ValueKey := d])
  }

  /** The truthiness test is implied by the key test: a dictionary holding a key is never empty. */
  lemma KeyMakesTruthy<S>(p: Payload<S>)
    requires p.Dict? && SingleKey in p.fields
    ensures IsTruthyDict(p)
  {
  }

  /** Extraction succeeds exactly on well-shaped payloads, and then yields the record. */
  lemma ExtractSucceedsIffWellShaped<S>(p: Payload<S>)
    ensures ExtractIndices(p).Some? <==> WellShaped(p)
    ensures WellShaped(p) ==>
      var single := p.fields[SingleKey].items;
      ExtractIndices(p) == Some([single[0], single[1], single[2], p.fields[ValueKey]])
  {
  }

  /** A well-formed chart point {single: [a, b, c], value: d} yields exactly [a, b, c, d]. */
  lemma ExtractChartPoint<S>(a: Payload<S>, b: Payload<S>, c: Payload<S>, d: Payload<S>)
    ensures ExtractIndices(ChartPoint(a, b, c, d)) == Some([a, b, c, d])
  {
  }

  /** Each failure case of the check yields None. */
  lemma ExtractFailsOnNonDict<S>(p: Payload<S>)
    requires !p.Dict?
    ensures ExtractIndices(p) == None
  {
  }

  lemma ExtractFailsOnEmptyDict<S>(p: Payload<S>)
    requires p.Dict? && |p.fields| == 0
    ensures ExtractIndices(p) == None
  {
  }

  lemma ExtractFailsOnMissingKey<S>(p: Payload<S>)
    requires p.Dict? && (SingleKey !in p.fields || ValueKey !in p.fields)
    ensures ExtractIndices(p) == None
  {
  }

  lemma ExtractFailsOnBadSingle<S>(p: Payload<S>)
    requires p.Dict? && SingleKey in p.fields
    requires !p.fields[SingleKey].List? || |p.fields[SingleKey].items| < 3
    ensures ExtractIndices(p) == None
  {
  }

  /**
   * Only the first three entries of 'single' and the 'value' entry matter:
   * entries of 'single' past index 2, other keys of the dictionary, and the
   * content of 'value' are not inspected.
   */
  lemma ExtractDependsOnlyOnPrefix<S>(p: Payload<S>, q: Payload<S>)
    requires WellShaped(p) && WellShaped(q)
    requires p.fields[SingleKey].items[..3] == q.fields[SingleKey].items[..3]
    requires p.fields[ValueKey] == q.fields[ValueKey]
    ensures ExtractIndices(p) == ExtractIndices(q)
  {
  }

}
