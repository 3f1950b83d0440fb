/**
 * The single-stage classifier of models/ctiPipeline.py: every catalog entry
 * is scored against the query, the TOP_K best scores are taken, those below
 * SIMILARITY_THRESHOLD are dropped and the rest are reported in score order.
 *
 * The sentence embedder and cosine similarity are the oracle `similarity`
 * (one score per catalog entry), `torch.topk` is the oracle `topk` (any
 * answer allowed by IsTopK, so tie order is left open), and `round(score, 4)`
 * is the presentation function `round`.
 */
module DensePipeline {
  import opened Wrappers
  import opened Sequences

  const SIMILARITY_THRESHOLD: real := 0.55
  const TOP_K: nat := 3

  /** One record of the technique catalog file. */
  datatype TechniqueRecord = TechniqueRecord(id: string, name: string, description: string)

  /** The catalog as the three parallel lists the module keeps (ids, names, descriptions). */
  datatype Catalog = Catalog(ids: seq<string>, names: seq<string>, texts: seq<string>)
  {
    predicate WellFormed()
    {
      |ids| == |names| == |texts|
    }

    function Size(): nat
    {
      |ids|
    }
  }

  datatype Status = Ok | NoMatch

  /** One reported technique. */
  datatype Match = Match(id: string, name: string, confidence: real, description: string)

  datatype Response = Response(status: Status, techniques: seq<Match>)

  /** `torch.topk` with k larger than the number of scores raises. */
  datatype PipelineError = TopKOutOfRange

  /** The three list comprehensions over the loaded records: position i of each list comes from record i. */
  function Project(records: seq<TechniqueRecord>): (c: Catalog)
    ensures c.WellFormed() && c.Size() == |records|
    ensures forall i :: 0 <= i < |records| ==>
      c.ids[i] == records[i].id && c.names[i] == records[i].name && c.texts[i] == records[i].description
  {
    Catalog(seq(|records|, i requires 0 <= i < |records| => records[i].id),
            seq(|records|, i requires 0 <= i < |records| => records[i].name),
            seq(|records|, i requires 0 <= i < |records| => records[i].description))
  }

  predicate InRange(sims: seq<real>, top: seq<int>)
  {
    forall i :: 0 <= i < |top| ==> 0 <= top[i] < |sims|
  }

  /**
   * What `torch.topk(sims, k=TOP_K)` promises of its indices: TOP_K distinct
   * positions, in non-increasing score order, and no position left out
   * scores higher than one that was taken.
   */
  ghost predicate IsTopK(sims: seq<real>, top: seq<int>)
  {
    && |top| == TOP_K
    && InRange(sims, top)
    && (forall i, j :: 0 <= i < j < |top| ==> top[i] != top[j])
    && (forall i, j :: 0 <= i < j < |top| ==> sims[top[i]] >= sims[top[j]])
    && (forall i, j :: 0 <= i < |top| && 0 <= j < |sims| && j !in top ==> sims[j] <= sims[top[i]])
  }

  /** The candidate indices whose unrounded score clears the threshold, in candidate order. */
  function Kept(sims: seq<real>, top: seq<int>): (k: seq<int>)
    requires InRange(sims, top)
    ensures InRange(sims, k)
    ensures |k| <= |top|
  {
    if top == [] then []
    else
      var last := top[|top| - 1];
      Kept(sims, top[..|top| - 1]) + (if sims[last] >= SIMILARITY_THRESHOLD then [last] else [])
  }

  /** The dictionary built for a kept index: every field read at the same catalog index. */
  function Present(catalog: Catalog, idx: int, score: real, round: real -> real): Match
    requires catalog.WellFormed() && 0 <= idx < catalog.Size()
  {
    Match(catalog.ids[idx], catalog.names[idx], round(score), catalog.texts[idx])
  }

  /** The `techniques` list the loop builds from the candidates `top`. */
  function Matches(catalog: Catalog, sims: seq<real>, top: seq<int>, round: real -> real): (m: seq<Match>)
    requires catalog.WellFormed() && |sims| == catalog.Size() && InRange(sims, top)
    ensures |m| <= |top|
    ensures forall i :: 0 <= i < |m| ==> m[i].id in catalog.ids && m[i].description in catalog.texts
  {
    if top == [] then []
    else
      var last := top[|top| - 1];
      var score := sims[last];
      Matches(catalog, sims, top[..|top| - 1], round)
        + (if score >= SIMILARITY_THRESHOLD then [Present(catalog, last, score, round)] else [])
  }

  /** `no_match` with an empty list when nothing survived, `ok` otherwise. */
  function Respond(techniques: seq<Match>): (r: Response)
    ensures r.techniques == techniques
    ensures r.status == NoMatch <==> techniques == []
  {
    if techniques == [] then Response(NoMatch, []) else Response(Ok, techniques)
  }

  /** The query handed to the pipeline: the first command-line argument, or "" when there is none. */
  function QueryArgument(argv: seq<string>): (q: string)
    ensures |argv| <= 1 ==> q == ""
    ensures |argv| > 1 ==> q == argv[1]
  {
    if |argv| > 1 then argv[1] else ""
  }

  method RunPipeline(text: string, catalog: Catalog, similarity: string -> seq<real>,
                     topk: seq<real> -> seq<int>, round: real -> real)
    returns (r: Result<Response, PipelineError>)
    requires catalog.WellFormed()
    requires |similarity(text)| == catalog.Size()
    requires TOP_K <= catalog.Size() ==> IsTopK(similarity(text), topk(similarity(text)))
    ensures r.Failure? <==> catalog.Size() < TOP_K
    ensures r.Success? ==> r.value == Respond(Matches(catalog, similarity(text), topk(similarity(text)), round))
    ensures r.Success? ==> |r.value.techniques| <= TOP_K
    ensures r.Success? ==> (r.value.status == NoMatch <==> r.value.techniques == [])
  {
    var sims := similarity(text);
    if catalog.Size() < TOP_K {
      return Failure(TopKOutOfRange);
    }
    var top := topk(sims);
    var techniques: seq<Match> := [];
    var i := 0;
    while i < |top|
      invariant 0 <= i <= |top|
      invariant techniques == Matches(catalog, sims, top[..i], round)
    {
      var idx := top[i];
      var score := sims[idx];
      assert top[..i + 1][..i] == top[..i];
      if score >= SIMILARITY_THRESHOLD {
        techniques := techniques + [Present(catalog, idx, score, round)];
      }
      i := i + 1;
    }
    assert top[..|top|] == top;
    MatchesFollowKept(catalog, sims, top, round);
    if techniques == [] {
      return Success(Response(NoMatch, []));
    }
    return Success(Response(Ok, techniques));
  }

  /**
   * The score vector as models/ctiPipeline.py:49 writes it. `cosine_similarity`
   * of the 1-D query embedding against the N x D catalog matrix already yields
   * the N scores (`cos`); the trailing `[0]` then keeps only the first of them,
   * a single score. RunPipeline takes the evidently intended vector, `cos`
   * itself, one score per catalog entry.
   */
  function ScoresAsWritten(cos: seq<real>): (s: seq<real>)
    requires cos != []
    ensures |s| == 1 && s[0] == cos[0]
  {
    cos[..1]
  }

  /**
   * As written, `torch.topk(sims, k=TOP_K)` asks for more scores than there
   * are, whatever the text and however large the catalog, while the intended
   * vector admits it as soon as the catalog holds TOP_K entries.
   */
  lemma AsWrittenTopKOutOfRange(catalog: Catalog, cos: seq<real>)
    requires catalog.WellFormed() && |cos| == catalog.Size() && TOP_K <= catalog.Size()
    ensures |ScoresAsWritten(cos)| < TOP_K <= |cos|
  {
  }

  // ---------------------------------------------------------------------
  // Properties of the selection
  // ---------------------------------------------------------------------

  /**
   * The i-th reported technique is the catalog entry at the i-th kept index,
   * with id, name and description read at that index and only the confidence
   * passed through the presentation function.
   */
  lemma {:induction false} MatchesFollowKept(catalog: Catalog, sims: seq<real>, top: seq<int>, round: real -> real)
    requires catalog.WellFormed() && |sims| == catalog.Size() && InRange(sims, top)
    ensures |Matches(catalog, sims, top, round)| == |Kept(sims, top)|
    ensures forall i :: 0 <= i < |Kept(sims, top)| ==>
      Matches(catalog, sims, top, round)[i] == Present(catalog, Kept(sims, top)[i], sims[Kept(sims, top)[i]], round)
  {
    if top != [] {
      MatchesFollowKept(catalog, sims, top[..|top| - 1], round);
    }
  }

  /** The threshold is inclusive, and an index is kept exactly when it is a candidate that clears it. */
  lemma {:induction false} KeptMembership(sims: seq<real>, top: seq<int>, x: int)
    requires InRange(sims, top)
    ensures x in Kept(sims, top) <==> x in top && 0 <= x < |sims| && sims[x] >= SIMILARITY_THRESHOLD
  {
    if top != [] {
      var init := top[..|top| - 1];
      KeptMembership(sims, init, x);
      assert top == init + [top[|top| - 1]];
    }
  }

  /** The kept indices are the candidates in candidate order, some left out. */
  lemma {:induction false} KeptIsSubsequence(sims: seq<real>, top: seq<int>)
    requires InRange(sims, top)
    ensures IsSubsequence(Kept(sims, top), top)
  {
    if top != [] {
      var init := top[..|top| - 1];
      KeptIsSubsequence(sims, init);
      var k := Kept(sims, top);
      assert top[..|top| - 1] == init;
      if sims[top[|top| - 1]] >= SIMILARITY_THRESHOLD {
        assert k[..|k| - 1] == Kept(sims, init) && k[|k| - 1] == top[|top| - 1];
      } else {
        assert k == Kept(sims, init);
      }
    }
  }

  /** The kept indices come in non-increasing score order. */
  lemma {:induction false} KeptNonIncreasing(sims: seq<real>, top: seq<int>)
    requires InRange(sims, top)
    requires forall i, j :: 0 <= i < j < |top| ==> sims[top[i]] >= sims[top[j]]
    ensures forall i, j :: 0 <= i < j < |Kept(sims, top)| ==> sims[Kept(sims, top)[i]] >= sims[Kept(sims, top)[j]]
  {
    if top != [] {
      var init := top[..|top| - 1];
      var last := top[|top| - 1];
      KeptNonIncreasing(sims, init);
      forall x | x in Kept(sims, init) ensures sims[x] >= sims[last] {
        KeptMembership(sims, init, x);
        var p :| 0 <= p < |init| && init[p] == x;
        assert top[p] == x;
      }
    }
  }

  /** The status and the reported ids, names and descriptions do not depend on how confidences are rounded. */
  lemma RoundingOnlyAffectsConfidence(catalog: Catalog, sims: seq<real>, top: seq<int>, round1: real -> real, round2: real -> real)
    requires catalog.WellFormed() && |sims| == catalog.Size() && InRange(sims, top)
    ensures Respond(Matches(catalog, sims, top, round1)).status == Respond(Matches(catalog, sims, top, round2)).status
    ensures |Matches(catalog, sims, top, round1)| == |Matches(catalog, sims, top, round2)|
    ensures forall i :: 0 <= i < |Matches(catalog, sims, top, round1)| ==>
      Matches(catalog, sims, top, round1)[i].(confidence := 0.0) == Matches(catalog, sims, top, round2)[i].(confidence := 0.0)
  {
    MatchesFollowKept(catalog, sims, top, round1);
    MatchesFollowKept(catalog, sims, top, round2);
  }

  /** The catalog positions whose score clears the threshold. */
  ghost function Clearing(sims: seq<real>): set<int>
  {
    set i | 0 <= i < |sims| && sims[i] >= SIMILARITY_THRESHOLD
  }

  lemma {:induction false} KeptDistinct(sims: seq<real>, top: seq<int>)
    requires InRange(sims, top)
    requires forall i, j :: 0 <= i < j < |top| ==> top[i] != top[j]
    ensures forall i, j :: 0 <= i < j < |Kept(sims, top)| ==> Kept(sims, top)[i] != Kept(sims, top)[j]
  {
    if top != [] {
      var init := top[..|top| - 1];
      var last := top[|top| - 1];
      KeptDistinct(sims, init);
      var prev := Kept(sims, init);
      forall i | 0 <= i < |prev| ensures prev[i] != last {
        KeptMembership(sims, init, prev[i]);
        var p :| 0 <= p < |init| && init[p] == prev[i];
        assert top[p] == prev[i];
      }
    }
  }

  /**
   * Fewer than TOP_K techniques come back only when fewer than TOP_K catalog
   * entries clear the threshold: the count is min(TOP_K, number clearing).
   */
  lemma KeptCount(sims: seq<real>, top: seq<int>)
    requires IsTopK(sims, top)
    ensures |Kept(sims, top)| == Min(TOP_K, |Clearing(sims)|)
  {
    var kept := Kept(sims, top);
    KeptDistinct(sims, top);
    DistinctCardinality(kept);
    DistinctCardinality(top);
    KeptSetIsMeet(sims, top);
    TopAndClearingNested(sims, top);
    MeetCardinality((set x | x in top), Clearing(sims));
  }

  /** Either every candidate clears the threshold, or every entry that clears it is a candidate. */
  lemma TopAndClearingNested(sims: seq<real>, top: seq<int>)
    requires IsTopK(sims, top)
    ensures (set x | x in top) <= Clearing(sims) || Clearing(sims) <= (set x | x in top)
  {
    if exists p :: 0 <= p < |top| && sims[top[p]] < SIMILARITY_THRESHOLD {
      var p :| 0 <= p < |top| && sims[top[p]] < SIMILARITY_THRESHOLD;
      ClearingWithinTop(sims, top, p);
    }
  }

  /** Of two nested sets, the meet is the smaller one. */
  lemma MeetCardinality(a: set<int>, b: set<int>)
    requires a <= b || b <= a
    ensures |a * b| == Min(|a|, |b|)
  {
    if a <= b {
      assert a * b == a;
      SubsetCardinality(a, b);
    } else {
      assert a * b == b;
      SubsetCardinality(b, a);
    }
  }

  /** The kept indices, as a set, are the candidates that clear the threshold. */
  lemma KeptSetIsMeet(sims: seq<real>, top: seq<int>)
    requires InRange(sims, top)
    ensures (set x | x in Kept(sims, top)) == (set x | x in top) * Clearing(sims)
  {
    forall x ensures x in Kept(sims, top) <==> x in top && x in Clearing(sims) {
      KeptMembership(sims, top, x);
    }
  }

  /**
   * Once one candidate misses the threshold, every entry that clears it is a
   * candidate: an entry outside the top K scores no higher than any candidate.
   */
  lemma ClearingWithinTop(sims: seq<real>, top: seq<int>, p: int)
    requires IsTopK(sims, top)
    requires 0 <= p < |top| && sims[top[p]] < SIMILARITY_THRESHOLD
    ensures Clearing(sims) <= set x | x in top
  {
    var bar := sims[top[p]];
    forall j | j in Clearing(sims) ensures j in top {
      var score := sims[j];
      assert j !in top ==> score <= bar;
    }
  }

  lemma SubsetCardinality(a: set<int>, b: set<int>)
    requires a <= b
    ensures |a| <= |b|
  {
    assert b == a + (b - a);
  }

  /** A catalog entry scoring strictly above all others and at least the threshold is always reported. */
  lemma StrongestEntryReported(sims: seq<real>, top: seq<int>, x: int)
    requires IsTopK(sims, top)
    requires 0 <= x < |sims| && sims[x] >= SIMILARITY_THRESHOLD
    requires forall j :: 0 <= j < |sims| && j != x ==> sims[j] < sims[x]
    ensures x in Kept(sims, top)
  {
    assert x in top by {
      assert top[0] in top;
    }
    KeptMembership(sims, top, x);
  }
}
