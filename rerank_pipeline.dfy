/**
 * The multi-stage classifier of techniquerag-backend/models/ctiPipeline.py:
 * passages are retrieved for the query, each (query, passage) pair is scored
 * by the reranker, the passage with the highest class probability is taken
 * as evidence, and a generator writes an explanation from a fixed prompt.
 *
 * The retriever (`search`), the reranker with its softmax (`rerank`, one
 * probability row per input) and the generator (`generate`) are oracles.
 */
module RerankPipeline {
  import opened Wrappers
  import opened Strings

  /** Passages requested from the retriever. */
  const RETRIEVAL_DEPTH: nat := 5
  const SEPARATOR: string := " [SEP] "
  const TECHNIQUE_ID: string := "T1059"
  const TECHNIQUE_NAME: string := "Command and Scripting Interpreter"
  /** Generator settings: at most 200 tokens, greedy (non-sampling) decoding. */
  const MAX_LENGTH: nat := 200
  const DO_SAMPLE: bool := false
  const DEFAULT_QUERY: string := "APT used PowerShell scripts to execute commands remotely."

  /** The arguments of one generator call. */
  datatype GenerationRequest = GenerationRequest(prompt: string, maxLength: nat, doSample: bool)

  datatype TechniqueRef = TechniqueRef(id: string, name: string)

  datatype Response = Response(technique: TechniqueRef, confidence: real, evidence: seq<string>, explanation: string)

  /** `np.argmax` of an empty array raises. */
  datatype PipelineError = ArgMaxOfEmpty

  /** The reranker inputs: one per passage, in retrieval order, each the query, the separator and the passage. */
  function PairInputs(text: string, passages: seq<string>): (inputs: seq<string>)
    ensures |inputs| == |passages|
    ensures forall i :: 0 <= i < |passages| ==> inputs[i] == text + SEPARATOR + passages[i]
  {
    if passages == [] then []
    else PairInputs(text, passages[..|passages| - 1]) + [text + SEPARATOR + passages[|passages| - 1]]
  }

  /** The passage part of a reranker input built for `text`. */
  function PassageOf(text: string, input: string): string
    requires |text| + |SEPARATOR| <= |input|
  {
    input[|text| + |SEPARATOR|..]
  }

  /** Every reranker input starts with the query and gives back its passage. */
  lemma PairInputsRecoverPassages(text: string, passages: seq<string>)
    ensures forall i :: 0 <= i < |passages| ==>
      |text| + |SEPARATOR| <= |PairInputs(text, passages)[i]|
      && PairInputs(text, passages)[i][..|text|] == text
      && PassageOf(text, PairInputs(text, passages)[i]) == passages[i]
  {
    forall i | 0 <= i < |passages|
      ensures PairInputs(text, passages)[i][..|text|] == text
      ensures PassageOf(text, PairInputs(text, passages)[i]) == passages[i]
    {
      var input := PairInputs(text, passages)[i];
      assert input == text + SEPARATOR + passages[i];
    }
  }

  /** The probability matrix has one non-empty row per reranker input. */
  predicate WellShaped(probs: seq<seq<real>>, n: nat)
  {
    |probs| == n && forall i :: 0 <= i < |probs| ==> probs[i] != []
  }

  /** `max` of one probability row. */
  function RowMax(row: seq<real>): (m: real)
    requires row != []
    ensures m in row
    ensures forall x :: x in row ==> x <= m
  {
    if |row| == 1 then row[0]
    else
      var init := row[..|row| - 1];
      var m := RowMax(init);
      assert row == init + [row[|row| - 1]];
      if row[|row| - 1] > m then row[|row| - 1] else m
  }

  /** `probs.max(axis=1)`: each passage's confidence is the largest probability in its row. */
  function Confidences(probs: seq<seq<real>>): (c: seq<real>)
    requires WellShaped(probs, |probs|)
    ensures |c| == |probs|
    ensures forall i :: 0 <= i < |probs| ==> c[i] in probs[i] && forall x :: x in probs[i] ==> x <= c[i]
  {
    seq(|probs|, i requires 0 <= i < |probs| => RowMax(probs[i]))
  }

  /** `k` holds a largest element of `xs` and no earlier position holds one. */
  predicate IsFirstMax(xs: seq<real>, k: int)
  {
    && 0 <= k < |xs|
    && (forall j :: 0 <= j < |xs| ==> xs[j] <= xs[k])
    && (forall j :: 0 <= j < k ==> xs[j] < xs[k])
  }

  /** `np.argmax`: the first position holding the maximum. */
  function ArgMax(xs: seq<real>): (k: nat)
    requires xs != []
    ensures IsFirstMax(xs, k)
  {
    if |xs| == 1 then 0
    else
      var k := ArgMax(xs[..|xs| - 1]);
      if xs[|xs| - 1] > xs[k] then |xs| - 1 else k
  }

  /** There is only one first maximum, so the tie-break fixes the answer. */
  lemma FirstMaxUnique(xs: seq<real>, a: int, b: int)
    requires IsFirstMax(xs, a) && IsFirstMax(xs, b)
    ensures a == b
  {
    assert xs[a] <= xs[b] && xs[b] <= xs[a];
  }

  /** `passages[best_idx] if passages else ""`. */
  function BestPassage(passages: seq<string>, bestIdx: int): (p: string)
    requires passages != [] ==> 0 <= bestIdx < |passages|
    ensures passages == [] ==> p == ""
    ensures passages != [] ==> p in passages
  {
    if passages != [] then passages[bestIdx] else ""
  }

  const PROMPT_HEAD: string := "Given the input: "
  const PROMPT_EVIDENCE: string := "\nEvidence: "
  const PROMPT_TAIL: string := "\nProvide a concise explanation and map to MITRE ATT&CK technique id "

  /** The three-line generator prompt. */
  function Prompt(text: string, evidence: string, techniqueId: string): string
  {
    PROMPT_HEAD + text + PROMPT_EVIDENCE + evidence + PROMPT_TAIL + techniqueId + "."
  }

  /** The prompt holds the query, the evidence and the technique id, each at a fixed place. */
  lemma PromptLayout(text: string, evidence: string, techniqueId: string)
    ensures var p := Prompt(text, evidence, techniqueId);
      var at := |PROMPT_HEAD| + |text| + |PROMPT_EVIDENCE|;
      && at + |evidence| <= |p|
      && p[|PROMPT_HEAD|..|PROMPT_HEAD| + |text|] == text
      && p[at..at + |evidence|] == evidence
      && Contains(p, evidence)
      && p[|p| - 1 - |techniqueId|..|p| - 1] == techniqueId
      && p[|p| - 1] == '.'
  {
    var p := Prompt(text, evidence, techniqueId);
    var at := |PROMPT_HEAD| + |text| + |PROMPT_EVIDENCE|;
    assert p == (PROMPT_HEAD + text + PROMPT_EVIDENCE) + evidence + (PROMPT_TAIL + techniqueId + ".");
    assert p[at..at + |evidence|] == evidence;
    assert OccursAt(p, evidence, at);
  }

  /** The reranker's answer has the shape the pipeline relies on. */
  predicate ScoredAsRetrieved(text: string, search: (string, nat) -> seq<string>, rerank: seq<string> -> seq<seq<real>>)
  {
    var passages := search(text, RETRIEVAL_DEPTH);
    WellShaped(rerank(PairInputs(text, passages)), |passages|)
  }

  /** The per-passage confidences for the retrieved passages. */
  function PassageConfidences(text: string, search: (string, nat) -> seq<string>, rerank: seq<string> -> seq<seq<real>>): (c: seq<real>)
    requires ScoredAsRetrieved(text, search, rerank)
    ensures |c| == |search(text, RETRIEVAL_DEPTH)|
  {
    Confidences(rerank(PairInputs(text, search(text, RETRIEVAL_DEPTH))))
  }

  /** `run_pipeline`, as written: with no passages `np.argmax` raises before the empty-evidence guard is reached. */
  function RunPipeline(text: string, search: (string, nat) -> seq<string>, rerank: seq<string> -> seq<seq<real>>,
                       generate: GenerationRequest -> string): (r: Result<Response, PipelineError>)
    requires ScoredAsRetrieved(text, search, rerank)
    ensures r.Failure? <==> search(text, RETRIEVAL_DEPTH) == []
    ensures r.Success? ==> r.value.technique == TechniqueRef(TECHNIQUE_ID, TECHNIQUE_NAME)
    ensures r.Success? ==> r.value.evidence == search(text, RETRIEVAL_DEPTH)
    ensures r.Success? ==> r.value.confidence in PassageConfidences(text, search, rerank)
    ensures r.Success? ==> forall c :: c in PassageConfidences(text, search, rerank) ==> c <= r.value.confidence
  {
    var passages := search(text, RETRIEVAL_DEPTH);
    var confidences := PassageConfidences(text, search, rerank);
    if confidences == [] then
      Failure(ArgMaxOfEmpty)
    else
      var bestIdx := ArgMax(confidences);
      var best := BestPassage(passages, bestIdx);
      var explanation := generate(GenerationRequest(Prompt(text, best, TECHNIQUE_ID), MAX_LENGTH, DO_SAMPLE));
      Success(Response(TechniqueRef(TECHNIQUE_ID, TECHNIQUE_NAME), confidences[bestIdx], passages, explanation))
  }

  /**
   * With at least one passage, the evidence is the passage at the first
   * maximal confidence, the reported confidence is that passage's, and the
   * explanation is the generator's greedy answer to a prompt that contains it.
   */
  lemma BestEvidenceExplained(text: string, search: (string, nat) -> seq<string>, rerank: seq<string> -> seq<seq<real>>,
                              generate: GenerationRequest -> string, b: int)
    requires ScoredAsRetrieved(text, search, rerank)
    requires IsFirstMax(PassageConfidences(text, search, rerank), b)
    ensures var passages := search(text, RETRIEVAL_DEPTH);
      var r := RunPipeline(text, search, rerank, generate);
      var prompt := Prompt(text, passages[b], TECHNIQUE_ID);
      && r.Success?
      && r.value.confidence == PassageConfidences(text, search, rerank)[b]
      && r.value.explanation == generate(GenerationRequest(prompt, 200, false))
      && Contains(prompt, passages[b])
  {
    var confidences := PassageConfidences(text, search, rerank);
    FirstMaxUnique(confidences, ArgMax(confidences), b);
    PromptLayout(text, search(text, RETRIEVAL_DEPTH)[b], TECHNIQUE_ID);
  }

  /**
   * Two passages, the second more confident than the first: the explanation
   * is generated from a prompt quoting the second passage.
   */
  lemma SecondPassageWins(text: string, search: (string, nat) -> seq<string>, rerank: seq<string> -> seq<seq<real>>,
                          generate: GenerationRequest -> string)
    requires ScoredAsRetrieved(text, search, rerank)
    requires |search(text, RETRIEVAL_DEPTH)| == 2
    requires PassageConfidences(text, search, rerank)[0] < PassageConfidences(text, search, rerank)[1]
    ensures var r := RunPipeline(text, search, rerank, generate);
      r.Success? && r.value.explanation == generate(GenerationRequest(Prompt(text, search(text, RETRIEVAL_DEPTH)[1], TECHNIQUE_ID), 200, false))
  {
    BestEvidenceExplained(text, search, rerank, generate, 1);
  }

  /** The query handed to the pipeline: the first command-line argument, or the built-in example. */
  function QueryArgument(argv: seq<string>): (q: string)
    ensures |argv| <= 1 ==> q == DEFAULT_QUERY
    ensures |argv| > 1 ==> q == argv[1]
  {
    if |argv| > 1 then argv[1] else DEFAULT_QUERY
  }

  // ---------------------------------------------------------------------
  // The empty-retrieval case
  // ---------------------------------------------------------------------

  /** With no passages the pipeline fails, although line 44 has an empty-evidence default ready. */
  lemma EmptyRetrievalFails(text: string, search: (string, nat) -> seq<string>, rerank: seq<string> -> seq<seq<real>>,
                            generate: GenerationRequest -> string)
    requires ScoredAsRetrieved(text, search, rerank)
    requires search(text, RETRIEVAL_DEPTH) == []
    ensures RunPipeline(text, search, rerank, generate) == Failure(ArgMaxOfEmpty)
    ensures BestPassage(search(text, RETRIEVAL_DEPTH), 0) == ""
  {
  }

  /** A response that can say "no confidence" for empty evidence. */
  datatype TolerantResponse = TolerantResponse(technique: TechniqueRef, confidence: Option<real>, evidence: seq<string>, explanation: string)

  /** The pipeline with the empty-evidence guard taking effect: the argmax is taken only when there are passages. */
  function RunPipelineTolerant(text: string, search: (string, nat) -> seq<string>, rerank: seq<string> -> seq<seq<real>>,
                               generate: GenerationRequest -> string): (r: TolerantResponse)
    requires ScoredAsRetrieved(text, search, rerank)
    ensures r.technique == TechniqueRef(TECHNIQUE_ID, TECHNIQUE_NAME)
    ensures r.evidence == search(text, RETRIEVAL_DEPTH)
    ensures r.confidence.None? <==> r.evidence == []
    ensures r.evidence == [] ==>
      r.explanation == generate(GenerationRequest(Prompt(text, "", TECHNIQUE_ID), MAX_LENGTH, DO_SAMPLE))
  {
    var passages := search(text, RETRIEVAL_DEPTH);
    var confidences := PassageConfidences(text, search, rerank);
    var bestIdx := if confidences == [] then 0 else ArgMax(confidences);
    var best := BestPassage(passages, bestIdx);
    var explanation := generate(GenerationRequest(Prompt(text, best, TECHNIQUE_ID), MAX_LENGTH, DO_SAMPLE));
    TolerantResponse(TechniqueRef(TECHNIQUE_ID, TECHNIQUE_NAME),
                     if confidences == [] then None else Some(confidences[bestIdx]),
                     passages, explanation)
  }

  /** Wherever the original pipeline succeeds, the guarded one answers the same. */
  lemma TolerantAgreesWhenRetrieved(text: string, search: (string, nat) -> seq<string>, rerank: seq<string> -> seq<seq<real>>,
                                    generate: GenerationRequest -> string)
    requires ScoredAsRetrieved(text, search, rerank)
    requires search(text, RETRIEVAL_DEPTH) != []
    ensures var r := RunPipeline(text, search, rerank, generate);
      var t := RunPipelineTolerant(text, search, rerank, generate);
      r.Success? && t == TolerantResponse(r.value.technique, Some(r.value.confidence), r.value.evidence, r.value.explanation)
  {
  }
}
