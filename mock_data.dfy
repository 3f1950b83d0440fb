/**
 * The front end's mock analysis (src/lib/mockData.ts): the analysis record
 * types, the three canned techniques, the sample text, and the generator
 * that stamps, truncates and re-scores them for one input. `Date.now()`,
 * `new Date().toISOString()` and the `Math.random()` draws are parameters.
 */
module MockData {
  import opened Strings

  datatype MitreTechnique = MitreTechnique(
    id: string, name: string, confidence: real, tacticId: string, tacticName: string, description: string)

  datatype AnalysisResult = AnalysisResult(
    id: string, timestamp: string, inputText: string, techniques: seq<MitreTechnique>, summary: string)

  const MockTechniques: seq<MitreTechnique> := [
    MitreTechnique("T1566.001", "Phishing: Spearphishing Attachment", 0.92, "TA0001", "Initial Access",
      "Adversaries may send spearphishing emails with a malicious attachment in an attempt to gain access to victim systems."),
    MitreTechnique("T1059.001", "Command and Scripting Interpreter: PowerShell", 0.87, "TA0002", "Execution",
      "Adversaries may abuse PowerShell commands and scripts for execution."),
    MitreTechnique("T1486", "Data Encrypted for Impact", 0.78, "TA0040", "Impact",
      "Adversaries may encrypt data on target systems or on large numbers of systems in a network to interrupt availability to system and network resources.")
  ]

  const SampleCtiText: string :=
    "APT29, also known as Cozy Bear, has been observed conducting a sophisticated spearphishing campaign targeting "
    + "government agencies. The threat actor sent emails with malicious attachments designed to deploy a PowerShell-based "
    + "backdoor. Once executed, the malware establishes persistence and begins exfiltrating sensitive documents. The "
    + "campaign also includes ransomware deployment capabilities, encrypting critical files to disrupt operations and "
    + "demand payment. The attackers leveraged compromised credentials to move laterally within the network, accessing "
    + "multiple high-value targets."

  /** Stored input is cut to this many characters. */
  const INPUT_LIMIT: nat := 200
  const ELLIPSIS: string := "..."

  /** `inputText.slice(0, 200) + (inputText.length > 200 ? "..." : "")`. */
  function TruncateInput(s: string): (r: string)
    ensures |s| <= INPUT_LIMIT ==> r == s
    ensures |s| > INPUT_LIMIT ==> |r| == INPUT_LIMIT + |ELLIPSIS| && r[..INPUT_LIMIT] == s[..INPUT_LIMIT] && r[INPUT_LIMIT..] == ELLIPSIS
  {
    (if |s| <= INPUT_LIMIT then s else s[..INPUT_LIMIT]) + (if |s| > INPUT_LIMIT then ELLIPSIS else "")
  }

  /** Truncating a stored input again changes nothing. */
  lemma TruncateIdempotent(s: string)
    ensures TruncateInput(TruncateInput(s)) == TruncateInput(s)
  {
    if |s| > INPUT_LIMIT {
      var t := TruncateInput(s);
      assert t[..INPUT_LIMIT] + ELLIPSIS == t;
    }
  }

  /** `Math.random() * 0.3 + 0.7` for the draw `r`. */
  function Rescale(r: real): real
  {
    r * 0.3 + 0.7
  }

  /** A draw in [0, 1) gives a confidence in [0.7, 1.0). */
  lemma RescaleRange(r: real)
    requires 0.0 <= r < 1.0
    ensures 0.7 <= Rescale(r) < 1.0
  {
  }

  /** `{...t, confidence: c}`. */
  predicate SameExceptConfidence(a: MitreTechnique, b: MitreTechnique)
  {
    a.(confidence := 0.0) == b.(confidence := 0.0)
  }

  /** `mockTechniques.map(t => ({...t, confidence: ...}))`, one draw per technique in list order. */
  function Rescore(ts: seq<MitreTechnique>, draws: seq<real>): (r: seq<MitreTechnique>)
    requires |draws| == |ts|
    ensures |r| == |ts|
    ensures forall i :: 0 <= i < |ts| ==> SameExceptConfidence(r[i], ts[i]) && r[i].confidence == Rescale(draws[i])
  {
    seq(|ts|, i requires 0 <= i < |ts| => ts[i].(confidence := Rescale(draws[i])))
  }

  const SUMMARY_TAIL: string :=
    " MITRE ATT&CK techniques across multiple tactics including Initial Access, Execution, and Impact phases."

  function Summary(count: nat): string
  {
    "Detected " + NatToString(count) + SUMMARY_TAIL
  }

  /** `generateMockAnalysis(inputText)` at clock reading `now`, ISO time `isoNow`, with the random draws `draws`. */
  function GenerateMockAnalysis(inputText: string, now: nat, isoNow: string, draws: seq<real>): (a: AnalysisResult)
    requires |draws| == |MockTechniques|
    ensures a.id == "analysis-" + NatToString(now) && a.timestamp == isoNow
    ensures a.inputText == TruncateInput(inputText)
    ensures |a.techniques| == |MockTechniques|
    ensures forall i :: 0 <= i < |MockTechniques| ==>
      SameExceptConfidence(a.techniques[i], MockTechniques[i]) && a.techniques[i].confidence == Rescale(draws[i])
    ensures a.summary == Summary(|MockTechniques|)
  {
    AnalysisResult("analysis-" + NatToString(now), isoNow, TruncateInput(inputText),
                   Rescore(MockTechniques, draws), Summary(|MockTechniques|))
  }

  /**
   * With genuine `Math.random()` draws every generated confidence lies in
   * [0.7, 1.0), the stored input is at most 203 characters, and the summary
   * names the three techniques.
   */
  lemma GeneratedAnalysisBounds(inputText: string, now: nat, isoNow: string, draws: seq<real>)
    requires |draws| == |MockTechniques|
    requires forall i :: 0 <= i < |draws| ==> 0.0 <= draws[i] < 1.0
    ensures var a := GenerateMockAnalysis(inputText, now, isoNow, draws);
      && (forall i :: 0 <= i < |a.techniques| ==> 0.7 <= a.techniques[i].confidence < 1.0)
      && |a.inputText| <= INPUT_LIMIT + |ELLIPSIS|
      && a.summary == "Detected 3" + SUMMARY_TAIL
  {
    var a := GenerateMockAnalysis(inputText, now, isoNow, draws);
    forall i | 0 <= i < |a.techniques| ensures 0.7 <= a.techniques[i].confidence < 1.0 {
      RescaleRange(draws[i]);
    }
    assert |MockTechniques| == 3 && NatToString(3) == "3";
    assert "Detected " + "3" == "Detected 3";
  }
}
