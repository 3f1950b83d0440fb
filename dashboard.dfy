/**
 * The analysis page (src/pages/Dashboard.tsx): the input box, the analyze
 * button with its blank-input guard, the guest history update, clearing,
 * loading the sample and the upload guard. The page's React state is the
 * fields of DashboardPage. The two-second timer is collapsed: Analyze runs
 * the timer's callback at once, on the text the click captured. The clock,
 * ISO time and random draws are parameters, and the file's contents are
 * given with it (FileReader is left out).
 */
module Dashboard {
  import opened Wrappers
  import opened Strings
  import opened Sequences
  import opened Storage
  import opened MockData
  import opened Auth

  /** A guest keeps at most this many analyses. */
  const HISTORY_CAP: nat := 50

  /**
   * `JSON.parse(sessionStorage.getItem('analysis-history') || '[]')` as far as
   * the following `unshift` can use it: absent or empty text reads as the
   * empty list, a stored analysis list as itself, and any other stored text
   * as unusable (None), on which the handler throws. Text that is not JSON,
   * or JSON that is no array, does throw; a JSON array of other values would
   * not, and the model does not represent such text (see README).
   */
  function ParseGuestHistory(stored: Option<Stored>): (r: Option<seq<AnalysisResult>>)
    ensures !Truthy(stored) ==> r == Some([])
    ensures Truthy(stored) ==> (r.Some? <==> stored.value.HistoryJson?)
    ensures Truthy(stored) && r.Some? ==> r.value == stored.value.items
  {
    if !Truthy(stored) then Some([])
    else match stored.value
      case HistoryJson(items) => Some(items)
      case _ => None
  }

  /** `history.unshift(a); history.slice(0, 50)`. */
  function PrependCapped(history: seq<AnalysisResult>, a: AnalysisResult): (r: seq<AnalysisResult>)
    ensures 1 <= |r| <= HISTORY_CAP && |r| <= |history| + 1 && r[0] == a
    ensures forall i :: 1 <= i < |r| ==> r[i] == history[i - 1]
  {
    var h := [a] + history;
    h[..Min(|h|, HISTORY_CAP)]
  }

  /**
   * The new analysis comes first, the list never exceeds the cap, and the
   * rest is the front of the previous list in its order.
   */
  lemma PrependCappedShape(history: seq<AnalysisResult>, a: AnalysisResult)
    ensures var r := PrependCapped(history, a);
      && |r| == Min(|history| + 1, HISTORY_CAP)
      && r[0] == a
      && r[1..] == history[..Min(|history|, HISTORY_CAP - 1)]
  {
    var h := [a] + history;
    var r := PrependCapped(history, a);
    assert r[1..] == h[1..Min(|h|, HISTORY_CAP)];
    assert h[1..] == history;
  }

  /** Repeated guest analyses never let the stored list grow beyond the cap. */
  lemma PrependCappedBounded(history: seq<AnalysisResult>, a: AnalysisResult)
    ensures |PrependCapped(history, a)| <= HISTORY_CAP
    ensures |history| < HISTORY_CAP ==> |PrependCapped(history, a)| == |history| + 1
  {
  }

  /** `file.name.endsWith('.txt') || file.name.endsWith('.json')`. */
  predicate AcceptsFileName(name: string)
  {
    EndsWith(name, ".txt") || EndsWith(name, ".json")
  }

  /** Every stem with either extension is accepted. */
  lemma AcceptsEitherExtension(stem: string)
    ensures AcceptsFileName(stem + ".txt")
    ensures AcceptsFileName(stem + ".json")
  {
    assert (stem + ".txt")[|stem|..] == ".txt";
    assert (stem + ".json")[|stem|..] == ".json";
  }

  /** An accepted name is a stem followed by one of the two extensions. */
  lemma AcceptedNameHasExtension(name: string)
    requires AcceptsFileName(name)
    ensures || (|name| >= 4 && name == name[..|name| - 4] + ".txt")
            || (|name| >= 5 && name == name[..|name| - 5] + ".json")
  {
    if EndsWith(name, ".txt") {
      assert name == name[..|name| - 4] + name[|name| - 4..];
    } else {
      assert name == name[..|name| - 5] + name[|name| - 5..];
    }
  }

  /** The test is case-sensitive and looks only at the end of the name. */
  lemma AcceptsFileNameExamples()
    ensures AcceptsFileName("report.txt") && AcceptsFileName("iocs.json")
    ensures !AcceptsFileName("report.TXT") && !AcceptsFileName("report.txt.pdf") && !AcceptsFileName("txt")
  {
    AcceptsEitherExtension("report");
    AcceptsEitherExtension("iocs");
    assert "report.TXT"[6..] != ".txt" by { assert "report.TXT"[7] == 'T'; }
    assert "report.txt.pdf"[10..] != ".txt" by { assert "report.txt.pdf"[11] == 'p'; }
    assert "report.txt.pdf"[9..] != ".json" by { assert "report.txt.pdf"[10] == '.'; }
  }

  /** A file the user picked: its name and the text FileReader yields for it. */
  datatype UploadedFile = UploadedFile(name: string, contents: string)

  /** How one press of the analyze button ends. */
  datatype AnalyzeOutcome =
    | InputRequired        // blank input: the "Input Required" toast, nothing else
    | Completed            // the analysis is shown (and, for a guest, stored)
    | HistoryUnreadable    // guest whose stored history is not a list: the callback throws after setResult

  class DashboardPage {
    const guest: bool
    const session: KeyValueStore<Stored>
    var inputText: string
    var analyzing: bool
    var result: Option<AnalysisResult>

    /** Rendering the page: `isGuest()` is read once, the input starts empty. */
    constructor (local: KeyValueStore<Stored>, session: KeyValueStore<Stored>)
      ensures guest == IsGuest(local) && this.session == session
      ensures inputText == "" && !analyzing && result == None
    {
      guest := IsGuest(local);
      this.session := session;
      inputText := "";
      analyzing := false;
      result := None;
    }

    /**
     * `handleAnalyze()` followed by its timer callback. The guard
     * `!inputText.trim()` is stated as IsBlank, which is the same test
     * (Strings.TrimEmptyIffBlank).
     */
    method Analyze(now: nat, isoNow: string, draws: seq<real>) returns (outcome: AnalyzeOutcome)
      requires |draws| == |MockTechniques|
      modifies this, session
      ensures inputText == old(inputText)
      ensures outcome == InputRequired <==> IsBlank(old(inputText))
      ensures outcome == InputRequired ==>
        result == old(result) && analyzing == old(analyzing) && session.items == old(session.items)
      ensures outcome != InputRequired ==> result == Some(GenerateMockAnalysis(old(inputText), now, isoNow, draws))
      ensures outcome == HistoryUnreadable <==>
        outcome != InputRequired && guest && old(ParseGuestHistory(session.GetItem(HISTORY_KEY))).None?
      ensures outcome == HistoryUnreadable ==> analyzing && session.items == old(session.items)
      ensures outcome == Completed ==> !analyzing
      ensures outcome == Completed && guest ==>
        session.items == old(session.items)[HISTORY_KEY := HistoryJson(
          PrependCapped(old(ParseGuestHistory(session.GetItem(HISTORY_KEY))).value, result.value))]
      ensures outcome == Completed && !guest ==> session.items == old(session.items)
    {
      if IsBlank(inputText) {
        return InputRequired;
      }
      analyzing := true;
      var analysis := GenerateMockAnalysis(inputText, now, isoNow, draws);
      result := Some(analysis);
      if guest {
        var parsed := ParseGuestHistory(session.GetItem(HISTORY_KEY));
        if parsed.None? {
          return HistoryUnreadable;
        }
        var history := parsed.value;
        history := [analysis] + history;
        session.SetItem(HISTORY_KEY, HistoryJson(history[..Min(|history|, HISTORY_CAP)]));
      }
      analyzing := false;
      return Completed;
    }

    /** `handleClear()`. */
    method Clear()
      modifies this
      ensures inputText == "" && result == None && analyzing == old(analyzing)
    {
      inputText := "";
      result := None;
    }

    /** `loadSample()`. */
    method LoadSample()
      modifies this
      ensures inputText == SampleCtiText && result == old(result) && analyzing == old(analyzing)
    {
      inputText := SampleCtiText;
    }

    /** `handleFileUpload(e)` with the reader's load event: `None` when no file was picked. */
    method UploadFile(file: Option<UploadedFile>) returns (accepted: bool)
      modifies this
      ensures accepted <==> file.Some? && AcceptsFileName(file.value.name)
      ensures accepted ==> inputText == file.value.contents
      ensures !accepted ==> inputText == old(inputText)
      ensures result == old(result) && analyzing == old(analyzing)
    {
      if file.None? {
        return false;
      }
      if !EndsWith(file.value.name, ".txt") && !EndsWith(file.value.name, ".json") {
        return false;
      }
      inputText := file.value.contents;
      return true;
    }
  }
}
