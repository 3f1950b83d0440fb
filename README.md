# TechniqueRAG core, modelled in Dafny

TechniqueRAG maps free-text cyber threat intelligence (CTI) to MITRE ATT&CK
techniques. The project models its decision logic, one module per source file:

- **`DensePipeline`** models `TechniqueRAG/models/ctiPipeline.py`. Every catalog technique is scored against the
  query, the `TOP_K` (3) best are taken, and those scoring below `SIMILARITY_THRESHOLD` (0.55) are dropped.
  The result has status `ok`, or `no_match` with an empty list. The function `Matches` specifies the
  loop, and `RunPipeline` keeps the loop, proved against `Matches`.
- **`RerankPipeline`** models `TechniqueRAG/techniquerag-backend/models/ctiPipeline.py`. It asks the retriever
  for five passages and builds one reranker input per passage (`text + " [SEP] " + passage`). Each passage's confidence
  is the maximum of its probability row; the first passage with the largest confidence is the evidence for the
  generator prompt. The reported technique is always T1059.
- **`MockData`** models `src/lib/mockData.ts`: the canned techniques, the sample text, and `generateMockAnalysis`.
- **`Auth`** models `src/lib/auth.ts`: sign-in, sign-up, sign-out, guest mode and user update. It is a
  state machine over two key-value stores (`Storage.KeyValueStore`), standing for localStorage and
  sessionStorage.
- **`History`** models `src/pages/History.tsx`: the search filter, delete, clear, and how the list is loaded
  for guests and signed-in users. The class `HistoryPage` holds the page state, and `Valid()` says the
  filtering effect has caught up.
- **`Dashboard`** models `src/pages/Dashboard.tsx`. The class `DashboardPage` covers:
  - the analyze button, with its blank-input guard and the guest history update (prepend, cap at 50);
  - clear, load sample, and the upload extension check.

The helper modules stand for the JavaScript built-ins the pages use:

- `Strings`:
  - `trim` and its white-space set;
  - ASCII `toLowerCase`, `includes` and `endsWith`;
  - `split('@')[0]` and decimal rendering.
- `Sequences`: `Min`, the subsequence relation, and the cardinality of a distinct sequence.
- `Storage`: a key-value store.
- `Wrappers`: `Option` and `Result`.

The oracles (the embedder with cosine similarity, `torch.topk`, the retriever, the reranker with its softmax,
and the generator) are function-typed parameters. The clock, ISO time and `Math.random()` draws are also
parameters.

Where the evidently intended behaviour and the code disagree, the model follows the code:

- **Tie order.** Ties among the top-K scores would be expected to go to the earlier catalog entry. The code leaves tie order to
  `torch.topk`, so `IsTopK` allows any order among equal scores.
- **Small catalogs.** A small or empty catalog would be expected to give `no_match`. In the code,
  `torch.topk(sims, k=3)` raises when there are fewer than three entries. `DensePipeline.RunPipeline`
  therefore fails exactly then, a single-entry catalog included.
- **Softmax.** A softmax would be expected to be numerically stable. The code subtracts no maximum before
  exponentiating, so the model claims no such property; probabilities are inputs.
- **Empty retrieval.** No passages would be expected to give the empty-evidence defaults the code prepares. The code
  raises first (see Findings).

## Model

| member | source | states |
|---|---|---|
| DensePipeline.Project | TechniqueRAG/models/ctiPipeline.py:28-30 | The three catalog lists have one entry per record, and position i of ids, names and descriptions comes from record i. |
| DensePipeline.RunPipeline | TechniqueRAG/models/ctiPipeline.py:42-74 | Fails exactly when the catalog has fewer than TOP_K entries. Otherwise the response is the status and list built from the top-K candidates that clear the threshold. The list has at most TOP_K entries, and the status is no_match exactly when the list is empty. |
| DensePipeline.ScoresAsWritten | TechniqueRAG/models/ctiPipeline.py:49 | As written, the trailing `[0]` leaves a single score, the first entry's, in place of one score per catalog entry. |
| DensePipeline.AsWrittenTopKOutOfRange | TechniqueRAG/models/ctiPipeline.py:49-51 | For every catalog large enough for the intended vector, the as-written vector has fewer than TOP_K scores, so `torch.topk` is out of range. |
| DensePipeline.Kept | TechniqueRAG/models/ctiPipeline.py:55-58 | The kept indices are valid catalog indices, and there are no more of them than candidates. |
| DensePipeline.Present | TechniqueRAG/models/ctiPipeline.py:58-63 | The reported record reads id, name and description at the same catalog index, with the rounded score as confidence. |
| DensePipeline.Matches | TechniqueRAG/models/ctiPipeline.py:53-63 | At most one technique per candidate, and every reported id and description comes from the catalog. |
| DensePipeline.Respond | TechniqueRAG/models/ctiPipeline.py:65-74 | The list is returned unchanged, with status no_match exactly when it is empty and ok otherwise. |
| DensePipeline.KeptMembership | TechniqueRAG/models/ctiPipeline.py:55-58 | An index is reported iff it is a top-K candidate whose unrounded score is >= 0.55; a score of exactly 0.55 is kept. |
| DensePipeline.KeptIsSubsequence | TechniqueRAG/models/ctiPipeline.py:55-58 | The reported indices are the candidates in candidate order, with some left out. |
| DensePipeline.KeptNonIncreasing | TechniqueRAG/models/ctiPipeline.py:51-58 | When the candidates come in non-increasing score order, so do the reported ones. |
| DensePipeline.MatchesFollowKept | TechniqueRAG/models/ctiPipeline.py:55-63 | The i-th reported technique has id, name and description read at the i-th kept catalog index, and confidence round(score) for that index's score. |
| DensePipeline.RoundingOnlyAffectsConfidence | TechniqueRAG/models/ctiPipeline.py:56-61 | Two rounding functions give the same status, the same number of techniques, and the same techniques apart from confidence. |
| DensePipeline.KeptCount | TechniqueRAG/models/ctiPipeline.py:51-58 | For a valid top-K answer, the number reported is min(TOP_K, number of catalog entries clearing the threshold). |
| DensePipeline.ClearingWithinTop | TechniqueRAG/models/ctiPipeline.py:51-58 | Once one top-K candidate misses the threshold, every catalog entry that clears it is among the candidates. |
| DensePipeline.StrongestEntryReported | TechniqueRAG/models/ctiPipeline.py:51-58 | An entry scoring above all others and at least the threshold is always reported. |
| DensePipeline.QueryArgument | TechniqueRAG/models/ctiPipeline.py:79 | Without a command-line argument the query is the empty string; otherwise it is the first argument. |
| RerankPipeline.PairInputs | TechniqueRAG/techniquerag-backend/models/ctiPipeline.py:35 | One reranker input per passage, in retrieval order, each equal to text + " [SEP] " + passage. |
| RerankPipeline.PairInputsRecoverPassages | TechniqueRAG/techniquerag-backend/models/ctiPipeline.py:32-35 | Each reranker input starts with the query, and dropping query and separator gives back its passage. |
| RerankPipeline.RowMax | TechniqueRAG/techniquerag-backend/models/ctiPipeline.py:40 | The row maximum is an element of the row and no element exceeds it. |
| RerankPipeline.Confidences | TechniqueRAG/techniquerag-backend/models/ctiPipeline.py:40 | One confidence per probability row, equal to that row's largest probability. |
| RerankPipeline.ArgMax | TechniqueRAG/techniquerag-backend/models/ctiPipeline.py:41 | The result indexes a maximal element, and every earlier element is strictly smaller (first index on ties). |
| RerankPipeline.FirstMaxUnique | TechniqueRAG/techniquerag-backend/models/ctiPipeline.py:41 | There is only one first-maximum position, so the tie-break determines best_idx. |
| RerankPipeline.BestPassage | TechniqueRAG/techniquerag-backend/models/ctiPipeline.py:44 | With no passages the best passage is ""; otherwise it is one of the passages. |
| RerankPipeline.Prompt | TechniqueRAG/techniquerag-backend/models/ctiPipeline.py:46-50 | The generator prompt: the query, the evidence and the technique id under fixed headings, ending in a full stop. |
| RerankPipeline.PromptLayout | TechniqueRAG/techniquerag-backend/models/ctiPipeline.py:46-50 | The prompt has the query and the evidence at fixed offsets after the fixed headings, so it contains the evidence, and it ends with the technique id and a full stop. |
| RerankPipeline.PassageConfidences | TechniqueRAG/techniquerag-backend/models/ctiPipeline.py:32-40 | There is one confidence per retrieved passage. |
| RerankPipeline.RunPipeline | TechniqueRAG/techniquerag-backend/models/ctiPipeline.py:29-59 | Fails exactly when retrieval returns no passage. Otherwise the technique is T1059 "Command and Scripting Interpreter", the evidence is the full passage list in retrieval order, and the confidence is a passage confidence no other exceeds. |
| RerankPipeline.BestEvidenceExplained | TechniqueRAG/techniquerag-backend/models/ctiPipeline.py:41-55 | For the first-maximum passage b, the confidence is b's confidence. The explanation is the generator's answer (max_length 200, no sampling) to the prompt quoting passage b, and that prompt contains passage b. |
| RerankPipeline.SecondPassageWins | TechniqueRAG/techniquerag-backend/models/ctiPipeline.py:41-51 | With two passages where the second is more confident, the explanation comes from the prompt quoting the second. |
| RerankPipeline.QueryArgument | TechniqueRAG/techniquerag-backend/models/ctiPipeline.py:63 | Without a command-line argument the query is the built-in PowerShell example; otherwise it is the first argument. |
| RerankPipeline.EmptyRetrievalFails | TechniqueRAG/techniquerag-backend/models/ctiPipeline.py:41-44 | With no passages the pipeline as written fails, even though the best-passage default "" is ready. |
| RerankPipeline.RunPipelineTolerant | TechniqueRAG/techniquerag-backend/models/ctiPipeline.py:44-58 | Always answers T1059 with the full passage list as evidence. It has no confidence exactly when there is no evidence, and then the explanation is generated from the prompt with empty evidence. |
| RerankPipeline.TolerantAgreesWhenRetrieved | TechniqueRAG/techniquerag-backend/models/ctiPipeline.py:41-58 | Whenever at least one passage is retrieved, the guarded pipeline gives exactly the original pipeline's answer. |
| MockData.TruncateInput | TechniqueRAG/frontend/technique-lens-main/src/lib/mockData.ts:52 | Input of at most 200 characters is kept unchanged. Longer input becomes its first 200 characters followed by "...", 203 characters in all. |
| MockData.TruncateIdempotent | TechniqueRAG/frontend/technique-lens-main/src/lib/mockData.ts:52 | Truncating an already stored input changes nothing. |
| MockData.Rescale | TechniqueRAG/frontend/technique-lens-main/src/lib/mockData.ts:55 | A draw r becomes the confidence r * 0.3 + 0.7. |
| MockData.RescaleRange | TechniqueRAG/frontend/technique-lens-main/src/lib/mockData.ts:55 | A draw in [0, 1) gives a confidence r*0.3+0.7 in [0.7, 1.0). |
| MockData.Rescore | TechniqueRAG/frontend/technique-lens-main/src/lib/mockData.ts:53-56 | Same number and order of techniques. Every field but confidence is copied, and confidence i is the rescaled draw i. |
| MockData.GenerateMockAnalysis | TechniqueRAG/frontend/technique-lens-main/src/lib/mockData.ts:48-59 | The result has: the id "analysis-" followed by the clock reading, the ISO timestamp, the truncated input, and the mock techniques re-scored. The summary counts the mock techniques. |
| MockData.GeneratedAnalysisBounds | TechniqueRAG/frontend/technique-lens-main/src/lib/mockData.ts:52-57 | With draws in [0, 1), all confidences lie in [0.7, 1.0) and the stored input has at most 203 characters. The summary reads "Detected 3 MITRE ATT&CK techniques across ...". |
| Auth.IsGuest | TechniqueRAG/frontend/technique-lens-main/src/lib/auth.ts:17-19 | A guest is a session with no non-empty text under the auth key. |
| Auth.IsGuestIffNoUser | TechniqueRAG/frontend/technique-lens-main/src/lib/auth.ts:17-19 | A session is a guest session exactly when nothing, or empty text, is stored under the auth key; a stored user means not a guest. |
| Auth.GetCurrentUser | TechniqueRAG/frontend/technique-lens-main/src/lib/auth.ts:21-30 | Returns null exactly when nothing is stored under the auth key or the stored text is not a user; otherwise it returns the stored user, and the session is not a guest session. |
| Auth.NameFromEmail | TechniqueRAG/frontend/technique-lens-main/src/lib/auth.ts:39 | The name is the prefix of the email before the first '@' (the whole email when there is none) and contains no '@'. |
| Auth.SignIn | TechniqueRAG/frontend/technique-lens-main/src/lib/auth.ts:32-49 | Stores and returns a user named after the email's local part, individual and free. Only the auth key changes, and afterwards the user is current and the session is not a guest session. |
| Auth.SignUp | TechniqueRAG/frontend/technique-lens-main/src/lib/auth.ts:51-68 | Like sign-in, but the user's name is the given name, verbatim. |
| Auth.SignOut | TechniqueRAG/frontend/technique-lens-main/src/lib/auth.ts:70-73 | Removes only the auth key and empties session storage. Afterwards there is no current user and the session is a guest session. |
| Auth.ContinueAsGuest | TechniqueRAG/frontend/technique-lens-main/src/lib/auth.ts:75-77 | Sets only the session key to "guest"; local storage, and so the user, is not touched. |
| Auth.Merge | TechniqueRAG/frontend/technique-lens-main/src/lib/auth.ts:83 | `{...user, ...updates}`: each supplied field overrides the user's. |
| Auth.MergeFields | TechniqueRAG/frontend/technique-lens-main/src/lib/auth.ts:83 | For each of the seven fields (id, email, name, organization, account type, plan, last login), a value the update supplies replaces the user's, and an omitted one is kept. |
| Auth.MergeNeutralAndIdempotent | TechniqueRAG/frontend/technique-lens-main/src/lib/auth.ts:83 | An empty update keeps the user, and applying the same update twice equals applying it once. |
| Auth.MergeSequential | TechniqueRAG/frontend/technique-lens-main/src/lib/auth.ts:83 | Two successive updates equal one combined update in which the later fields win. |
| Auth.UpdateUser | TechniqueRAG/frontend/technique-lens-main/src/lib/auth.ts:79-86 | With no current user, returns null and changes nothing. Otherwise it stores and returns the merged user, and the merged user becomes current. |
| History.GuestHistory | TechniqueRAG/frontend/technique-lens-main/src/pages/History.tsx:38-46 | A stored list is shown as it is, a guest sees a non-empty list only when that list is stored, and absent, empty or unparsable text loads as the empty list. |
| History.FetchedHistory | TechniqueRAG/frontend/technique-lens-main/src/pages/History.tsx:47-59 | A signed-in user sees the backend's list, or the empty list when fetching or decoding failed. |
| History.Select | TechniqueRAG/frontend/technique-lens-main/src/pages/History.tsx:68-76 | The filter returns no more analyses than the history holds, each of them from the history and matching the query. |
| History.Filtered | TechniqueRAG/frontend/technique-lens-main/src/pages/History.tsx:62-79 | What the search shows is never longer than the history and holds only analyses from it. |
| History.WithoutId | TechniqueRAG/frontend/technique-lens-main/src/pages/History.tsx:82 | What is left after a delete is never longer than the history, holds only its analyses, and none of them carries the deleted id. |
| History.SelectCount | TechniqueRAG/frontend/technique-lens-main/src/pages/History.tsx:68-76 | The filter keeps every copy of a matching analysis and no copy of any other: counts agree as multisets. |
| History.FilteredCount | TechniqueRAG/frontend/technique-lens-main/src/pages/History.tsx:62-79 | For a non-blank query, each matching analysis is shown as many times as the history holds it, and any other not at all. |
| History.WithoutIdCount | TechniqueRAG/frontend/technique-lens-main/src/pages/History.tsx:82 | Deleting an id drops every copy of the analyses with that id and keeps every copy of all others. |
| History.BlankQueryShowsAll | TechniqueRAG/frontend/technique-lens-main/src/pages/History.tsx:64-65 | A blank or white-space-only query (one that trims to nothing) shows the whole history unchanged. |
| History.FilteredMembership | TechniqueRAG/frontend/technique-lens-main/src/pages/History.tsx:62-79 | For a non-blank query, an analysis is shown iff the lower-cased, untrimmed query occurs in its lower-cased input text or in the lower-cased id or name of one of its techniques. |
| History.SelectMembership | TechniqueRAG/frontend/technique-lens-main/src/pages/History.tsx:67-76 | The filter keeps exactly the analyses that match the search predicate. |
| History.FilteredIsSubsequence | TechniqueRAG/frontend/technique-lens-main/src/pages/History.tsx:62-79 | What the search shows is an order-preserving subsequence of the history. |
| History.SelectIsSubsequence | TechniqueRAG/frontend/technique-lens-main/src/pages/History.tsx:68-76 | The filter keeps the analyses in their original order. |
| History.WithoutIdMembership | TechniqueRAG/frontend/technique-lens-main/src/pages/History.tsx:82 | Deleting an id removes every analysis with that id and keeps every other one. |
| History.WithoutIdIsSubsequence | TechniqueRAG/frontend/technique-lens-main/src/pages/History.tsx:82 | The analyses left after a delete are in their original order. |
| History.WithoutAbsentId | TechniqueRAG/frontend/technique-lens-main/src/pages/History.tsx:82 | Deleting an id that no analysis carries leaves the history unchanged. |
| History.HistoryPage.constructor | TechniqueRAG/frontend/technique-lens-main/src/pages/History.tsx:31-60 | The page reads guest status once. It loads the guest list from session storage, or the fetched list for a signed-in user, starts with an empty search, and the filtered view is consistent. |
| History.HistoryPage.SetSearchQuery | TechniqueRAG/frontend/technique-lens-main/src/pages/History.tsx:62-79 | After typing, the filtered view is the filter of the unchanged history by the new query. |
| History.HistoryPage.Delete | TechniqueRAG/frontend/technique-lens-main/src/pages/History.tsx:81-89 | The history becomes the old history without that id. A guest's session copy is overwritten with the new list, a signed-in user's storage is untouched, and the view is refreshed. |
| History.HistoryPage.ClearHistory | TechniqueRAG/frontend/technique-lens-main/src/pages/History.tsx:97-101 | The history and its view become empty; a guest's stored list is removed and nothing else in storage changes. |
| Dashboard.ParseGuestHistory | TechniqueRAG/frontend/technique-lens-main/src/pages/Dashboard.tsx:66 | Absent or empty text reads as the empty list and a stored analysis list as itself; any other stored value is unusable and the handler throws. |
| Dashboard.PrependCapped | TechniqueRAG/frontend/technique-lens-main/src/pages/Dashboard.tsx:66-68 | The new analysis comes first, the list holds between 1 and 50 entries, and entry i after it is old entry i-1. |
| Dashboard.PrependCappedShape | TechniqueRAG/frontend/technique-lens-main/src/pages/Dashboard.tsx:66-68 | After a guest analysis the stored list has length min(old+1, 50). The new analysis is at index 0, and the rest is the first min(old, 49) old entries in order. |
| Dashboard.PrependCappedBounded | TechniqueRAG/frontend/technique-lens-main/src/pages/Dashboard.tsx:66-68 | The stored list never exceeds 50 entries, and below the cap it grows by exactly one. |
| Dashboard.AcceptsFileName | TechniqueRAG/frontend/technique-lens-main/src/pages/Dashboard.tsx:110 | A name is accepted when it ends in ".txt" or ".json". |
| Dashboard.AcceptsEitherExtension | TechniqueRAG/frontend/technique-lens-main/src/pages/Dashboard.tsx:110 | Every name ending in ".txt" or ".json" is accepted. |
| Dashboard.AcceptedNameHasExtension | TechniqueRAG/frontend/technique-lens-main/src/pages/Dashboard.tsx:110 | Every accepted name is a stem followed by ".txt" or ".json". |
| Dashboard.AcceptsFileNameExamples | TechniqueRAG/frontend/technique-lens-main/src/pages/Dashboard.tsx:110 | The check is case-sensitive and looks only at the end of the name: "report.TXT", "report.txt.pdf" and "txt" are rejected. |
| Dashboard.DashboardPage.constructor | TechniqueRAG/frontend/technique-lens-main/src/pages/Dashboard.tsx:31-35 | Guest status is read once, the input is empty, nothing is being analysed, and there is no result. |
| Dashboard.DashboardPage.Analyze | TechniqueRAG/frontend/technique-lens-main/src/pages/Dashboard.tsx:47-94 | Blank input changes nothing, neither the result nor storage. Otherwise the result is the generated analysis of the input. For a guest, the stored list becomes the parsed old list with the analysis prepended and capped at 50; an unparsable stored list leaves storage unchanged with analysis still flagged. A signed-in user's storage is untouched. |
| Dashboard.DashboardPage.Clear | TechniqueRAG/frontend/technique-lens-main/src/pages/Dashboard.tsx:96-99 | Sets the input to "" and the result to none. |
| Dashboard.DashboardPage.LoadSample | TechniqueRAG/frontend/technique-lens-main/src/pages/Dashboard.tsx:101-103 | Sets the input to the sample CTI text and changes nothing else. |
| Dashboard.DashboardPage.UploadFile | TechniqueRAG/frontend/technique-lens-main/src/pages/Dashboard.tsx:105-129 | A file is accepted iff one was picked and its name ends in ".txt" or ".json". An accepted file's text becomes the input; otherwise the input is unchanged. |
| Strings.TrimEmptyIffBlank | TechniqueRAG/frontend/technique-lens-main/src/pages/History.tsx:64 | `trim()` gives the empty string exactly when every character is white space, which is the blank test both pages use. |

## Left out

- Model loading and inference are function-typed parameters: the sentence embedder, cosine similarity, `torch.topk`, the retriever, the reranker and the generator.
  - The float arithmetic of cosine similarity and softmax is not modelled. Scores and probabilities are `real` inputs, and the model claims nothing about the normalization.
  - `round(score, 4)` is an opaque presentation function.
- `DensePipeline.IsTopK` is what the model assumes of `torch.topk`. That every score vector has an answer satisfying it is not proved.
- Loading the catalog file, `sys.argv` handling beyond choosing the query, printing JSON to standard output, and the Express/Node layers are process I/O outside the core.
- JSON text is not parsed. A stored value is the record its text encodes (`Auth.Stored`), and `Plain` stands for any other text.
  - Text that parses to a value of the wrong kind is treated as no user (`Auth.GetCurrentUser`), no history (`History.GuestHistory`), or an unusable history (`Dashboard.ParseGuestHistory`, `Dashboard.DashboardPage.Analyze`).
  - In the source, such a value would flow on untyped. A stored JSON array of values that are not analyses (for example `[1]`) would be prepended to and stored again; the model treats it as unusable, so Analyze leaves storage unchanged there.
- Timers and promises are collapsed into a single step: the 800 ms sign-in and sign-up delays, and the two-second analyze delay.
- The clock, ISO timestamps and `Math.random()` draws are parameters.
- Network calls are left out:
  - the signed-in history POST is left out;
  - the fetched history is a parameter;
  - navigation, toasts, rendering and export are left out.
- `FileReader` is left out; an upload carries its text with it.
- Strings are sequences of characters. `toLowerCase` is modelled for ASCII letters only, and lengths count characters, not UTF-16 code units.
- Auth.UpdateUser: an update that sets a field explicitly to `undefined` is not modelled; a field is either supplied or omitted.
- DensePipeline.RunPipeline: assumes one similarity score per catalog entry, the evidently intended vector. models/ctiPipeline.py:49 as written applies `[0]` to the already one-dimensional scores, which leaves a single score (see Findings, `DensePipeline.ScoresAsWritten`).
- The retriever is always asked for 5 passages, `RerankPipeline.RETRIEVAL_DEPTH`; how many it returns is up to the oracle.

## Findings

| source | as written | input that shows it | evidently intended | confidence | as-written member | corrected member |
|---|---|---|---|---|---|---|
| TechniqueRAG/techniquerag-backend/models/ctiPipeline.py:41-44 | `np.argmax(confidences)` runs before the `if passages else ""` guard. With no passages it raises, so the guard's empty-evidence branch can never be reached. | any query for which the retriever returns no passages | answer with empty evidence and no confidence, generating the explanation from the prompt with empty evidence | not executed | RerankPipeline.EmptyRetrievalFails | RerankPipeline.RunPipelineTolerant |
| TechniqueRAG/models/ctiPipeline.py:49 | `cosine_similarity(query_emb, tech_embeddings)[0]` takes entry 0 of the one-dimensional vector of per-entry scores, leaving one score, so `torch.topk(sims, k=3)` is out of range. | any query, with any catalog | `sims` is the whole score vector, one score per catalog entry | not executed; depends on `torch.nn.functional.cosine_similarity` broadcasting the 1-D query against the N x D matrix to N scores | DensePipeline.ScoresAsWritten | DensePipeline.RunPipeline |
