# Pipe, video-search and LCA calculators: a verified model of their core logic

This project models the sequential logic of three small Streamlit tools and proves
properties of that model in Dafny.

- **Pipe major-loss calculator** (`pipe_flow.dfy`, module `PipeFlow`), from `pipe.py`:
  - the roughness table and the physical constants;
  - the Colebrook–White friction-factor loop `colebrook_white`, which returns 64/Re in
    the laminar regime and otherwise runs at most 50 fixed-point substitutions from 0.02;
  - the outer loop `solve_velocity_from_head_loss`, which makes at most 100 passes;
  - the "Calculate" decision table. From whichever of Q, V and h_f the user supplied, it
    derives V, Q, Re, f and h_f, and Python truthiness makes a zero count as absent.

  The numbers are reals. `math.sqrt` and `math.log10` arrive as a `MathLib` record of
  function values, and `IsSqrt` states that the square root is exact. Every exception the
  block can raise is an absent result: division by zero, `sqrt` of a negative, `log10` of
  a non-positive. The source catches all of them in one catch-all.
- **Video filter and ranking pipeline** (`video_search.dfy`, module `VideoSearch`), from
  `CHE27.py`:
  - the first `3 * max_results` search results are scanned;
  - a video whose metadata access raises is skipped;
  - the inclusive duration window is checked in seconds;
  - the language comes from keyword substrings (Arabic, then English, then Hindi);
  - Egyptian universities are detected;
  - the score runs from 0 to 5;
  - the duration is shown as `m:ss`;
  - the stable sort by descending score runs, then the list is cut to `max_results`.

  Each fetched video is an input record of type `Fetch`.
- **LCA impact calculator** (`lca.dfy`, module `Lca`; `lca_csv.dfy`, module `LcaCsv`), from
  `app.py`, `app2.py`, `app3.py` and `app4.py`. The four pages share one core, modelled once:
  - the factor tables;
  - the four impact sums, each material factor × amount + energy factor × amount;
  - the score bands `min(int(x)+1, 10)`;
  - the four-row results table;
  - the subscript sanitiser of `app3.py`;
  - the `create_csv` writer of `app3.py` and `app4.py`. It is a class holding the rows
    written so far.

`wrappers.dfy` holds the `Option` type.

## Model

| member | source | states |
|---|---|---|
| PipeFlow.Roughness | pipe.py:5-11 | every material the picker offers is a key of the roughness table, and its roughness lies in (0, 0.003] |
| PipeFlow.PipeTypesWellFormed | pipe.py:5-11 | the picker (pipe.py line 41) offers exactly the keys of the roughness table, and every roughness lies in (0, 0.003] |
| PipeFlow.FrictionStep | pipe.py:22 | one Colebrook–White substitution succeeds only when D ≠ 0 and f ≥ 0, since otherwise `epsilon / (3.7 * D)` or `sqrt(f)` raises. When it succeeds it gives a positive friction factor |
| PipeFlow.ColebrookWhite | pipe.py:16-25 | for Re < 2000 the result is exactly 64/Re, with no iteration; Re = 0 raises. Otherwise the result is the fixed-point loop from 0.02 (FrictionFactor), and when it succeeds it is positive |
| PipeFlow.TurbulentStops | pipe.py:19-25 | the turbulent loop stops after k substitutions, with 1 ≤ k ≤ the passes left. The result is the k-th iterate, no earlier substitution moved f by less than 1e-6, and the loop stops before the cap only at a substitution that did |
| PipeFlow.TurbulentFrictionCapped | pipe.py:19-25 | the turbulent friction factor is the k-th substitution from 0.02 for some k in 1..50. It is the first substitution that settled, or the 50th |
| PipeFlow.VelocityPass | pipe.py:30-32 | one pass succeeds only when f·L ≠ 0 and the square-root argument is non-negative. Then V = sqrt(2 g h_f D / (f L)), Re = ρVD/μ, and f_new is colebrook_white(Re) |
| PipeFlow.SolveVelocityFromHeadLoss | pipe.py:27-36 | the loop makes at most 100 passes, then returns (V, f, Re) as HeadLossSolve specifies, or None where a pass raises |
| PipeFlow.VelocityExit | pipe.py:29-36 | the loop's last pass is pass k ≤ the cap, run with friction factor f_used. The returned V and Re are that pass's. If the pass settled, the returned f is f_used; otherwise the cap is exhausted and the returned f is f_new |
| PipeFlow.ReturnedFrictionMatchesRe | pipe.py:29-36 | colebrook_white of the returned Re is within 1e-6 of the returned f. The last pass is pass k ≤ 100, run with f_used and giving f_new; when that pass did not settle, k = 100 and the returned f equals colebrook_white of the returned Re |
| PipeFlow.HeadLossPairing | pipe.py:30-36 | for an exact square root, the returned V satisfies f_used·L·V² = 2 g h_f D. `settled` is the loop's exit test, colebrook_white of the returned Re lies within 1e-6 of f_used. When it held, f_used is the returned f. When the loop ran out of passes instead, the returned f differs from f_used, is colebrook_white of the returned Re, and satisfies the equation only if L·V² = 0 |
| PipeFlow.PairingFrom | pipe.py:29-36 | HeadLossPairing from any friction factor with any number of passes left |
| PipeFlow.DarcyWeisbachInverse | pipe.py:30 | a V whose square is 2 g h_f D / (f L) satisfies f L V² = 2 g h_f D |
| PipeFlow.Area | pipe.py:58 | A is present exactly when D ≠ 0 |
| PipeFlow.FlowContinuity | pipe.py:63-66 | Q / A · A = Q for A ≠ 0 |
| PipeFlow.Calculate | pipe.py:58-71 | the head-loss path runs exactly when V is absent and h_f, L and D are non-zero. It sets V, Re and f from the solver and leaves Q and h_f as given. Otherwise the direct path runs. A supplied Q, V or h_f is never overwritten. Displaying the result raises (Re and f unbound) exactly when V was given non-zero with D = 0 |
| PipeFlow.DirectPath | pipe.py:63-71 | V := Q/A exactly when V is absent and Q and A are non-zero, and then V·A = Q. Q := V·A exactly when Q is absent and V and A are non-zero. Re = ρVD/μ and f = colebrook_white(Re) exactly when V and D are non-zero. h_f := f (L/D) V²/(2g) exactly when h_f is absent and V, L and D are non-zero. The path raises only inside colebrook_white, and supplied values are never overwritten |
| VideoSearch.Lower | CHE27.py:45-46 | lower-casing keeps the length and maps each character through the A–Z lower-casing |
| VideoSearch.ContainsOccurs | CHE27.py:49 | `word in text` holds exactly when the word occurs at some position of the text |
| VideoSearch.MentionsAnyOccurs | CHE27.py:49-56 | `any(word in text for word in words)` holds exactly when some listed word occurs in the text |
| VideoSearch.ClassifyPrecedence | CHE27.py:48-54 | `Classify`, the model of the if/elif chain: the language is Arabic iff an Arabic keyword occurs. It is English iff no Arabic keyword occurs and an English one does, and Hindi iff neither an Arabic nor an English keyword occurs and a Hindi one does |
| VideoSearch.ArabicTakesPrecedence | CHE27.py:49-52 | a text holding both an Arabic and an English keyword is classified Arabic |
| VideoSearch.ScoreBounds | CHE27.py:56-67 | the score lies in 0..5. It is 5 exactly for an Arabic video naming a listed university, and 0 exactly for an unclassified video naming none. The university flag is set exactly when a university keyword occurs |
| VideoSearch.AssessVideo | CHE27.py:45-77 | the if-chain and the `+=` accumulation build the entry Assess specifies: language, university flag, score and `m:ss` duration |
| VideoSearch.DecimalValue | CHE27.py:72 | the numeral of n is a non-empty run of digits whose value is n |
| VideoSearch.IndexOfColon | CHE27.py:72 | the position found holds the first ':' of the string, or is its length when there is none |
| VideoSearch.DurationRoundTrip | CHE27.py:72 | `FormatDuration`, the model of the `m:ss` f-string: the duration string reads back as minutes and seconds with minutes·60 + seconds = duration. The seconds are below 60 and written with exactly two digits |
| VideoSearch.AdmittedConcat | CHE27.py:33-80 | scanning two runs of results one after the other admits what each admits on its own |
| VideoSearch.SkipRaised | CHE27.py:38-80 | a result whose metadata access raises is skipped. The videos kept before it and after it are exactly those kept without it |
| VideoSearch.AdmittedExactly | CHE27.py:38-43 | a video is admitted exactly when it was fetched without raising at some scanned position and min·60 ≤ length ≤ max·60 |
| VideoSearch.KeptFromWindow | CHE27.py:42-77 | every kept entry is the assessment of a fetched video, in the window, at a scanned position |
| VideoSearch.WindowKept | CHE27.py:42-77 | every fetched video in the window is kept |
| VideoSearch.SortedIsDescending | CHE27.py:82 | `SortedByScore`, the model of `sort(key=score, reverse=True)`: the sorted list is in non-increasing order of score, with scores in 0..5 |
| VideoSearch.SortedIsPermutation | CHE27.py:82 | sorting only reorders: the same entries, each as often |
| VideoSearch.SortedIsStable | CHE27.py:82 | for each score, the entries with that score keep their search order |
| VideoSearch.SortedIsUnique | CHE27.py:82 | a list that is descending by score and keeps each score's entries in search order is the sorted list, so the sort is determined by stability |
| VideoSearch.Search | CHE27.py:33-89 | the loop examines at most 3·max_results results, skips the ones that raise or fall outside the window, and appends the assessment of the rest. It then sorts them and keeps the first max_results (SearchResult) |
| VideoSearch.ResultShape | CHE27.py:82-89 | at most max_results videos are reported, in non-increasing order of score, each scored in 0..5 |
| VideoSearch.ResultsFromExamined | CHE27.py:33-89 | every reported video was fetched among the first 3·max_results results and lies in the duration window |
| VideoSearch.ReportedAreBest | CHE27.py:82-89 | the first max_results sorted videos are reported, and a kept video that is not reported scores no higher than any reported one |
| VideoSearch.KeptScoresInRange | CHE27.py:56-67 | every kept entry scores in 0..5 |
| Lca.TablesWellFormed | app.py:7-17 | the pickers offer exactly the keys of the two factor tables, so every lookup succeeds, and every factor is non-negative. The same tables stand at app2.py lines 6-16 (pickers at lines 63 and 66), app3.py lines 9-19 and app4.py lines 7-17 |
| Lca.ContributionMonotone | app.py:46-49 | a non-negative factor times an amount is non-negative, non-decreasing in the amount, and 0 for amount 0 |
| Lca.ImpactsMonotone | app.py:45-49 | about `CalculateImpact`, the model of `calculate_impact`'s four sums: with non-negative amounts every impact is non-negative, and no impact decreases when either amount grows. The same sums stand at app2.py lines 72-75, app3.py lines 87-90 and app4.py lines 51-54 |
| Lca.ZeroAmountsZeroImpacts | app.py:46-49 | `CalculateImpact` of zero amounts gives every impact 0: zero amounts give every impact 0, in all four pages |
| Lca.Trunc | app.py:56 | `int(x)` truncates toward zero: t ≤ x < t+1 for x ≥ 0, and t−1 < x ≤ t for x < 0 |
| Lca.BandRange | app.py:56 | `Band`, the model of `min(int(x)+1, 10)`, is at most 10, and at least 1 exactly when x > −1. For x ≥ 0 it is 10 exactly when x ≥ 9, and a score k below 10 means k−1 ≤ x < k |
| Lca.BandMonotone | app.py:56 | `Band` does not decrease as x grows |
| Lca.ScoresMonotone | app.py:35-56 | about `ScoreImpacts`, the four bands (CO₂ and water per 2, energy per 50, acidification times 100): with non-negative amounts every score lies in 1..10, and no score decreases when either amount grows. The same bands and `min_value=0.0` inputs stand at app2.py lines 64-81, app3.py lines 80-96 and app4.py lines 44-60 |
| Lca.ZeroAmountsLowestScores | app.py:46-56 | zero amounts give every score 1, in all four pages |
| Lca.ResultTableShape | app.py:53-56 | `ResultTable`, the model of the results DataFrame, has exactly the four metrics, in the order CO₂, water, energy, acidification. Each row carries its own impact, and each score lies in 1..10 for non-negative amounts. The same table stands at app2.py lines 78-81, app3.py lines 93-96 and app4.py lines 57-60 |
| Lca.Replace | app3.py:54 | `str.replace` of one character keeps the length, replaces every occurrence and leaves every other character in place |
| Lca.SanitizeSpec | app3.py:54 | `Sanitize`, the model of the chained `.replace` calls, keeps the length and changes only "₂" into "2" and "₃" into "3". The result holds neither subscript, and sanitising it again changes nothing |
| Lca.SanitizePlain | app3.py:54 | a name without subscript digits is left as it is |
| LcaCsv.CsvWriter.constructor | app3.py:64-65 | a new writer has written nothing |
| LcaCsv.CsvWriter.WriteRow | app3.py:66-68 | writing a row appends exactly that row to the buffer |
| LcaCsv.CreateCsv | app3.py:63-69 | the rows written are the header followed by one row per results row, in order (CsvRows). The same `create_csv` stands at app4.py lines 27-33 |
| LcaCsv.CsvRowsShape | app3.py:66-68 | the export has one row more than the results: the header ["Metric", "Value", "Score"] first, then row i+1 holding exactly the metric, value and score of results row i. The same rows are written at app4.py lines 30-32 |
| LcaCsv.TableExport | app3.py:66-96 | exporting the results table gives five rows: the header, then the four metrics in their fixed order. The same holds at app4.py lines 30-32 and 57-60 |

## Left out

- Floating point: every quantity is an exact real. Rounding, overflow to infinity and NaN are not modelled.
- `math.sqrt` and `math.log10` are function values passed in as a `MathLib`. Only the exactness of the square root (`IsSqrt`) is assumed, and only by the pairing lemmas. Nothing about convergence or accuracy of the Colebrook–White iteration is claimed.
- The iteration caps (50 and 100 passes) are the source's own loop bounds, so the recursive specifications carry them as their decreasing counters. Nothing beyond the caps is lost.
- Errors have no kinds: pipe.py only catches every exception at once (pipe.py:80-81), so a raising calculation is `None` or `Raised`.
- Q on the head-loss path: as in the code (pipe.py:60-61), `PipeFlow.Calculate` leaves Q as supplied there. It is not derived from V·A.
- The Streamlit UI: widgets, messages, progress bar, images, links and downloads in every file. Parsing of the text inputs into floats (pipe.py:52-54) is taken as already done: the model receives `Option<real>`.
- The `:.2f`, `:.4f`, `:.5f` and `:.6f` formatting of numbers. A results value is a `Measure` holding the amount and its unit.
- The pytube `Search` and `YouTube` network calls (CHE27.py:30, 39): each search result arrives as a `Fetch`, and a failure while reading metadata is `FetchRaised`. A failure of the search itself (CHE27.py:30) is not modelled.
- A video length that is not an integer: `VideoMeta.length` is an `int`.
- `VideoSearch.Lower`: lower-cases only the letters A–Z, one character for one. Python's `str.lower` also folds the capitals of other cased scripts, and does not always keep the length: 'İ' (U+0130) becomes "i̇", two code points. So a title "HINDİ" is Hindi in the source and Other in the model. Arabic and Devanagari, the scripts of the non-Latin keywords, have no case.
- `VideoSearch.Search`: the title and description are joined without a separator, as in the source, so a keyword can match across the join. Its preconditions are the ranges of the three sliders (CHE27.py:19-21). The in-place `list.sort` is modelled as reassigning the sorted list.
- The PDF report (FPDF layout and latin1 encoding), and the csv module's quoting and UTF-8 encoding: a CSV row is a sequence of `Field`s, not text.
