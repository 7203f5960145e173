# Patent report pipelines: a Dafny model

This project models the report-generation core of the `multiagent` repository. The core has three parts.

- **The linear patent pipeline** (`src/patent_pipeline`). It runs a fixed sequence of LangGraph nodes over one state dict:
  - PDF ingestion from Azure Blob Storage;
  - Stage 1 record extraction;
  - tech-pack routing;
  - the Stage 2A/2B/2C analyses and their merge;
  - the Stage 3 report and Stage 4 QC;
  - the search-intelligence report;
  - saving the reports back to blob storage.

  Each stage node is skipped once the status is "failed". Each records its own failure with a stage prefix. The Gemini client behind the stages retries each call up to three times and recovers JSON or markdown from fenced model replies.
- **The agent workflow** (`src/workflows/patent_workflow.py` with the agents in `src/agents`). The nodes are ingest, extract, analyze, write, QC, and then a supervisor-driven loop. The loop runs up to two revisions and one clarification, then finalizes.
  - The QC agent grades the report, scores it from 0 to 10 and derives pass, revise and clarify flags from the score.
  - A deterministic supervisor table chooses the next action.
- **The content pipeline** (`src/workflows/content_pipeline.py`). It runs research, write and review. It then revises and reviews again until a review scores 8 or the iteration cap is reached, and finalizes. As the repository stands, this pipeline cannot get past its write node (see "## Left out"). The model describes it for a writer that returns a `content` field, which is what the node reads.

How the model is built:

- Pure code is modelled as datatypes and functions. State the source updates step by step is modelled as classes: the two workflow objects, their driver loops, and the QC and review scans.
- Everything the code does not decide itself is a parameter of an environment datatype: the language models' replies, `json.loads`, blob storage, `urlparse`, tech-pack files, `str()` of a JSON value, and the random report id. Each can fail with the text of the exception it raises.
- Python's behaviour is written out where the code depends on it:
  - `str.find` with negative starts, slicing with clamped indices, `strip`;
  - truthiness and `dict.get`;
  - the texts of `KeyError`, `AttributeError` and `TypeError`.

The main results:

- In the linear pipeline, a failure is sticky: the first failing node's error is the final error, and every run ends "completed" or "failed".
- The model runs the two parallel branches (Stages 3 and 4, and search intelligence) in sequence. The search-intelligence branch commutes with Stages 3 and 4, so the two sequential orders give the same state. LangGraph's own superstep scheduling is not modelled (see "## Left out").
- The fence parsers round-trip fenced payloads.
- In the agent workflow, QC runs at most 1 + 2 + 1 = 4 times. The counters stay within their caps. A run that raises nothing ends "finalized" and "completed", even after a failure.
- In the content pipeline, with a writer that returns `content`, there are at most `max(1, max_iterations)` reviews. A run of k reviews executes 2k+2 nodes. LangGraph's default limit of 25 supersteps therefore stops any run that would need a twelfth review with a recursion error, so a run that completes made at most 11 reviews. The parsed review score is the highest marked score from 1 to 10, or 7.

## Model

| member | source | states |
|---|---|---|
| Pdfs.PdfParts | src/patent_pipeline/services/gemini_client.py:148-158 | The history PDF always comes first, and the patent is second exactly when its bytes are present and non-empty. |
| GeminiClient.Retry | src/patent_pipeline/services/gemini_client.py:129-132 | The result is the first of the three attempts that does not raise. The call fails exactly when all three attempts raise. |
| GeminiClient.ParseRecord | src/patent_pipeline/services/gemini_client.py:108-127 | It succeeds exactly when the fenced text decodes to a JSON object, and the result is that object. A decoded non-object fails on `.keys()`. |
| GeminiClient.JsonAttempt | src/patent_pipeline/services/gemini_client.py:158-162 | A successful attempt is a reply whose fenced text decodes to the returned object. |
| GeminiClient.CallJsonStage | src/patent_pipeline/services/gemini_client.py:129-162 | The record is some attempt's parsed reply, with all earlier attempts failed. It fails only when every attempt fails. |
| GeminiClient.MarkdownAttempt | src/patent_pipeline/services/gemini_client.py:340-354 | A successful attempt is the reply passed through the markdown cleaner. |
| GeminiClient.CallMarkdownStage | src/patent_pipeline/services/gemini_client.py:305-354 | The result is stripped and is some attempt's cleaned reply. It fails exactly when every reply raises. |
| GeminiClient.Stage4Attempt | src/patent_pipeline/services/gemini_client.py:413-435 | On success the QC block decodes to the returned object, the report is the split's second part, and the logged `qc_issues` value has a length. |
| GeminiClient.CallStage4 | src/patent_pipeline/services/gemini_client.py:356-435 | The result is some attempt's QC object and corrected report. It fails only when all three attempts fail. |
| Fences.ExtractJsonText | src/patent_pipeline/services/gemini_client.py:116-127 | An unfenced reply is decoded whole. A fenced reply yields a stripped text no longer than the reply. |
| Fences.JsonFenceRoundTrip | src/patent_pipeline/services/gemini_client.py:117-120 | A payload in a ```json fence after backtick-free prose comes back stripped. |
| Fences.PlainFenceRoundTrip | src/patent_pipeline/services/gemini_client.py:121-124 | A payload in a plain fence comes back stripped when the reply has no ```json fence. |
| Fences.FencedLayout | src/patent_pipeline/services/gemini_client.py:116-124 | In prose, an opening fence, a backtick-free payload and a closing fence, the opening fence is found first, the closing fence next, and between them lies the payload. |
| Fences.UnclosedLayout | src/patent_pipeline/services/gemini_client.py:116-124 | When the opening fence is never closed, no closing fence is found after it. |
| Fences.UnclosedJsonFence | src/patent_pipeline/services/gemini_client.py:117-120 | An unclosed ```json fence yields everything after it except the reply's last character, because `find` returns -1. |
| Fences.CleanMarkdown | src/agents/writer.py:47-56 | The cleaned reply is stripped and never longer than the reply. |
| Fences.MarkdownFenceRoundTrip | src/agents/writer.py:47-56 | A stripped body in a ```markdown fence on lines of its own comes back unchanged. |
| Fences.PlainMarkdownRoundTrip | src/agents/writer.py:47-56 | A stripped body in a bare ``` fence comes back unchanged. |
| Fences.UnfencedMarkdown | src/patent_pipeline/services/gemini_client.py:342-354 | A reply with no fence at either end is only stripped. |
| Fences.SplitStage4 | src/patent_pipeline/services/gemini_client.py:413-427 | Both the QC text and the corrected report come back stripped. |
| Fences.Stage4QcFound | src/patent_pipeline/services/gemini_client.py:413-416 | In a reply laid out as the Stage 4 prompt asks, the QC search cuts out exactly the JSON of the QC part's ```json fence. |
| Fences.Stage4ReportFound | src/patent_pipeline/services/gemini_client.py:419-427 | In the same layout, the report search cuts out exactly the body of the ```markdown fence, up to the reply's last fence. |
| Fences.Stage4RoundTrip | src/patent_pipeline/services/gemini_client.py:413-427 | A reply in the Stage 4 layout splits into the stripped QC JSON and the stripped report, whatever the report contains. The layout asks that the text before the report marker has no "F", the text before the QC marker has no "Q", and the JSON and the prose before each opening fence have no backtick. |
| Fences.QcJsonText | src/agents/qc.py:94-104 | The QC agent decodes a block exactly when the reply has a ```json fence, and the block is stripped. |
| Fences.QcJsonTextRoundTrip | src/agents/qc.py:96-101 | A payload in a ```json fence after backtick-free prose comes back stripped. |
| Fences.QcCorrectedReport | src/agents/qc.py:106-122 | The recovered report is stripped. It is empty when the reply has neither the final-report marker nor a ```markdown fence. |
| TechPacks.PackFileFor | src/patent_pipeline/services/gemini_client.py:516-531 | A known code selects its file, and every other hashable code selects the software pack. A list or dict raises "unhashable type". |
| TechPacks.LoadTechPack | src/patent_pipeline/services/gemini_client.py:503-537 | It returns the selected file's text. A missing file is `FileNotFoundError`, and any other failure is passed on with its text. |
| AzureIo.PathParts | src/patent_pipeline/services/azure_io.py:157-163 | The path without leading slashes splits at its first "/". There is no split exactly when it has no "/". |
| AzureIo.SplitContainerAndName | src/patent_pipeline/services/azure_io.py:141-170 | It raises `ValueError` with the URL exactly when the path has one segment. Otherwise the container URL keeps the SAS query and the blob name is the rest of the path. |
| AzureIo.GetBaseName | src/patent_pipeline/services/azure_io.py:173-194 | The base name has no "/" and is the file name without its last extension. Split errors propagate. |
| AzureIo.SanitizeUrl | src/patent_pipeline/services/azure_io.py:197-200 | The logged URL starts with the origin and ends with the path, so it carries no query or fragment. |
| AzureIo.UploadUrlsFor | src/patent_pipeline/services/azure_io.py:106-132 | The target is the returned URL plus the container's SAS query. The returned URL ends in "/" and the blob name. |
| AzureIo.UploadBlob | src/patent_pipeline/services/azure_io.py:86-138 | It succeeds exactly when the write to the target succeeds. It returns the URL without the SAS token, and re-raises the storage error otherwise. |
| AzureIo.SplitJoinRoundTrip | src/patent_pipeline/services/azure_io.py:141-170 | Re-joining the container URL and blob name gives back a query-less blob URL. |
| AzureIo.UploadTargetsSplitBlob | src/patent_pipeline/services/azure_io.py:86-170 | Uploading under a split's container and name targets the original blob, SAS token included. |
| PipelineState.Fail | src/patent_pipeline/nodes/stage1.py:63-66 | A node's failure sets status "failed" and the prefixed message and changes nothing else. |
| PipelineState.Required | src/patent_pipeline/nodes/stage2a.py:39-43 | `state[key]` is the value, or the `KeyError` text for a missing key. |
| PipelineState.InitialState | src/patent_pipeline/graph.py:155-159 | The run starts with only the two URLs and status "pending". |
| PipelineState.ShouldContinue | src/patent_pipeline/graph.py:24-36 | The result is "end" exactly for a failed state, and "continue" otherwise. |
| PipelineState.LogLengths | src/patent_pipeline/nodes/stage2b.py:58-63 | The completion log fails exactly when some logged key's value has no length, and the error is that value's `TypeError`. |
| IngestNode.IngestPdfs | src/patent_pipeline/nodes/ingest.py:15-69 | The status becomes "processing" exactly when the downloads and the URL split succeed; the bytes, container URL and base name are then stored. Otherwise the status is "failed" with the ingestion prefix. |
| Stage1Node.Stage1Result | src/patent_pipeline/nodes/stage1.py:35-43 | The result is the client's construction error, or `KeyError` for missing history bytes, or the retried Stage 1 call. |
| Stage1Node.Stage1Extraction | src/patent_pipeline/nodes/stage1.py:12-68 | A failed state passes unchanged. Otherwise the record is stored, and a failed call or completion log sets "failed" with the prefix. |
| Stage2aNode.Stage2aResult | src/patent_pipeline/nodes/stage2a.py:35-44 | The result is the construction error, or `KeyError` for a missing Stage 1 record, or the retried call with the tech pack. |
| Stage2aNode.Stage2a | src/patent_pipeline/nodes/stage2a.py:12-67 | A failed state passes unchanged. Otherwise the record is stored under `stage2a` and failures are prefixed. |
| Stage2bNode.Stage2bResult | src/patent_pipeline/nodes/stage2b.py:36-46 | The result is the construction error, or `KeyError` for the first missing input, or the retried call. |
| Stage2bNode.Stage2b | src/patent_pipeline/nodes/stage2b.py:12-70 | A failed state passes unchanged. Otherwise the record is stored under `stage2b` and failures are prefixed. |
| Stage2cNode.Stage2cResult | src/patent_pipeline/nodes/stage2c.py:35-46 | The result is the construction error, or `KeyError` for the first missing input, or the retried call. |
| Stage2cNode.Stage2c | src/patent_pipeline/nodes/stage2c.py:12-69 | A failed state passes unchanged. Otherwise the record is stored under `stage2c` and failures are prefixed. |
| Stage2MergeNode.Project | src/patent_pipeline/nodes/stage2_merge.py:32-56 | The projection has exactly the given keys, each holding the sub-record's value or that key's default. |
| Stage2MergeNode.Forensic | src/patent_pipeline/nodes/stage2_merge.py:32-56 | The merged record has exactly the twelve forensic keys. |
| Stage2MergeNode.CopiesFrom2a | src/patent_pipeline/nodes/stage2_merge.py:34-40 | Each 2A key is copied from `stage2a`, or takes its default when missing there. |
| Stage2MergeNode.CopiesFrom2b | src/patent_pipeline/nodes/stage2_merge.py:41-48 | Each 2B key is copied from `stage2b`, or takes its default when missing there. |
| Stage2MergeNode.CopiesFrom2c | src/patent_pipeline/nodes/stage2_merge.py:49-54 | Each 2C key is copied from `stage2c`, or takes its default when missing there. |
| Stage2MergeNode.ForensicReadsOnlyItsKeys | src/patent_pipeline/nodes/stage2_merge.py:32-56 | Sub-records that agree on the merged keys give the same forensic record. |
| Stage2MergeNode.EmptyForensic | src/patent_pipeline/nodes/stage2_merge.py:32-56 | Empty sub-records give every key its default. |
| Stage2MergeNode.Stage2Merge | src/patent_pipeline/nodes/stage2_merge.py:10-72 | A failed state passes unchanged. Otherwise the merge of the three records, missing ones read as empty, is stored, and a failed log sets "failed". |
| Stage3Node.Stage3Result | src/patent_pipeline/nodes/stage3.py:33-42 | The result is the construction error, or `KeyError` for the first missing input, or the retried markdown call. |
| Stage3Node.Stage3Report | src/patent_pipeline/nodes/stage3.py:11-55 | A failed state passes unchanged. Otherwise the stripped report is stored, or the prefixed failure is recorded. |
| Stage4Node.Stage4Result | src/patent_pipeline/nodes/stage4.py:35-45 | The result is the construction error, or `KeyError` for the first missing input, or the retried Stage 4 call. |
| Stage4Node.MetricsError | src/patent_pipeline/nodes/stage4.py:59-65 | The metrics log raises exactly when `metrics` is not a dict. |
| Stage4Node.Stage4Qc | src/patent_pipeline/nodes/stage4.py:12-74 | A failed state passes unchanged. Otherwise the QC object and the final report are stored, and a failed call or metrics log sets "failed". |
| SearchIntelNode.SearchIntelReport | src/patent_pipeline/nodes/search_intel.py:11-73 | There is no report when an input is missing or the client fails. Otherwise the report is the stripped retried call, and it exists exactly when that call succeeds. |
| SearchIntelNode.SearchIntel | src/patent_pipeline/nodes/search_intel.py:64-73 | The node never changes the status or the error; it only stores the report or None. |
| TechPackRouterNode.CenterFromArtUnit | src/patent_pipeline/nodes/tech_pack_router.py:42-44 | A string art unit gives its first two characters and "00". Any other type raises. |
| TechPackRouterNode.TechCenter | src/patent_pipeline/nodes/tech_pack_router.py:35-54 | An explicit centre wins, then the art unit, then "2100", and the result is always truthy. Metadata that is not a dict raises. |
| TechPackRouterNode.TechPackRouter | src/patent_pipeline/nodes/tech_pack_router.py:11-93 | A failed state passes unchanged. The centre is stored, with the pack text and file name; a missing file gives the placeholder "default"; any other error sets "failed". |
| SaveReportsNode.UploadFor | src/patent_pipeline/nodes/save_reports.py:37-85 | Each upload's blob name starts with the base name. |
| SaveReportsNode.UploadIf | src/patent_pipeline/nodes/save_reports.py:37-85 | At most one upload, the report's own, made exactly when the report is present and non-empty. |
| SaveReportsNode.PlannedUploads | src/patent_pipeline/nodes/save_reports.py:37-85 | A report is uploaded exactly when its text is present and non-empty. Each URL key is written at most once. |
| SaveReportsNode.UploadAll | src/patent_pipeline/nodes/save_reports.py:37-98 | The status becomes "completed" exactly when every upload succeeds, and each URL is then the last upload's URL. Otherwise the status is "failed" with the prefix. |
| SaveReportsNode.SaveReports | src/patent_pipeline/nodes/save_reports.py:12-99 | A failed state passes unchanged. A missing container URL or base name is a prefixed `KeyError`. Otherwise the planned uploads are run. |
| SaveReportsNode.UrlAfterDistinct | src/patent_pipeline/nodes/save_reports.py:44-85 | With distinct keys and successful uploads, each key's URL is its own upload's URL, and an absent key keeps its old value. |
| SaveReportsNode.SavedUrls | src/patent_pipeline/nodes/save_reports.py:37-93 | After a completed save, each saved URL is the container URL, "/" and the base name with the report's suffix. |
| PatentPipelineGraph.StepKeepsFailure | src/patent_pipeline/graph.py:100-125 | Every node after ingestion leaves a failed status and its error unchanged. |
| PatentPipelineGraph.FailureIsSticky | src/patent_pipeline/graph.py:100-125 | Any sequence of nodes without ingestion keeps a failure and its error. |
| PatentPipelineGraph.RunSplit | src/patent_pipeline/graph.py:100-125 | Running the node sequence equals running a prefix and then the rest. |
| PatentPipelineGraph.FailureAfterPrefixIsFinal | src/patent_pipeline/graph.py:100-125 | In any node sequence with no ingest after position `k`, a failure by `k` is the run's final status and error. |
| PatentPipelineGraph.IngestOnlyFirst | src/patent_pipeline/graph.py:96-102 | Ingest is the entry node and never runs again. |
| PatentPipelineGraph.EndsWithSave | src/patent_pipeline/graph.py:125-128 | Any node sequence ending with saving the reports ends "completed" or "failed". |
| PatentPipelineGraph.FirstFailureIsFinal | src/patent_pipeline/graph.py:100-125 | The first node to fail decides the run's final status and error. |
| PatentPipelineGraph.RunEndsCompletedOrFailed | src/patent_pipeline/graph.py:136-172 | Every run ends with status "completed" or "failed". |
| PatentPipelineGraph.SearchIntelReads | src/patent_pipeline/nodes/search_intel.py:30-58 | The search-intelligence report depends only on the Stage 1 record, the forensic record and the tech pack. |
| PatentPipelineGraph.SearchIntelCommutesWithStage3 | src/patent_pipeline/graph.py:113-118 | The search-intelligence branch and Stage 3 give the same state in either order. |
| PatentPipelineGraph.SearchIntelCommutesWithStage4 | src/patent_pipeline/graph.py:117-122 | The search-intelligence branch and Stage 4 give the same state in either order. |
| AgentWorkflowState.CreateInitialState | src/workflows/state.py:58-99 | Every key starts at its initial value: stage "start", status "pending", counters 0, centre "2100", and empty records, texts and lists. |
| Supervisor.DecideNextAction | src/agents/supervisor.py:54-163 | A failed status aborts with the error. At `qc_complete` the action is finalize, clarify or revise: passed finalizes, and a clarification is preferred to a revision. Revise and clarify are chosen only at `qc_complete` and below their caps. |
| Supervisor.QcCompleteDecision | src/agents/supervisor.py:111-144 | At `qc_complete` the action is finalize, clarify or revise. A passed QC finalizes. Clarify is chosen exactly when a clarification is due, and revise exactly when a revision is due. |
| Supervisor.UnknownStageAborts | src/agents/supervisor.py:158-163 | A stage the supervisor does not know, without a failure, aborts with "Unknown stage: " and the stage. |
| Supervisor.StageTable | src/agents/supervisor.py:86-157 | Each fixed stage maps to its one action, whatever the counters and flags. |
| Supervisor.RevisionReason | src/agents/supervisor.py:127-131 | A revision's reason names the score and the attempt out of 2. |
| Supervisor.ShouldContinue | src/agents/supervisor.py:165-175 | It is false exactly after a failure, at an unknown stage, or at `qc_complete` with neither a clarification nor a revision due. |
| Supervisor.CapsExhaustedFinalize | src/agents/supervisor.py:111-144 | Once both caps are used up, a QC result always finalizes. |
| Qc.GradeBase | src/agents/qc.py:135-137 | A listed grade maps to its score (A 10, B 8, C 6, D 4, F 2), and any other to 6. |
| Qc.IssueRecords | src/agents/qc.py:140-142 | A list of dicts is the issue list. An empty string or dict has no issues. Other values raise the exception the scan raises. |
| Qc.CountSeverity | src/agents/qc.py:141-142 | The count is 0 exactly when no issue has that severity. |
| Qc.Score | src/agents/qc.py:144-145 | The score lies in 0..10. With no critical or major issue it is the base score. |
| Qc.CalculateScore | src/agents/qc.py:126-145 | It raises for a non-dict QC value, a non-string grade or non-dict issues. Otherwise it is the clamped base minus 2 per critical and 1 per major issue. |
| Qc.CountAppend | src/agents/qc.py:141-142 | Severity counts add over concatenated issue lists. |
| Qc.SeriousIssueNeverRaises | src/agents/qc.py:141-145 | Adding a critical or major issue never raises the score. |
| Qc.OtherIssueKeepsScore | src/agents/qc.py:141-145 | Adding an issue that is neither critical nor major leaves the score unchanged. |
| Qc.LowerCaseGrade | src/agents/qc.py:135 | A lower-case "b" grades as B, giving 8. |
| Qc.MissingGrade | src/agents/qc.py:135-137 | A missing grade counts as C, giving 6. |
| Qc.ListedGrade | src/agents/qc.py:135-137 | With no issues, any grade that upper-cases to A, B, C, D or F scores its table entry. |
| Qc.UnknownGrade | src/agents/qc.py:135-137 | With no issues, any grade that does not upper-case to A–F scores 6. |
| Qc.Question | src/agents/qc.py:160-162 | The question is "Please clarify: " followed by the text of the issue's description. Without a description it uses the issue text, and without either it is the prefix alone. |
| Qc.ClarificationQuestions | src/agents/qc.py:147-163 | There is at most one question per issue, and each starts with the question prefix. |
| Qc.QuestionsOfOne | src/agents/qc.py:157-162 | A single issue yields exactly its own question when its type asks for clarification, and no question otherwise. |
| Qc.QuestionsFromClarifyingIssues | src/agents/qc.py:147-163 | Every question is the question of some issue whose type asks for clarification. Every such issue's question is among them. |
| Qc.NoQuestionsIff | src/agents/qc.py:147-163 | There are no questions exactly when no issue has a clarifying type. |
| Qc.QuestionsAppend | src/agents/qc.py:157-162 | Questions over concatenated issue lists concatenate. |
| Qc.IdentifyClarificationNeeds | src/agents/qc.py:147-163 | The loop returns exactly the questions of the specification function. |
| Qc.ParseQcResponse | src/agents/qc.py:85-124 | The QC value is `{}` when there is no ```json block or decoding fails. The corrected report is the recovered report. |
| Qc.QcFailure | src/agents/qc.py:299-312 | A failure returns the input report, score 0, a revision flag, no questions and the error. |
| Qc.QcOutcome | src/agents/qc.py:165-312 | Passed means score at least 8, revision means score below 5, and the two never hold together. A clarification is asked exactly when there are questions. The corrected report falls back to the input report. Any exception gives the failure shape. |
| Qc.QcProcess | src/agents/qc.py:259-312 | The agent's result is exactly the specification's outcome. |
| Extractor.ParseExtraction | src/agents/extractor.py:115-122 | The extraction is the decoded object of the fenced reply, and its logged lists have lengths. A decode error or a non-object raises. |
| Extractor.ExtractorFailure | src/agents/extractor.py:130-137 | A failure returns an empty extraction, status "failed" and the error text. |
| Extractor.ExtractorProcess | src/agents/extractor.py:77-137 | Missing or empty history bytes fail with "history_pdf_bytes is required". Otherwise it completes exactly when the reply parses. |
| Extractor.ExtractorSendsBothPdfs | src/agents/extractor.py:101-113 | A completed extraction sent the history PDF, and the patent PDF exactly when its bytes are non-empty. |
| Analyst.AnalyzeStage | src/agents/analyst.py:80-112 | A stage result is the object decoded from its fenced reply. A failed reply is passed on. |
| Analyst.MergeAnalysis | src/agents/analyst.py:239-246 | The keys are the three stage keys plus all sub-record keys. Later stages override earlier ones, and unshadowed stage keys hold the sub-records. |
| Analyst.AnalyzeParallel | src/agents/analyst.py:206-249 | It succeeds exactly when 2A succeeds and then 2B and 2C on 2A's result succeed, with 2C given an empty 2B. The result is their merge. |
| Analyst.ClarifyAnswers | src/agents/analyst.py:251-281 | The answers are the decoded reply to the questions with the extraction as context, and they have a length. |
| Analyst.AnalystFailure | src/agents/analyst.py:331-338 | A failure returns an empty analysis, no answers, status "failed" and the error. |
| Analyst.RunMode | src/agents/analyst.py:308-320 | Mode "2a" runs Stage 2A alone, and every mode other than 2a, 2b and 2c runs the full analysis. |
| Analyst.AnalystProcess | src/agents/analyst.py:283-338 | A failed tech-pack load fails the agent. Clarify mode returns answers only, and other modes return the analysis exactly when the run succeeds. |
| Writer.IssueLine | src/agents/writer.py:121-123 | Each line starts with "- ". A string issue text is used verbatim. |
| Writer.IssuesText | src/agents/writer.py:115-123 | A length-less issue value raises first. Otherwise the text is the issue lines joined by newlines. |
| Writer.WriterRequest | src/agents/writer.py:181-193 | Only mode "revise" revises the original report against the issue text. Every other mode generates. |
| Writer.WriterProcess | src/agents/writer.py:164-208 | It completes exactly when the request and the reply succeed, and the report is the cleaned, stripped reply. A failure returns "" and the error. |
| Writer.JoinLinesAppend | src/agents/writer.py:121-123 | Joining two non-empty runs of lines is joining each and putting one newline between them. |
| Writer.TwoIssueLines | src/agents/writer.py:121-123 | Two string issues give two "- " lines joined by a newline. |
| PatentWorkflow.IngestUpdate | src/workflows/patent_workflow.py:56-77 | The stage becomes "ingested" with the downloaded bytes, and patent bytes are empty without a patent URL. A failed download fails the run with "Ingest failed: ". |
| PatentWorkflow.InClassification | src/workflows/patent_workflow.py:109-115 | `in` is a substring test on a string, membership on a list and a key test on a dict. Any other type raises. |
| PatentWorkflow.DetectTechCenter | src/workflows/patent_workflow.py:103-117 | The centre is 2100, 2600 or 2800: software first, then communication, then semiconductor. It raises for non-dict patent info or a non-iterable classification. |
| PatentWorkflow.ExtractUpdate | src/workflows/patent_workflow.py:79-101 | An extractor failure fails the run. Otherwise the extraction and its detected centre are stored, and a detection error escapes. |
| PatentWorkflow.AnalyzeUpdate | src/workflows/patent_workflow.py:119-144 | A pack-load error other than a missing file escapes. Otherwise the analyst runs in mode "full" on the extraction and tech center. If it fails, the node fails with the analyst's error or "Analysis failed". If it succeeds, the node stores the analyst's analysis and the loaded pack text and moves to "analyzed". |
| PatentWorkflow.MissingPackFailsAnalysis | src/workflows/patent_workflow.py:123-126 | A missing pack file fails the node with the pack loader's message, because the analyst loads the same pack again. The node's "" fallback never reaches the state. |
| PatentWorkflow.WriterInputFor | src/workflows/patent_workflow.py:150-168 | It revises exactly after QC or a revision, and only with a non-empty report, against the QC result. |
| PatentWorkflow.HistoryAfterWrite | src/workflows/patent_workflow.py:177-179 | The previous report is appended to the history only when it is non-empty. |
| PatentWorkflow.WriteUpdate | src/workflows/patent_workflow.py:146-185 | A writer failure fails the run. Otherwise the new report, the extended history and stage "written" are stored. |
| PatentWorkflow.ApplyQc | src/workflows/patent_workflow.py:187-212 | A QC failure fails the run. Otherwise the verdict fields and stage "qc_complete" are stored. |
| PatentWorkflow.ClarifyUpdate | src/workflows/patent_workflow.py:214-230 | The clarification count rises by exactly one and the stage becomes "clarified", even when the analyst fails. |
| PatentWorkflow.ReviseUpdate | src/workflows/patent_workflow.py:232-240 | The revision count rises by exactly one and the stage returns to "qc_complete". |
| PatentWorkflow.FinalizeUrls | src/workflows/patent_workflow.py:250-265 | An empty final report uploads nothing. Otherwise the report goes to `reports/<id>_stage3_report.md`, and then `str()` of the QC result goes to `reports/<id>_stage4_qc.json`. If the report upload raises, both URLs stay "". If only the QC upload raises, the report URL is kept. A QC URL implies a report URL. |
| PatentWorkflow.FinalizeUpdate | src/workflows/patent_workflow.py:242-275 | The final report is the corrected report if non-empty, else the last report. The result is always "finalized" and "completed". |
| PatentWorkflow.NodeUpdate | src/workflows/patent_workflow.py:312-319 | Only extract and analyze can raise. Only revise and clarify change their counters, each by one. A failed status survives every node but ingest and finalize. |
| PatentWorkflow.RouteAfterQc | src/workflows/patent_workflow.py:279-291 | It routes to revise or clarify exactly when the supervisor chooses that action, and to finalize otherwise, abort included. |
| PatentWorkflow.RouteAfterClarify | src/workflows/patent_workflow.py:293-300 | It routes to write exactly when the supervisor says write, and to finalize otherwise. |
| PatentWorkflow.NextNode | src/workflows/patent_workflow.py:322-355 | END follows finalize and nothing else. |
| PatentWorkflow.NextKeepsInvariant | src/workflows/patent_workflow.py:322-355 | Given a node's effect on the revision and clarification counters, the edge taken next keeps the caps and the QC-run bound and lowers the run's potential. |
| PatentWorkflow.StepKeepsInvariant | src/workflows/patent_workflow.py:322-355 | Each node that does not raise keeps the counters within their caps and the QC-run bound, and lowers the run's potential. |
| PatentWorkflow.InitialDecision | src/agents/supervisor.py:87-91 | On a fresh state the supervisor's first decision is to extract. |
| PatentWorkflow.FailureRoutesToFinalize | src/workflows/patent_workflow.py:279-300 | After a failure, both routers go to finalize. |
| PatentWorkflow.ClarifyReturnsToWrite | src/workflows/patent_workflow.py:293-300 | A clarification in a run that has not failed always goes back to write. |
| PatentWorkflow.Workflow.constructor | src/workflows/patent_workflow.py:43-52 | The workflow holds its environment and a fresh state, with no node executed. |
| PatentWorkflow.Workflow.Execute | src/workflows/patent_workflow.py:312-319 | One node's update is applied, or its exception is reported with the state unchanged. QC runs through the agent's loop. |
| PatentWorkflow.Workflow.Run | src/workflows/patent_workflow.py:364-396 | The run terminates, and the counters stay within 2 revisions and 1 clarification. QC runs at most 1 + revisions + clarifications, that is 4, times. A run that raises nothing ends "finalized" and "completed". |
| ContentPipeline.InitialState | src/workflows/content_pipeline.py:169-184 | A run starts with iteration 0, score 0, status "started" and empty texts. |
| ContentPipeline.ScanScore | src/workflows/content_pipeline.py:71-74 | The scan returns the highest marked score, or 7 when there is none. |
| ContentPipeline.ReviewScore | src/workflows/content_pipeline.py:65-74 | The score lies in 1..10. It is 7 without "score" in the review. Otherwise it is the highest "i/10" or "i out of 10" mark, or 7. |
| ContentPipeline.ParseReviewScore | src/workflows/content_pipeline.py:65-74 | The loop with its `break` returns exactly the specified score. |
| ContentPipeline.ResearchUpdate | src/workflows/content_pipeline.py:25-35 | The findings are stored and research is marked complete, or the agent's exception escapes. |
| ContentPipeline.WriteUpdate | src/workflows/content_pipeline.py:37-49 | The draft is stored and writing is marked complete, or the exception escapes. |
| ContentPipeline.ReviewUpdate | src/workflows/content_pipeline.py:51-81 | A review adds exactly one iteration and stores the feedback and its score in 1..10. |
| ContentPipeline.ReviseUpdate | src/workflows/content_pipeline.py:83-98 | A revision replaces the draft and marks the review incomplete. |
| ContentPipeline.FinalizeUpdate | src/workflows/content_pipeline.py:110-115 | The draft becomes the final content and the status "completed". Nothing else changes. |
| ContentPipeline.ShouldRevise | src/workflows/content_pipeline.py:100-108 | It finalizes exactly when the score is at least 8 or the iterations reach the cap, and revises otherwise. |
| ContentPipeline.NodeUpdate | src/workflows/content_pipeline.py:125-130 | Only review changes the iteration count, by one. Finalize never raises. |
| ContentPipeline.NextNode | src/workflows/content_pipeline.py:133-151 | Revise returns to review, and END follows only finalize. |
| ContentPipeline.NextKeepsInvariant | src/workflows/content_pipeline.py:133-151 | Given a node's effect on the iteration count and score, the edge taken next keeps the iteration bound and lowers the run's potential. |
| ContentPipeline.StepKeepsInvariant | src/workflows/content_pipeline.py:100-151 | Each node keeps the iteration bound `max(1, max_iterations)` and lowers the run's potential. |
| ContentPipeline.ContentWorkflow.constructor | src/workflows/content_pipeline.py:17-23 | The workflow holds its cap and agents. |
| ContentPipeline.ContentWorkflow.Review | src/workflows/content_pipeline.py:51-81 | The review node with the scan loop produces exactly the specified update. |
| ContentPipeline.ContentWorkflow.Execute | src/workflows/content_pipeline.py:125-130 | One node's update is applied, or its exception is reported with the state unchanged. |
| ContentPipeline.NextRunsOneNode | src/workflows/content_pipeline.py:118-151 | Each edge taken advances the count of executed nodes by exactly one, so a run of k reviews executes 2k+2 nodes. |
| ContentPipeline.ContentWorkflow.Run | src/workflows/content_pipeline.py:160-187 | The run terminates after at most `max(1, max_iterations)` reviews and never executes more than 25 nodes; it raises the recursion error instead of a 26th. A run that raises nothing executed 2k+2 nodes for its k reviews, so k is at most 11. It has reviewed at least once, stopped on score 8 or the cap, and finalized the draft. |

## Left out

- Language-model inference, prompt texts, PDF uploads to Gemini and the agents' conversation history are left out. Each reply is an oracle over the request and the attempt or step number. Uploads are folded into the reply, so an upload failure is a failed reply.
- `json.loads`, `urlparse`, blob I/O, tech-pack file reads and Python's `str()` of a dict are oracles. `uuid4` is a fixed report id in the environment.
- The tenacity back-off timing and the `RetryError` wrapper text are left out. Only the attempt count and which attempt's result comes back are modelled.
- The Gemini client's own construction (`GeminiClient()`, configuration, prompt files) is one optional error, `initError`.
- Pydantic schema validation in the stage nodes only logs, so it is left out. Logging is left out except where a `len(...)` in a log call can raise.
- LangGraph's supersteps: the model runs the linear pipeline's parallel branches in sequence, and the commutation lemmas show that the two sequential orders agree. LangGraph's actual schedule is not modelled.
  - `stage3_report` and `search_intel` run in the same superstep, and each returns the whole state merged with its updates (`src/patent_pipeline/nodes/stage3.py:55`, `src/patent_pipeline/nodes/search_intel.py:73`). How LangGraph combines two full-state writes to the same keys is not modelled.
  - `save_reports` has two incoming edges (`src/patent_pipeline/graph.py:121-122`). LangGraph may therefore run it when `search_intel` finishes, before `stage4_qc` has run. The model runs it once, after both branches.
- Analyst.AnalyzeParallel: `asyncio.gather` is sequentialised. When both 2B and 2C fail, 2B's error is reported.
- PatentWorkflow.DetectTechCenter: only ASCII letters are lower-cased; `str.lower` on other Unicode letters is not modelled.
- Qc.CalculateScore: only ASCII letters are upper-cased in the grade.
- ContentPipeline.ContentWorkflow.Run: the recursion limit is LangGraph's default of 25 supersteps, since `app.ainvoke` (content_pipeline.py:186) passes no config. The library itself is not modelled. The model raises `GraphRecursionError` before a 26th node runs, with a shortened message, and does not model at which point inside LangGraph's loop the error is raised.
- ContentPipeline.ReviewScore: only ASCII letters are lower-cased when looking for "score" and "out of 10".
- JSON numbers are integers, and floats are left out. Dict key order is not modelled, because the model only reads keys.
- The content pipeline's three agents are one oracle. The oracle returns the result field the node reads (`findings`, `content`, `review`), or the exception, including a `KeyError` for a missing field. The always-empty `messages` list is left out.
- Several imports point at names the repository does not define, or not as used. The model treats each as an environment oracle that behaves as the calling code expects. As written, the imports fail before any node runs:
  - `upload_report` in `azure_io`, and the `files=` keyword of `BaseAgent.invoke`;
  - `LLMProvider`, imported from `src.agents.base` by `writer.py:8`, `extractor.py:11`, `qc.py:8`, `supervisor.py:7` and `analyst.py:9`;
  - `PROMPTS_DIR` (`writer.py:8`) and `load_tech_pack` (`analyst.py:9`), also imported from `src.agents.base`, which defines neither;
  - `ExtractorAgent`, `AnalystAgent`, `QCAgent`, `SupervisorAgent` and `load_tech_pack`, imported from `src.agents` by `patent_workflow.py:8-15`, which `src/agents/__init__.py` does not export;
  - `ContentPipelineState`, imported by `content_pipeline.py:8`; `src/workflows/state.py` defines only `PatentWorkflowState` (line 6).
- The five patent agents (extractor, analyst, writer, QC, supervisor) do not implement the abstract `system_prompt` property of `BaseAgent` (`src/agents/base.py:45-49`), so constructing any of them raises `TypeError`. The model constructs them as if they did.
- The content pipeline's writer: `src.agents` exports the patent `WriterAgent` (`src/agents/__init__.py:5`), whose `process` returns `agent`, `report`, `status` and sometimes `error`, but never `content` (`src/agents/writer.py:195-208`). The write node's `result["content"]` (`src/workflows/content_pipeline.py:46`) therefore raises `KeyError`, and the review and revise loop is never reached. The content-pipeline results hold for a writer oracle that returns `content`. The oracle may also raise, which models the `KeyError` path.
- The agent workflow's module-level singleton, `compile` and `run_patent_workflow` wrappers, and the unused `SupervisorAgent.process` are not modelled. The supervisor's `should_continue` is modelled but never used by the graph.
- The workflow state's keys are always present, because `create_initial_state` fills every key and nodes only overwrite keys. It is a record of plain fields, not of optional ones.
