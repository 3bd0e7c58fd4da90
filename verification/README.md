# AATune seed pickers, prompt agents and configuration subset — a Dafny model

AATune asks a language model for promising OpenMP settings
(`OMP_NUM_THREADS`, `OMP_PROC_BIND`, `OMP_SCHEDULE`) for a kernel. This
project models the parts of it that are plain, checkable logic:

- **Static feature extraction.** Each of the three seed pickers turns a
  kernel's LLVM IR into features.
  - The hosted (Hugging Face) and local pickers count whole-word `load`,
    `store` and arithmetic keywords with `\b...\b` regexes. They estimate the
    loop depth from the whitespace in front of each `br label`.
  - The OpenAI picker tallies opcodes of the first defined function and
    tracks a unit-stride flag. Its loop depth comes from the output of
    LLVM's `opt -loop-info`.
  - Each picker classifies the kernel as memory-, compute- or mixed-bound.
    The local one compares integer counts; the other two compare a ratio
    against 2 and 0.5.
- **Reply parsing.** There are three rules that cut a JSON block out of a
  model's reply:
  - truncate at the first `}` (the stop-sequence pickers);
  - slice from the first `{` to the last `}` (the agent seed picker);
  - the DOTALL search `\{.*\}` (the local picker).
- **Prompt composition.**
  - the fixed framing of each picker's prompt or message list;
  - the prompt-generation agent's token budget, its distil-or-raw decision,
    the 12000-character cut and its section order.
- **The optimisation loop** (`OptimisationOrchestrator.optimise`). Feedback
  is threaded from one attempt to the next, the best correct result is kept
  on strict improvement, and the loop stops at the first correct attempt.
- **Top-10 % configuration subset.** The required-column check, the filter
  by executable, the sort by time, `max(1, ceil(n/10))` rows, then sorted
  duplicate-free values per knob.

Modules:

| Module | What it holds |
|---|---|
| `Wrappers` | Option and Result |
| `Text` | string helpers |
| `Exceptions`, `Json`, `Chat` | Python errors, JSON values, chat messages |
| `IrText` | the regex scans over IR text |
| `JsonBlocks` | the three reply rules |
| `Prompting` | template filling |
| `SeedHfApi`, `SeedLocal`, `SeedOpenAi`, `SeedPicker`, `PromptGen`, `Orchestrator`, `TopConfigs` | one module per source file |

The following are all parameters of the model, as function values:

- the language-model calls;
- `json.dumps` and `json.loads`;
- the `opt` run;
- the kernel evaluator;
- the tokenizer;
- the `:.4f` formatting.

Regexes are modelled as scanners that follow the steps of `re.findall`,
`re.finditer` and `re.search`. Each scanner is proved equal to a declarative
description: maximal word runs; the whitespace run in front of each
`br label`; first `{` to last `}`.

## Model

| member | source | states |
|---|---|---|
| `IrText.AltMatchSound` | seed/sd_pkr_agent_hf_api.py:35 | the alternation matches at i exactly when some alternative occurs at i followed by a word boundary |
| `IrText.AltMatch` | seed/sd_pkr_agent_hf_api.py:35 | a match of the alternation fits in the text and is empty only when an alternative is |
| `IrText.AltMatchIsWholeRun` | seed/sd_pkr_agent_hf_api.py:35 | at the start of a word run, `\b(k1\|...)\b` matches exactly when the whole run is one of the keywords, and the match is the run |
| `IrText.KeywordAtRun` | seed/sd_pkr_agent_hf_api.py:33 | at the start of a word run, a keyword followed by `\b` occurs exactly when the run equals the keyword |
| `IrText.RunEnd` | seed/sd_pkr_agent_hf_api.py:33-35 | the run of word characters from i stops at the end of the text or at a non-word character |
| `IrText.RunEndIsWord` | seed/sd_pkr_agent_hf_api.py:33-35 | every character of that run is a word character |
| `IrText.NoMatchAtNonWord` | seed/sd_pkr_agent_hf_api.py:33-35 | no whole-word match starts at a non-word character |
| `IrText.FindAllSkipsRun` | seed/sd_pkr_agent_hf_api.py:33-35 | inside a word run no match starts, so the count from there equals the count from the run's end |
| `IrText.FindAllAtRun` | seed/sd_pkr_agent_hf_api.py:33-35 | at a run start, the count is 1 for a keyword run (0 otherwise) plus the count after the run |
| `IrText.FindAllCount` | seed/sd_pkr_agent_hf_api.py:33-35 | `re.findall` from i finds at most one match per remaining character |
| `IrText.FindAllCountsWordRuns` | seed/sd_pkr_agent_hf_api.py:33-35 | `len(re.findall(r"\b(...)\b", s))` equals the number of maximal word runs of s that are keywords |
| `IrText.CountWords` | seed/sd_pkr_agent.py:26-31 | the whole-word count is the number of maximal word runs that are keywords |
| `IrText.CountInCons` | seed/sd_pkr_agent.py:26-31 | the count over runs adds one per keyword run |
| `IrText.CountInSplit` | seed/sd_pkr_agent.py:28 | the count over a keyword list splits into the counts over two disjoint lists covering it (loads plus stores) |
| `IrText.BrLabelIsNeedle` | seed/sd_pkr_agent_hf_api.py:38 | `br label` starts and ends with non-space characters and no proper suffix of it is also a prefix |
| `IrText.Occurrences` | seed/sd_pkr_agent_hf_api.py:38 | the occurrence table has one entry per text position, end included |
| `IrText.SpaceMask` | seed/sd_pkr_agent_hf_api.py:38 | the `\s` mask has one entry per character |
| `IrText.OccurrenceEnds` | seed/sd_pkr_agent_hf_api.py:38 | an occurrence begins with the pattern's first character and ends with its last |
| `IrText.OverlapBorder` | seed/sd_pkr_agent_hf_api.py:38 | two overlapping occurrences make a proper suffix of the pattern a prefix of it |
| `IrText.NoOverlap` | seed/sd_pkr_agent_hf_api.py:38 | occurrences of `br label` never overlap |
| `IrText.NeedleScanTable` | seed/sd_pkr_agent_hf_api.py:38 | every occurrence fits in the text, starts and ends on non-space, and no other occurrence starts within its length |
| `IrText.WsRun` | seed/sd_pkr_agent_hf_api.py:38 | the greedy `\s*` from p stops at the end or at a non-space |
| `IrText.WsRunIsSpace` | seed/sd_pkr_agent_hf_api.py:38 | every character the greedy `\s*` takes is whitespace |
| `IrText.WsBefore` | seed/sd_pkr_agent_hf_api.py:38 | the whitespace run in front of q is maximal: the character before it is not a space |
| `IrText.WsBeforeIsSpace` | seed/sd_pkr_agent_hf_api.py:38 | every character of the run in front of q is whitespace |
| `IrText.WsBeforeExact` | seed/sd_pkr_agent_hf_api.py:38 | a whitespace stretch from p to q with no space before p is exactly the run in front of q |
| `IrText.OccurrenceIndentsSkip` | seed/sd_pkr_agent_hf_api.py:38 | positions without an occurrence add no indentation |
| `IrText.MatchStep` | seed/sd_pkr_agent_hf_api.py:38 | where `(\s*)br label` matches after the whitespace run, the scan and the occurrence list both report that run and resume after the match |
| `IrText.SkipStep` | seed/sd_pkr_agent_hf_api.py:38 | where it does not match, both lists go on from the next position |
| `IrText.FindIterIndents` | seed/sd_pkr_agent_hf_api.py:38 | `re.finditer` from p yields at most one indentation per remaining character, and each indentation and the pattern after it fit in the text |
| `IrText.FindIterMatchesOccurrences` | seed/sd_pkr_agent_hf_api.py:38 | the `re.finditer` group lengths are exactly the whitespace runs in front of each `br label` occurrence, left to right |
| `IrText.OccurrenceIndentsHas` | seed/sd_pkr_agent_hf_api.py:38 | every occurrence contributes its indentation to the list |
| `IrText.OccurrenceIndentsFrom` | seed/sd_pkr_agent_hf_api.py:38 | every entry of the list is the indentation of some occurrence |
| `IrText.SeqMax` | seed/sd_pkr_agent_hf_api.py:39 | `max` of a non-empty list is an element and bounds all elements |
| `IrText.LoopDepth` | seed/sd_pkr_agent_hf_api.py:38-39 | 0 when `br label` never occurs; otherwise half of the longest whitespace run in front of an occurrence, rounded down: it bounds every occurrence's and is attained |
| `IrText.Max1` | seed/sd_pkr_agent_hf_api.py:36 | `max(1, n)` is at least 1 and at least n |
| `IrText.Ratio` | seed/sd_pkr_agent_hf_api.py:36 | the intensity times `max(1, arith)` is the memory count, and it is never negative |
| `IrText.RatioBound` | seed/sd_pkr_agent_hf_api.py:41-43 | memory exactly when mem > 2·max(1, arith), compute exactly when 2·mem < max(1, arith), otherwise mixed |
| `IrText.CountBound` | seed/sd_pkr_agent.py:34-36 | memory exactly when memory operations exceed twice the arithmetic ones, compute exactly when arithmetic exceeds twice the memory operations; with arithmetic present it agrees with the ratio rule; with no counts at all it is mixed |
| `IrText.BoundsAgree` | seed/sd_pkr_agent.py:34-36 | the integer rule and the ratio rule agree exactly when there is arithmetic or more than two memory operations |
| `SeedHfApi.KeywordLists` | seed/sd_pkr_agent_hf_api.py:33-35 | the load, store and arithmetic alternatives are non-empty words |
| `SeedHfApi.ExtractFeatures` | seed/sd_pkr_agent_hf_api.py:32-46 | the class follows the ratio rule on the whole-word counts, the intensity is their exact ratio, and the depth is the `br label` indentation depth |
| `SeedHfApi.FeaturesJsonFields` | seed/sd_pkr_agent_hf_api.py:44-46 | the dict holds `bound`, `mem_intensity` and `loop_depth` under their keys |
| `SeedHfApi.NoMemoryIsCompute` | seed/sd_pkr_agent_hf_api.py:36-43 | text without a whole-word load or store, the empty text included, is compute-bound |
| `SeedHfApi.UncountedArith` | seed/sd_pkr_agent_hf_api.py:35 | `fsub`, `udiv` and `sdiv` add nothing to the arithmetic count |
| `SeedHfApi.BuildPrompt` | seed/sd_pkr_agent_hf_api.py:91-97 | the prompt is the instruction opening with the system message, then the user text, then ` [/INST]` |
| `SeedHfApi.BuildPromptDeterminesFeatures` | seed/sd_pkr_agent_hf_api.py:91-97 | equal prompts imply equal compact serialisations of the features |
| `SeedHfApi.CallHfApi` | seed/sd_pkr_agent_hf_api.py:112-117 | it succeeds exactly when the stop-brace block parses, with the parsed value; otherwise RuntimeError carrying the reply |
| `SeedHfApi.PickSeeds` | seed/sd_pkr_agent_hf_api.py:122-130 | it succeeds exactly when the stop-brace block of the reply to the built prompt parses, returning the parsed value; otherwise RuntimeError carrying that reply |
| `SeedLocal.KeywordLists` | seed/sd_pkr_agent.py:26-31 | the keyword alternatives are non-empty words |
| `SeedLocal.ExtractStaticFeatures` | seed/sd_pkr_agent.py:21-48 | raw whole-word counts, memory exactly when loads+stores > 2·arith, compute exactly when arith > 2·(loads+stores), and the `br label` depth |
| `SeedLocal.FeaturesJsonFields` | seed/sd_pkr_agent.py:42-48 | the dict holds the three counts, `bound` and `loop_depth` under their keys |
| `SeedLocal.BoundCases` | seed/sd_pkr_agent.py:34-36 | memory and compute never hold together; all-zero counts give mixed |
| `SeedLocal.ArithCountsDiffer` | seed/sd_pkr_agent.py:30-31 | this arithmetic count is the hosted picker's plus the whole-word `fsub`s |
| `SeedLocal.EmptyTextClasses` | seed/sd_pkr_agent.py:34-36 | on the empty text this picker says mixed while the hosted one says compute |
| `SeedLocal.BuildPrompt` | seed/sd_pkr_agent.py:68-80 | `<s>[INST] ` and the system prompt, a blank line, the indented user message, then ` [/INST]` |
| `SeedLocal.UserMsgFields` | seed/sd_pkr_agent.py:74-78 | the user message holds the features, the search space and the three-seed demand under their keys |
| `SeedLocal.BuildPromptDeterminesMessage` | seed/sd_pkr_agent.py:74-80 | equal prompts imply equal serialised user messages |
| `SeedLocal.ParseReply` | seed/sd_pkr_agent.py:114-118 | ValueError exactly when no `{` precedes a `}`; otherwise the first-`{`-to-last-`}` text is parsed, its decode error propagating |
| `SeedLocal.PickSeeds` | seed/sd_pkr_agent.py:124-134 | the reply's `seeds` entry is returned when present and iterable; a missing key is KeyError; reply errors propagate |
| `SeedOpenAi.FirstDefined` | seed/sd_pkr_agent_openai.py:59 | the first function that is not a declaration, or none exactly when all are declarations |
| `SeedOpenAi.ClearsStride` | seed/sd_pkr_agent_openai.py:72-77 | a `getelementptr` clears the flag exactly when operand 2 or 3 exists and is not constant |
| `SeedOpenAi.OpcodeCount` | seed/sd_pkr_agent_openai.py:64-71 | the count never exceeds the number of instructions |
| `SeedOpenAi.OpcodeCountAppend` | seed/sd_pkr_agent_openai.py:64-71 | counting adds up over a concatenation |
| `SeedOpenAi.MemFlopDisjoint` | seed/sd_pkr_agent_openai.py:67-71 | memory plus arithmetic counts never exceed the instruction count |
| `SeedOpenAi.ScanAppend` | seed/sd_pkr_agent_openai.py:64-77 | one more instruction adds its own tally and can only clear the unit-stride flag |
| `SeedOpenAi.ScanStep` | seed/sd_pkr_agent_openai.py:66-77 | a memory opcode counts only as memory, an arithmetic one only as arithmetic, and only other instructions can clear the flag |
| `SeedOpenAi.FlattenStep` | seed/sd_pkr_agent_openai.py:64-65 | the instructions of one more block follow those before it |
| `SeedOpenAi.ScanInstructions` | seed/sd_pkr_agent_openai.py:61-77 | the loop's tallies are the memory and arithmetic opcode counts of all instructions, and the flag is set exactly when no `getelementptr` has a non-constant index in operand 2 or 3 |
| `SeedOpenAi.DepthLineHasField` | seed/sd_pkr_agent_openai.py:45-46 | a line containing `depth =` always has a last field |
| `SeedOpenAi.DepthScan` | seed/sd_pkr_agent_openai.py:45-47 | the scan fails only with ValueError and never returns less than the running maximum |
| `SeedOpenAi.OptLoopDepth` | seed/sd_pkr_agent_openai.py:45-47 | the maximum over the `depth =` lines of their last field, 0 without such lines; it fails, always with ValueError, exactly when such a field is not an integer |
| `SeedOpenAi.DepthScanFromStart` | seed/sd_pkr_agent_openai.py:45-47 | the scan from no maximum yields that maximum-or-error |
| `SeedOpenAi.DepthScanSpec` | seed/sd_pkr_agent_openai.py:45-47 | with a running maximum, every depth line must parse (else ValueError) and the result is the largest of the maximum and their values |
| `SeedOpenAi.ExtractFeatures` | seed/sd_pkr_agent_openai.py:54-90 | its result satisfies `ExtractedFrom`: StopIteration without a defined function; CalledProcessError when `opt` fails; a depth parse error propagates; otherwise ratio-rule class, exact intensity, `opt` depth and unit-stride flag of the first defined function |
| `SeedOpenAi.ExtractedFromUnique` | seed/sd_pkr_agent_openai.py:54-90 | at most one result meets that description, so it fixes the features of every input |
| `SeedOpenAi.FeaturesJsonFields` | seed/sd_pkr_agent_openai.py:85-90 | the dict holds `bound`, `mem_intensity`, `loop_depth` and `unit_stride` under their keys |
| `SeedOpenAi.DropCommonPrefix` | seed/sd_pkr_agent_openai.py:232 | equal texts with the same front part agree after it |
| `SeedOpenAi.BuildMessages` | seed/sd_pkr_agent_openai.py:231-239 | exactly two messages: the system message, and the user turn made of the examples, a blank line and the template filled with the compact features and search space |
| `SeedOpenAi.BuildMessagesDetermineFeatures` | seed/sd_pkr_agent_openai.py:231-239 | equal message lists imply equal compact serialisations of the features |
| `SeedOpenAi.CallOpenAi` | seed/sd_pkr_agent_openai.py:254-259 | the parsed stop-brace block on success; otherwise RuntimeError carrying the reply |
| `SeedOpenAi.PickSeeds` | seed/sd_pkr_agent_openai.py:264-272 | StopIteration without a defined function; otherwise the features are those `ExtractedFrom` describes for the module, an extraction error is returned as is, and a success is the reply rule applied to the model's answer to the messages built from them |
| `JsonBlocks.SplitHead` | seed/sd_pkr_agent_openai.py:255 | `split("}")[0]` is the longest prefix without `}` |
| `JsonBlocks.StopBraceBlock` | seed/sd_pkr_agent_openai.py:255 | the block ends in `}`; it is the text when the text ends in `}`, otherwise the text before its first `}` followed by `}` |
| `JsonBlocks.StopBraceIdempotent` | seed/sd_pkr_agent_openai.py:255 | applying the rule twice equals applying it once |
| `JsonBlocks.StopBraceSingleBrace` | seed/sd_pkr_agent_hf_api.py:113 | when the text does not end in `}`, the block's only `}` is its last character |
| `JsonBlocks.ParseStopBrace` | seed/sd_pkr_agent_hf_api.py:113-117 | success exactly when the block parses; the error is RuntimeError ending with the whole reply |
| `JsonBlocks.FirstToLastUnique` | agents/seed_picker.py:22-24 | the first-`{`/last-`}` span of a text is unique |
| `JsonBlocks.Slice` | agents/seed_picker.py:24 | a Python slice: empty when the end is not after the start |
| `JsonBlocks.FirstLastSlice` | agents/seed_picker.py:22-24 | absent exactly when `{` or `}` is missing; non-empty exactly when some `{` precedes some `}`, and then the span from the first `{` to the last `}` |
| `JsonBlocks.PairWithin` | agents/seed_picker.py:22-24 | some `{` precedes some `}` exactly when the first `{` precedes the last `}` |
| `JsonBlocks.Backtrack` | seed/sd_pkr_agent.py:114 | the greedy `.*` gives back characters until a `}` follows, ending at the last `}` in reach |
| `JsonBlocks.Search` | seed/sd_pkr_agent.py:114 | the leftmost `{` that starts a match, ending at the last `}`; no match when no `{` precedes a `}` |
| `JsonBlocks.RegexBlock` | seed/sd_pkr_agent.py:114-116 | found exactly when some `{` precedes some `}`, and then the span from the first `{` to the last `}` |
| `JsonBlocks.RegexAgreesWithSlice` | seed/sd_pkr_agent.py:114-116 | the regex search and the index/rindex slice give the same text whenever either finds a pair |
| `SeedPicker.PickRequest` | agents/seed_picker.py:15-19 | two messages, system then the prompt as user, at temperature 0.2 |
| `SeedPicker.PickParameters` | agents/seed_picker.py:14-28 | success exactly when the brace slice exists and parses, returning the parsed value unchanged; every failure is one ValueError carrying the whole reply |
| `SeedPicker.MissingBraceFails` | agents/seed_picker.py:22-23 | a reply without `{` or without `}` fails |
| `SeedPicker.InvertedBracesFail` | agents/seed_picker.py:24-27 | a reply whose last `}` precedes its first `{` gives the empty slice and fails |
| `SeedPicker.ParsedBlockShape` | agents/seed_picker.py:22-24 | when a `{` precedes a `}`, the parsed text starts with `{` and ends with `}` |
| `PromptGen.NTokens` | agents/prompt_gen.py:61-67 | the tokenizer's count, or without it `max(1, len // 4)`, always at least 1 |
| `PromptGen.MaybeDistil` | agents/prompt_gen.py:69-73 | the graph is distilled exactly when its serialisation is over the token budget, otherwise passed unchanged |
| `PromptGen.LenOrZero` | agents/prompt_gen.py:79-80 | `len(d.get(key, []))`: 0 for a missing key, the length otherwise, none where `len` fails |
| `PromptGen.DistillFallback` | agents/prompt_gen.py:75-82 | AttributeError for a non-dict; a dict gives `n_nodes`, `n_edges` and the note, or TypeError where a length is missing |
| `PromptGen.DictStaysDict` | agents/prompt_gen.py:107-109 | a dict graph stays a dict through either branch |
| `PromptGen.EmptyGraphSummary` | agents/prompt_gen.py:76-82 | an over-budget graph without nodes and edges is summarised with zero counts |
| `PromptGen.Take` | agents/prompt_gen.py:111 | `s[:n]` is a prefix of exactly min(len, n) characters |
| `PromptGen.GraphSection` | agents/prompt_gen.py:108-111 | a dict payload in full under the summary header; anything else under the raw header as exactly the first min(len, 12000) characters of its serialisation, then a blank line |
| `PromptGen.UserContentLayout` | agents/prompt_gen.py:121-128 | the user turn opens with the graph section and closes with the instruction, with the feedback section right before it |
| `PromptGen.UserContent` | agents/prompt_gen.py:121-128 | the user turn is the fixed sections, the feedback section when truthy, and the instruction: it opens with the graph section and ends with the instruction |
| `PromptGen.FeedbackOnlyWhenTruthy` | agents/prompt_gen.py:126-127 | the feedback changes the user turn exactly when it is truthy |
| `PromptGen.GeneratePrompt` | agents/prompt_gen.py:99-130 | a distil error propagates; otherwise exactly the system message and the assembled user turn |
| `PromptGen.DictGraphUntruncated` | agents/prompt_gen.py:107-109 | a dict graph is embedded under the summary header in full |
| `Orchestrator.FeedbackLine` | agents/exe.py:87-89 | the line starts with `Attempt <k+1>: correctness=<verdict>`, ends with `; objective=<formatted metric>`, and is exactly those two parts long |
| `Orchestrator.FeedbackLineAt` | agents/exe.py:87-89 | the attempt number sits from position 8, a colon right after it, the verdict 14 positions further |
| `Orchestrator.ColonEndsNumeral` | agents/exe.py:88 | a numeral cannot run past the colon after the attempt number |
| `Orchestrator.SameNumeral` | agents/exe.py:88 | two numerals both ending at that colon are equal |
| `Orchestrator.FeedbackIdentifiesAttempt` | agents/exe.py:87-89 | equal feedback lines come from the same attempt index and verdict |
| `Orchestrator.NextFeedback` | agents/exe.py:68-89 | no feedback exactly before the first attempt, then the line about the previous attempt |
| `Orchestrator.BestOf` | agents/exe.py:69-70 | parameters are kept exactly when a metric is kept |
| `Orchestrator.BestStep` | agents/exe.py:93-95 | only a correct attempt that strictly improves replaces the best result; the best metric never increases |
| `Orchestrator.BestIsFirstMinimum` | agents/exe.py:93-95 | nothing is kept exactly when no attempt was correct; otherwise the least metric among correct attempts, from the first attempt reaching it, with its parameters |
| `Orchestrator.BestNeverIncreases` | agents/exe.py:93-95 | once set, the best metric never increases |
| `Orchestrator.TieKeepsEarlier` | agents/exe.py:93 | an attempt that only ties the best keeps the earlier result |
| `Orchestrator.BestOrLast` | agents/exe.py:103 | `best_params or params`: the kept parameters when truthy, else the last ones |
| `Orchestrator.ReturnsLastParams` | agents/exe.py:98-106 | since only the last attempt can be correct, the returned parameters are always the last attempt's |
| `Orchestrator.Extend` | agents/exe.py:72-95 | recording one attempt extends the trace, the feedback chain and the best-result fold by one step |
| `Orchestrator.NoAttemptOutcome` | agents/exe.py:72-106 | with no attempt allowed, `params` is unbound at return |
| `Orchestrator.FailureOutcome` | agents/exe.py:74-83 | a failing prompt or pick ends the run with that error |
| `Orchestrator.SuccessOutcome` | agents/exe.py:98-103 | a correct last attempt writes its prompt and returns |
| `Orchestrator.ExhaustedOutcome` | agents/exe.py:105-106 | after all attempts fail, the best or last parameters return and nothing is written |
| `Orchestrator.Optimise` | agents/exe.py:59-106 | each attempt follows from its index and the previous feedback; at most max_attempts; every attempt but the last incorrect; a result only after an attempt, the best or last parameters; the prompt written exactly after a correct last attempt; an error only after attempts that were all incorrect (`Outcome`) |
| `TopConfigs.Filter` | utils/get_best_subset_of_params.py:39 | exactly the rows of the executable, each as often as in the table, and no other row |
| `TopConfigs.FilterIdempotent` | utils/get_best_subset_of_params.py:39 | filtering twice equals filtering once |
| `TopConfigs.FilterAppendOthers` | utils/get_best_subset_of_params.py:39 | rows of other executables appended after the rows do not change the filter |
| `TopConfigs.FilterNone` | utils/get_best_subset_of_params.py:39-41 | no matching row gives the empty subset |
| `TopConfigs.FilterEmpty` | utils/get_best_subset_of_params.py:39-41 | the subset is empty exactly when no row names the executable |
| `TopConfigs.InsertByTime` | utils/get_best_subset_of_params.py:44 | insertion adds exactly the one row |
| `TopConfigs.InsertByTimeFrom` | utils/get_best_subset_of_params.py:44 | every row of the result is the inserted one or an old one |
| `TopConfigs.SortedCons` | utils/get_best_subset_of_params.py:44 | a row no slower than a sorted rest keeps it sorted |
| `TopConfigs.SortedHead` | utils/get_best_subset_of_params.py:44 | the head of a sorted list is the fastest |
| `TopConfigs.InsertByTimeSorted` | utils/get_best_subset_of_params.py:44 | insertion keeps the order by time |
| `TopConfigs.SortByTime` | utils/get_best_subset_of_params.py:44 | a permutation of the rows, ascending by time |
| `TopConfigs.NTop` | utils/get_best_subset_of_params.py:45 | `max(1, ceil(n/10))`: at least 1, at most n for n ≥ 1 |
| `TopConfigs.Fastest` | utils/get_best_subset_of_params.py:44-46 | the head has `n_top` rows |
| `TopConfigs.SplitMultiset` | utils/get_best_subset_of_params.py:46 | head and rest together are the whole list |
| `TopConfigs.SortedSplit` | utils/get_best_subset_of_params.py:46 | in a sorted list every head row is no slower than every rest row |
| `TopConfigs.FastestAreFastest` | utils/get_best_subset_of_params.py:44-46 | the selected rows come from the subset and none is slower than an unselected one |
| `TopConfigs.InsertUnique` | utils/get_best_subset_of_params.py:49-56 | inserting a value adds it and keeps the rest |
| `TopConfigs.InsertUniqueAscending` | utils/get_best_subset_of_params.py:49-56 | insertion keeps the list strictly ascending |
| `TopConfigs.SortedUnique` | utils/get_best_subset_of_params.py:49-56 | `sorted(unique(xs))` holds exactly the values of xs |
| `TopConfigs.SortedUniqueAscending` | utils/get_best_subset_of_params.py:49-56 | and is strictly ascending, so free of duplicates |
| `TopConfigs.AscendingDeterminedBySet` | utils/get_best_subset_of_params.py:49-56 | two strictly ascending lists with the same values are equal |
| `TopConfigs.IntLessIsOrder` | utils/get_best_subset_of_params.py:50-51 | threads compare as integers, a strict total order |
| `TopConfigs.StrLessIsOrder` | utils/get_best_subset_of_params.py:52-55 | the other knobs compare as strings, a strict total order |
| `TopConfigs.ThreadsOf` | utils/get_best_subset_of_params.py:51 | the thread column of the rows, in order |
| `TopConfigs.ProcBindOf` | utils/get_best_subset_of_params.py:53 | the proc-bind column of the rows, in order |
| `TopConfigs.ScheduleOf` | utils/get_best_subset_of_params.py:55 | the schedule column of the rows, in order |
| `TopConfigs.Summarise` | utils/get_best_subset_of_params.py:49-56 | a value is listed for a knob exactly when some selected row has it |
| `TopConfigs.ExtractTopConfigs` | utils/get_best_subset_of_params.py:25-64 | missing columns error naming exactly the missing ones; no matching row is an error; otherwise the summary of the fastest rows of the executable |
| `TopConfigs.ConfigsAscending` | utils/get_best_subset_of_params.py:49-56 | each list of the result is strictly ascending |
| `TopConfigs.OtherExecutablesIgnored` | utils/get_best_subset_of_params.py:39 | rows of other executables appended after the rows do not change the result |
| `TopConfigs.OnlyOwnRowsMatter` | utils/get_best_subset_of_params.py:39-55 | the result on a table equals the result on its rows of the executable alone, wherever other rows sit |
| `Text.IndexOf` | agents/seed_picker.py:22 | `index`: the first position of the character, none exactly when it is absent |
| `Text.LastIndexOf` | agents/seed_picker.py:23 | `rindex`: the last position of the character, none exactly when it is absent |
| `Text.NatToString` | agents/exe.py:88 | a non-empty string of digits |
| `Text.Digit` | agents/exe.py:88 | a digit character of the given value |
| `Text.NatToStringRoundTrip` | agents/exe.py:88 | reading the decimal digits back gives the number |
| `Text.StrLessIrreflexive` | utils/get_best_subset_of_params.py:52-55 | no string is below itself |
| `Text.StrLessTransitive` | utils/get_best_subset_of_params.py:52-55 | string order is transitive |
| `Text.StrLessTotal` | utils/get_best_subset_of_params.py:52-55 | distinct strings are ordered one way or the other |
| `Text.LineLen` | seed/sd_pkr_agent_openai.py:46 | the length of the first line: no line break before it, one at it |
| `Text.SplitLines` | seed/sd_pkr_agent_openai.py:46 | `splitlines()` yields lines without line breaks |
| `Text.SplitJoinLines` | seed/sd_pkr_agent_openai.py:46 | splitting joined lines gives the lines back |
| `Text.SplitLinesCons` | seed/sd_pkr_agent_openai.py:46 | a line followed by a newline is split off first |
| `Text.LineLenOfLine` | seed/sd_pkr_agent_openai.py:46 | the first line's length is the line's own |
| `Text.FieldLen` | seed/sd_pkr_agent_openai.py:45 | the first field ends at whitespace or the end |
| `Text.Fields` | seed/sd_pkr_agent_openai.py:45 | `split()` yields non-empty fields without whitespace, and none exactly for all-space text |
| `Text.FieldsLast` | seed/sd_pkr_agent_openai.py:45 | `split()[-1]` is a maximal run of non-space characters with only whitespace after it |
| `Text.ParseInt` | seed/sd_pkr_agent_openai.py:45 | `int()` accepts exactly a numeral or a sign followed by a numeral, with the numeral's value, negated after `-` |
| `Text.DropUnderscores` | seed/sd_pkr_agent_openai.py:45 | removing digit-group underscores leaves digits, and changes nothing without underscores |
| `Text.ParseNumeral` | seed/sd_pkr_agent_openai.py:45 | a value exactly for a well-formed numeral; an all-digit text reads as its decimal value |
| `Text.ParseIntRoundTrip` | seed/sd_pkr_agent_openai.py:45 | `int()` reads back a printed number, negative ones too |
| `Json.Lookup` | seed/sd_pkr_agent.py:129 | a dict entry's value, none exactly when no key matches |
| `Json.LookupFirst` | seed/sd_pkr_agent.py:129 | the first pair carrying a key is the one a lookup finds |
| `Json.Subscript` | seed/sd_pkr_agent.py:129 | `d[key]` succeeds exactly on a dict with the key, KeyError otherwise |
| `Json.PyLen` | agents/prompt_gen.py:79-80 | `len` is defined exactly on strings, lists and dicts |
| `Prompting.Fill` | seed/sd_pkr_agent_hf_api.py:92-95 | `USER_TEMPLATE.format(...)`: head, features, middle, search space and tail, each at its position |
| `Prompting.Wrap` | seed/sd_pkr_agent_hf_api.py:97 | the opening, the body and the closing in order |
| `Prompting.FillInjective` | seed/sd_pkr_agent_hf_api.py:92-95 | the filled template determines the features text |
| `Prompting.WrapInjective` | seed/sd_pkr_agent_hf_api.py:97 | the wrapped text determines the body |

## Left out

- Calls to language models and HTTP services are parameters of the model:
  the Hugging Face client, the OpenAI client, local generation,
  `call_openrouter`. `agents/seed_picker.py` and `agents/prompt_gen.py` call
  `call_openrouter` without importing or defining it. The model stops at the
  request they would send (`SeedPicker.PickParameters` takes the call as a
  parameter; `PromptGen.GeneratePrompt` returns the messages).
- Model download, reading the IR or CSV file, writing `final_prompt.txt` or
  the JSON output, `mkdir`, argparse, environment variables and every
  `print` are I/O. The written prompt is returned as a value instead.
- llvmlite parsing and verification of the module are foreign code: the
  functions of the module are given as values, and the printed IR text of a
  function is a field.
- The `opt` subprocess and its temporary file are a parameter that returns
  the output text, or nothing for a failed run.
- `json.dumps` and `json.loads` are parameters: the JSON grammar is not
  modelled.
- The tokenizer is a parameter. A missing tokenizer (the `ImportError`
  branch) is modelled as `None`; other tokenizer errors are not modelled.
- `agents/prompt_gen.py:4` imports ProGraML without a guard, so as written
  `pg` is never `None` and the fallback of `distill_graph` (line 76) cannot
  run: the import either fails or binds the module. The model assumes a
  guarded import that leaves `pg` as `None` when ProGraML is missing, and
  models that fallback, which is unreachable in the code as written. The
  ProGraML branch itself calls helpers that are not defined in the
  repository and is not modelled.
- `import tiktoken` at `agents/prompt_gen.py:3` is unguarded too, so the
  `except ImportError` of `n_tokens` (line 65) guards only the call. The
  default model name `openai/gpt-4o-mini` is likely unknown to
  `tiktoken.encoding_for_model`, which then raises KeyError, not
  ImportError, and the error escapes `n_tokens`. This comes from
  tiktoken's behaviour, which lies outside this repository, and was not
  executed; the model's tokenizer parameter returns a count or `None`.
- `Json.Lookup` returns the value of the first pair with the key. Objects
  are assumed to have each key once, as Python dicts and `json.loads`
  results do; the duplicate-key behaviour of `json.loads` (last key wins)
  is not modelled.
- `Text.ParseInt` accepts ASCII digits only. Python's `int()` also accepts
  other Unicode decimal digits, surrounding whitespace and `_` separators;
  the tokens it reads here come from `split()` and carry no whitespace.
- Floating point is not modelled:
  - the intensity is an exact rational, not a float. `round(mem_int, 2)` and
    `round(mem_int, 3)` are left out;
  - the metric's `:.4f` formatting is a parameter;
  - NaN and infinite metrics are not modelled.
- `SeedHfApi.ExtractFeatures`, `SeedOpenAi.ExtractFeatures`: the
  `mem_intensity` entry is the exact ratio rather than its rounding to 2 or
  3 decimals.
- `\w` is taken as ASCII letters, digits and `_`. Python's `\w` also matches
  non-ASCII letters.
- pandas `sort_values` is not stable. `TopConfigs.SortByTime` is a stable
  insertion sort. Which of several rows with the same time is selected at
  the cut-off is not claimed anywhere: `TopConfigs.FastestAreFastest` only
  states that no selected row is slower than an unselected one.
- Reading the CSV (`pd.read_csv`), column dtypes and the conversions `int`
  and `str` are not modelled. Rows are records with typed fields.
- `ceil(0.10 * n)` is taken as the integer `ceil(n / 10)`.
- The order of column names in the missing-columns message follows Python's
  set order, so the error carries the set of missing names instead.
- The first `PromptGenerationAgent` class in `agents/prompt_gen.py` is
  replaced by the second at import and is not modelled.
- `n_tokens` and `distill_graph` are written without `self`, so
  `self.n_tokens(full_json, self.model_name)` passes one argument too many
  and raises TypeError. The model follows the evident intent: the functions
  as if declared static.
- `call_hf_api` reads `response.text` from `text_generation`, which returns
  a string. The model takes the reply text as given.
- `OptimisationOrchestrator` is commented out in `agents/exe.py`; the model
  follows the commented text. Its documented cap of 5 attempts is not
  enforced by that code: `max_attempts` is taken as given.
- `Orchestrator.Optimise`: the `attempt_idx` handed to the prompt agent is
  recorded, but `generate_prompt` ignores it.
- `SeedOpenAi.OptLoopDepth` reads lines containing `depth =`. Whether a
  given LLVM version's `opt -loop-info` output has such lines is outside the
  model: the output is a parameter.
- A `None` message content from the OpenAI client is not modelled; the reply
  is a string.
