/** The seed picker that queries a hosted Hugging Face model: regex features of
    the IR text, a Llama-style instruction prompt, and the stop-brace reply
    rule. The model call itself is a parameter (`generate`). */
module SeedHfApi {
  import opened Wrappers
  import opened Exceptions
  import opened Json
  import opened Text
  import opened IrText
  import opened Prompting
  import opened JsonBlocks

  // ---------------------------------------------------------------------------
  // Static features
  // ---------------------------------------------------------------------------

  const LoadWords: seq<string> := ["load"]
  const StoreWords: seq<string> := ["store"]
  const ArithWords: seq<string> := ["add", "fadd", "sub", "mul", "fmul", "div", "fdiv"]

  /** The dict `extract_features` returns; `mem_intensity` is the exact ratio. */
  datatype Features = Features(bound: Bound, memIntensity: real, loopDepth: nat)

  lemma KeywordLists()
    ensures IsKeywordList(LoadWords) && IsKeywordList(StoreWords) && IsKeywordList(ArithWords)
  {
    assert IsWord("load") && IsWord("store");
    assert IsWord("add") && IsWord("fadd") && IsWord("sub") && IsWord("mul");
    assert IsWord("fmul") && IsWord("div") && IsWord("fdiv");
  }

  /** The number of loads and stores, as whole words. */
  function MemWords(ir: string): nat
  {
    CountIn(WordRuns(ir, 0), LoadWords) + CountIn(WordRuns(ir, 0), StoreWords)
  }

  /** The number of arithmetic keywords, as whole words. */
  function ArithCount(ir: string): nat
  {
    CountIn(WordRuns(ir, 0), ArithWords)
  }

  function ExtractFeatures(ir: string): (f: Features)
    ensures f.bound == Memory <==> MemWords(ir) > 2 * Max1(ArithCount(ir))
    ensures f.bound == Compute <==> 2 * MemWords(ir) < Max1(ArithCount(ir))
    ensures f.memIntensity == Ratio(MemWords(ir), ArithCount(ir))
    ensures f.loopDepth == LoopDepth(ir)
  {
    KeywordLists();
    var nLoad := CountWords(ir, LoadWords);
    var nStore := CountWords(ir, StoreWords);
    var nArith := CountWords(ir, ArithWords);
    var nMem := nLoad + nStore;
    assert nMem == MemWords(ir) && nArith == ArithCount(ir);
    Features(RatioBound(nMem, nArith), Ratio(nMem, nArith), LoopDepth(ir))
  }

  /** Text without a whole-word `load` or `store` (the empty text among them)
      is classified compute-bound. */
  lemma NoMemoryIsCompute(ir: string)
    requires MemWords(ir) == 0
    ensures ExtractFeatures(ir).bound == Compute
  {
  }

  /** `fsub`, `udiv` and `sdiv` are not arithmetic for this extractor. */
  lemma {:induction false} UncountedArith(runs: seq<string>, w: string)
    requires w in ["fsub", "udiv", "sdiv"]
    ensures CountIn(runs + [w], ArithWords) == CountIn(runs, ArithWords)
  {
    if runs != [] {
      assert (runs + [w])[1..] == runs[1..] + [w];
      UncountedArith(runs[1..], w);
    } else {
      assert ([w])[1..] == [];
    }
  }

  // ---------------------------------------------------------------------------
  // Prompt
  // ---------------------------------------------------------------------------

  const SearchSpace: Json := JObject([
    ("OMP_NUM_THREADS", JArray([JInt(4), JInt(8), JInt(16), JInt(24), JInt(32), JInt(40), JInt(44), JInt(48)])),
    ("OMP_PROC_BIND", JArray([JStr("true"), JStr("false"), JStr("close"), JStr("spread")])),
    ("OMP_SCHEDULE", JArray([JStr("static"), JStr("dynamic"), JStr("guided")]))
  ])

  const SystemMsg: string := "You are an HPC kernel seed\U{2011}picker."

  const ExampleBlock: string :=
    "EXAMPLE INPUT\nSTATIC_FEATURES:\n{\"bound\":\"memory\",\"loop_depth\":2}\nSEARCH_SPACE:\n"
    + "{\"OMP_NUM_THREADS\":[4,8],\"OMP_PROC_BIND\":[\"true\",\"close\"],\n \"OMP_SCHEDULE\":[\"static\",\"dynamic\"]}\n\n"
    + "EXAMPLE OUTPUT\n{\n  \"OMP_NUM_THREADS\": [8,4,4],\n  \"OMP_PROC_BIND\": [\"close\",\"true\",\"true\"],\n"
    + "  \"OMP_SCHEDULE\": [\"dynamic\",\"static\",\"static\"]\n}"

  const UserTemplate: Template := Template(
    "STATIC_FEATURES:\n",
    "\n\nSEARCH_SPACE:\n",
    "\n\nTASK:\nChoose exactly THREE candidate values **per knob** that you believe will\nminimise runtime.\n\n"
    + "FORMAT (return ONLY this, no markdown, no prose):\n{\n  \"OMP_NUM_THREADS\": [<int1>, <int2>, <int3>],\n"
    + "  \"OMP_PROC_BIND\" : [\"<str1>\", \"<str2>\", \"<str3>\"],\n  \"OMP_SCHEDULE\"  : [\"<str1>\", \"<str2>\", \"<str3>\"]\n}\n\n"
    + "\U{2022} Rank values best\U{2192}worst inside each list.\n"
    + "\U{2022} Think step\U{2011}by\U{2011}step **internally**, then output only the JSON.")

  const PromptOpen: string := "<s>[INST] <<SYS>>\n" + SystemMsg + "\n<</SYS>>\n\n"
  const PromptClose: string := " [/INST]"

  function BoundName(b: Bound): string
  {
    match b
    case Memory => "memory"
    case Compute => "compute"
    case Mixed => "mixed"
  }

  /** The features as the dict `json.dumps` serialises, in key order. */
  function FeaturesJson(f: Features): Json
  {
    JObject([("bound", JStr(BoundName(f.bound))), ("mem_intensity", JNum(f.memIntensity)), ("loop_depth", JInt(f.loopDepth))])
  }

  /** Each feature sits under its own key of the serialised dict. */
  lemma FeaturesJsonFields(f: Features)
    ensures var j := FeaturesJson(f);
      && j.JObject? && |j.fields| == 3
      && Lookup(j.fields, "bound") == Some(JStr(BoundName(f.bound)))
      && Lookup(j.fields, "mem_intensity") == Some(JNum(f.memIntensity))
      && Lookup(j.fields, "loop_depth") == Some(JInt(f.loopDepth))
  {
    var fs := FeaturesJson(f).fields;
    LookupFirst(fs, 0);
    LookupFirst(fs, 1);
    LookupFirst(fs, 2);
  }

  /** The user turn: the worked example, a blank line, then the filled template. */
  function UserText(f: Features, dumps: (Json, DumpStyle) -> string): string
  {
    ExampleBlock + "\n\n" + Fill(UserTemplate, dumps(FeaturesJson(f), Compact), dumps(SearchSpace, Compact))
  }

  function BuildPrompt(f: Features, dumps: (Json, DumpStyle) -> string): (p: string)
    ensures |p| == |PromptOpen| + |UserText(f, dumps)| + |PromptClose|
    ensures StartsWith(p, PromptOpen) && EndsWith(p, PromptClose)
    ensures p[|PromptOpen|..|p| - |PromptClose|] == UserText(f, dumps)
  {
    Wrap(PromptOpen, UserText(f, dumps), PromptClose)
  }

  /** Two feature sets give the same prompt only when their compact
      serialisations are equal. */
  lemma BuildPromptDeterminesFeatures(f1: Features, f2: Features, dumps: (Json, DumpStyle) -> string)
    requires BuildPrompt(f1, dumps) == BuildPrompt(f2, dumps)
    ensures dumps(FeaturesJson(f1), Compact) == dumps(FeaturesJson(f2), Compact)
  {
    WrapInjective(PromptOpen, UserText(f1, dumps), UserText(f2, dumps), PromptClose);
    var e := ExampleBlock + "\n\n";
    var u1 := Fill(UserTemplate, dumps(FeaturesJson(f1), Compact), dumps(SearchSpace, Compact));
    var u2 := Fill(UserTemplate, dumps(FeaturesJson(f2), Compact), dumps(SearchSpace, Compact));
    assert u1 == (e + u1)[|e|..] && u2 == (e + u2)[|e|..];
    FillInjective(UserTemplate, dumps(FeaturesJson(f1), Compact), dumps(FeaturesJson(f2), Compact), dumps(SearchSpace, Compact));
  }

  // ---------------------------------------------------------------------------
  // Reply
  // ---------------------------------------------------------------------------

  const BadJsonPrefix: string := "Bad JSON from model:\n"

  /** `call_hf_api` after the client call: the stop-brace block is parsed, and
      a parse failure becomes RuntimeError carrying the reply. */
  function CallHfApi(prompt: string, generate: string -> string, loads: string -> Option<Json>): (r: Result<Json, PyError>)
    ensures r.Ok? <==> loads(StopBraceBlock(generate(prompt))).Some?
    ensures r.Ok? ==> r.value == loads(StopBraceBlock(generate(prompt))).value
    ensures r.Err? ==> r.error == RuntimeError(BadJsonPrefix + generate(prompt))
  {
    match ParseStopBrace(generate(prompt), loads, BadJsonPrefix)
    case Ok(j) => Ok(j)
    case Err(_) => Err(RuntimeError(BadJsonPrefix + generate(prompt)))
  }

  /** `pick_seeds` on the text of an IR file. */
  function PickSeeds(ir: string, generate: string -> string, loads: string -> Option<Json>,
                     dumps: (Json, DumpStyle) -> string): (r: Result<Json, PyError>)
    ensures var reply := generate(BuildPrompt(ExtractFeatures(ir), dumps));
      && (r.Ok? <==> loads(StopBraceBlock(reply)).Some?)
      && (r.Ok? ==> r.value == loads(StopBraceBlock(reply)).value)
      && (r.Err? ==> r.error == RuntimeError(BadJsonPrefix + reply))
  {
    CallHfApi(BuildPrompt(ExtractFeatures(ir), dumps), generate, loads)
  }
}
