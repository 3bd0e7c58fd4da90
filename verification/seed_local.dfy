/** The seed picker that runs a local Mistral-style model: regex features with
    an integer boundedness rule, a prompt that embeds the features as indented
    JSON, the regex reply rule, and the `seeds` lookup. The model's generation
    is a parameter (`generate`). */
module SeedLocal {
  import opened Wrappers
  import opened Exceptions
  import opened Json
  import opened Text
  import opened IrText
  import opened Prompting
  import opened JsonBlocks
  import SeedHfApi

  // ---------------------------------------------------------------------------
  // Static features
  // ---------------------------------------------------------------------------

  const LoadWords: seq<string> := ["load"]
  const StoreWords: seq<string> := ["store"]
  const ArithWords: seq<string> := ["add", "mul", "fadd", "fmul", "sub", "fsub", "div", "fdiv"]

  /** The dict `extract_static_features` returns. */
  datatype StaticFeatures = StaticFeatures(loadCnt: nat, storeCnt: nat, arithCnt: nat, bound: Bound, loopDepth: nat)

  lemma KeywordLists()
    ensures IsKeywordList(LoadWords) && IsKeywordList(StoreWords) && IsKeywordList(ArithWords)
  {
    assert IsWord("load") && IsWord("store");
    assert IsWord("add") && IsWord("mul") && IsWord("fadd") && IsWord("fmul");
    assert IsWord("sub") && IsWord("fsub") && IsWord("div") && IsWord("fdiv");
  }

  function ExtractStaticFeatures(ir: string): (f: StaticFeatures)
    ensures f.loadCnt == CountIn(WordRuns(ir, 0), LoadWords)
    ensures f.storeCnt == CountIn(WordRuns(ir, 0), StoreWords)
    ensures f.arithCnt == CountIn(WordRuns(ir, 0), ArithWords)
    ensures f.bound == Memory <==> f.loadCnt + f.storeCnt > 2 * f.arithCnt
    ensures f.bound == Compute <==> f.arithCnt > 2 * (f.loadCnt + f.storeCnt)
    ensures f.loopDepth == LoopDepth(ir)
  {
    KeywordLists();
    var nLoad := CountWords(ir, LoadWords);
    var nStore := CountWords(ir, StoreWords);
    var nArith := CountWords(ir, ArithWords);
    StaticFeatures(nLoad, nStore, nArith, CountBound(nLoad + nStore, nArith), LoopDepth(ir))
  }

  /** "memory" and "compute" never hold together, and a text without any
      counted word is "mixed". */
  lemma BoundCases(ir: string)
    ensures var f := ExtractStaticFeatures(ir);
      !(f.loadCnt + f.storeCnt > 2 * f.arithCnt && f.arithCnt > 2 * (f.loadCnt + f.storeCnt)) &&
      (f.loadCnt == 0 && f.storeCnt == 0 && f.arithCnt == 0 ==> f.bound == Mixed)
  {
  }

  /** This extractor's arithmetic count is the hosted picker's plus the
      whole-word `fsub`s: the one keyword in which the two lists differ. */
  lemma ArithCountsDiffer(ir: string)
    ensures ExtractStaticFeatures(ir).arithCnt ==
      SeedHfApi.ArithCount(ir) + CountIn(WordRuns(ir, 0), ["fsub"])
  {
    CountInSplit(WordRuns(ir, 0), ArithWords, SeedHfApi.ArithWords, ["fsub"]);
  }

  /** On the same text the two seed pickers can still disagree on the class:
      with no whole word at all, this one says "mixed" and the hosted one
      "compute". */
  lemma EmptyTextClasses()
    ensures ExtractStaticFeatures("").bound == Mixed
    ensures SeedHfApi.ExtractFeatures("").bound == Compute
  {
    assert WordRuns("", 0) == [];
  }

  // ---------------------------------------------------------------------------
  // Prompt
  // ---------------------------------------------------------------------------

  const SystemPrompt: string :=
    "You are an HPC kernel *seed\U{2011}picker*.\n"
    + "Given static kernel features and the allowed knob values, return EXACTLY "
    + "THREE candidate values **per knob** that you believe will minimise "
    + "runtime.  Output JSON strictly in the form:\n"
    + "{\n"
    + "  \"OMP_NUM_THREADS\": [ ... 3 ints ... ],\n"
    + "  \"OMP_PROC_BIND\" : [ ... 3 strings ... ],\n"
    + "  \"OMP_SCHEDULE\"  : [ ... 3 strings ... ]\n"
    + "}\n"
    + "Rank inside each list best\U{2192}worst.\n"
    + "Do not add keys, commentary, or markdown."

  const SearchSpace: Json := JObject([
    ("omp_threads", JArray([JInt(4), JInt(8), JInt(16), JInt(24), JInt(32), JInt(40), JInt(44), JInt(48)])),
    ("omp_proc_bind", JArray([JStr("true"), JStr("false"), JStr("close"), JStr("spread")])),
    ("omp_schedule", JArray([JStr("static"), JStr("dynamic"), JStr("guided")]))
  ])

  const Require: string := "Return exactly 3 seed configs ranked best\U{2011}to\U{2011}worst."

  const PromptOpen: string := "<s>[INST] " + SystemPrompt + "\n\n"
  const PromptClose: string := " [/INST]"

  /** The features as the dict `json.dumps` serialises, in key order. */
  function FeaturesJson(f: StaticFeatures): Json
  {
    JObject([
      ("load_cnt", JInt(f.loadCnt)), ("store_cnt", JInt(f.storeCnt)), ("arith_cnt", JInt(f.arithCnt)),
      ("bound", JStr(SeedHfApi.BoundName(f.bound))), ("loop_depth", JInt(f.loopDepth))])
  }

  /** The `user_msg` dict. */
  function UserMsg(f: StaticFeatures): Json
  {
    JObject([("static_features", FeaturesJson(f)), ("search_space", SearchSpace), ("require", JStr(Require))])
  }

  /** Each feature sits under its own key of the serialised dict. */
  lemma FeaturesJsonFields(f: StaticFeatures)
    ensures var j := FeaturesJson(f);
      && j.JObject? && |j.fields| == 5
      && Lookup(j.fields, "load_cnt") == Some(JInt(f.loadCnt))
      && Lookup(j.fields, "store_cnt") == Some(JInt(f.storeCnt))
      && Lookup(j.fields, "arith_cnt") == Some(JInt(f.arithCnt))
      && Lookup(j.fields, "bound") == Some(JStr(SeedHfApi.BoundName(f.bound)))
      && Lookup(j.fields, "loop_depth") == Some(JInt(f.loopDepth))
  {
    var fs := FeaturesJson(f).fields;
    LookupFirst(fs, 0);
    LookupFirst(fs, 1);
    LookupFirst(fs, 2);
    forall j | 0 <= j < 3 ensures fs[j].0 != fs[3].0 {
      assert j == 0 || j == 1 || j == 2;
    }
    LookupFirst(fs, 3);
    forall j | 0 <= j < 4 ensures fs[j].0 != fs[4].0 {
      assert j == 0 || j == 1 || j == 2 || j == 3;
    }
    LookupFirst(fs, 4);
  }

  /** The user message holds the features, the search space and the demand
      for three seeds under their keys. */
  lemma UserMsgFields(f: StaticFeatures)
    ensures var j := UserMsg(f);
      && j.JObject? && |j.fields| == 3
      && Lookup(j.fields, "static_features") == Some(FeaturesJson(f))
      && Lookup(j.fields, "search_space") == Some(SearchSpace)
      && Lookup(j.fields, "require") == Some(JStr(Require))
  {
    var fs := UserMsg(f).fields;
    LookupFirst(fs, 0);
    LookupFirst(fs, 1);
    LookupFirst(fs, 2);
  }

  function BuildPrompt(f: StaticFeatures, dumps: (Json, DumpStyle) -> string): (p: string)
    ensures |p| == |PromptOpen| + |dumps(UserMsg(f), Indent2)| + |PromptClose|
    ensures StartsWith(p, "<s>[INST] " + SystemPrompt) && EndsWith(p, PromptClose)
    ensures p[|PromptOpen|..|p| - |PromptClose|] == dumps(UserMsg(f), Indent2)
  {
    var p := Wrap(PromptOpen, dumps(UserMsg(f), Indent2), PromptClose);
    assert p[..|"<s>[INST] " + SystemPrompt|] == PromptOpen[..|"<s>[INST] " + SystemPrompt|];
    p
  }

  /** The prompt determines the serialised user message. */
  lemma BuildPromptDeterminesMessage(f1: StaticFeatures, f2: StaticFeatures, dumps: (Json, DumpStyle) -> string)
    requires BuildPrompt(f1, dumps) == BuildPrompt(f2, dumps)
    ensures dumps(UserMsg(f1), Indent2) == dumps(UserMsg(f2), Indent2)
  {
    WrapInjective(PromptOpen, dumps(UserMsg(f1), Indent2), dumps(UserMsg(f2), Indent2), PromptClose);
  }

  // ---------------------------------------------------------------------------
  // Reply
  // ---------------------------------------------------------------------------

  const NoJsonPrefix: string := "LLM reply did not contain JSON:\n"

  /** The part of `query_llm` after generation: the DOTALL search for
      `\{.*\}`, ValueError when it fails, then `json.loads` of the match, whose
      JSONDecodeError is not caught. */
  function ParseReply(response: string, loads: string -> Option<Json>): (r: Result<Json, PyError>)
    ensures !HasBracePair(response) <==> r == Err(ValueError(NoJsonPrefix + response))
    ensures HasBracePair(response) ==>
      var block := FirstLastSlice(response).value;
      (r.Ok? <==> loads(block).Some?) &&
      (r.Ok? ==> r.value == loads(block).value) &&
      (r.Err? ==> r.error == JsonDecodeError(block))
  {
    RegexAgreesWithSlice(response);
    match RegexBlock(response)
    case None => Err(ValueError(NoJsonPrefix + response))
    case Some(block) =>
      match loads(block)
      case Some(j) => Ok(j)
      case None => Err(JsonDecodeError(block))
  }

  /** `pick_seeds`: `reply["seeds"]`, which must then be iterable for the
      printing loop. */
  function PickSeeds(ir: string, generate: string -> string, loads: string -> Option<Json>,
                     dumps: (Json, DumpStyle) -> string): (r: Result<Json, PyError>)
    ensures var reply := ParseReply(generate(BuildPrompt(ExtractStaticFeatures(ir), dumps)), loads);
      && (reply.Err? ==> r == Err(reply.error))
      && (reply.Ok? && reply.value.JObject? && Lookup(reply.value.fields, "seeds").None? ==> r == Err(KeyError("seeds")))
      && (r.Ok? <==> reply.Ok? && reply.value.JObject? && Lookup(reply.value.fields, "seeds").Some? &&
                     Iterable(Lookup(reply.value.fields, "seeds").value))
      && (r.Ok? ==> r.value == Lookup(reply.value.fields, "seeds").value)
  {
    var reply := ParseReply(generate(BuildPrompt(ExtractStaticFeatures(ir), dumps)), loads);
    match reply
    case Err(e) => Err(e)
    case Ok(j) =>
      match Subscript(j, "seeds")
      case Err(e) => Err(e)
      case Ok(seeds) => if Iterable(seeds) then Ok(seeds) else Err(TypeError("iteration"))
  }
}
