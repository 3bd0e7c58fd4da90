/** The prompt-generation agent (the second `PromptGenerationAgent` class of
    its file, which replaces the first): it decides whether the ProGraML graph
    fits the token budget, distils it when it does not, and assembles the
    request for the model that writes the seed-picker prompt. The tokenizer
    and the serialiser are parameters. */
module PromptGen {
  import opened Wrappers
  import opened Exceptions
  import opened Json
  import opened Text
  import opened Chat

  /** The agent's settings; none of them changes after construction. */
  datatype PromptAgent = PromptAgent(modelName: string, url: string, key: string, maxPromptToken: int)

  const DefaultAgent: PromptAgent := PromptAgent("openai/gpt-4o-mini", "", "", 8000)

  // ---------------------------------------------------------------------------
  // Token budget
  // ---------------------------------------------------------------------------

  /** `n_tokens`: the tokenizer's count, or, where the tokenizer is missing,
      one token per four characters and never less than one. */
  function NTokens(text: string, encoder: Option<string -> nat>): (n: nat)
    ensures encoder.Some? ==> n == encoder.value(text)
    ensures encoder.None? ==> n >= 1 && (|text| >= 4 ==> 4 * n <= |text| < 4 * n + 4) && (|text| < 4 ==> n == 1)
  {
    match encoder
    case Some(enc) => enc(text)
    case None => if |text| / 4 >= 1 then |text| / 4 else 1
  }

  /** `_maybe_distil`: the graph is distilled exactly when its plain
      serialisation is over the budget. */
  function MaybeDistil(agent: PromptAgent, prog: Json, dumps: (Json, DumpStyle) -> string,
                       encoder: Option<string -> nat>): (r: Result<Json, PyError>)
    ensures NTokens(dumps(prog, Plain), encoder) <= agent.maxPromptToken ==> r == Ok(prog)
    ensures NTokens(dumps(prog, Plain), encoder) > agent.maxPromptToken ==> r == DistillFallback(prog)
  {
    if NTokens(dumps(prog, Plain), encoder) > agent.maxPromptToken then DistillFallback(prog) else Ok(prog)
  }

  const DistillNote: string := "programl not installed, deep metrics skipped"

  /** `len(d.get(key, []))`, or None where `len` raises TypeError. */
  function LenOrZero(fields: seq<(string, Json)>, key: string): (r: Option<nat>)
    ensures Lookup(fields, key).None? ==> r == Some(0)
    ensures Lookup(fields, key).Some? ==> r == PyLen(Lookup(fields, key).value)
  {
    match Lookup(fields, key)
    case None => Some(0)
    case Some(v) => PyLen(v)
  }

  /** `distill_graph` without ProGraML: the node and edge counts and a note.
      A graph that is not a dict has no `get` (AttributeError); a `nodes` or
      `edges` entry without a length makes `len` raise TypeError. The module
      imports ProGraML unconditionally, so this branch runs only under an
      import guarded to leave `pg` as `None`. */
  function DistillFallback(prog: Json): (r: Result<Json, PyError>)
    ensures !prog.JObject? ==> r == Err(AttributeError("get"))
    ensures prog.JObject? ==>
      (r.Ok? <==> LenOrZero(prog.fields, "nodes").Some? && LenOrZero(prog.fields, "edges").Some?)
    ensures r.Ok? ==>
      && r.value.JObject? && |r.value.fields| == 3
      && r.value.fields[0] == ("n_nodes", JInt(LenOrZero(prog.fields, "nodes").value))
      && r.value.fields[1] == ("n_edges", JInt(LenOrZero(prog.fields, "edges").value))
      && r.value.fields[2] == ("note", JStr(DistillNote))
  {
    match prog
    case JObject(fs) =>
      (match (LenOrZero(fs, "nodes"), LenOrZero(fs, "edges"))
       case (Some(n), Some(e)) => Ok(JObject([("n_nodes", JInt(n)), ("n_edges", JInt(e)), ("note", JStr(DistillNote))]))
       case _ => Err(TypeError("len")))
    case _ => Err(AttributeError("get"))
  }

  /** A dict graph stays a dict through `_maybe_distil`, whichever branch it
      takes. */
  lemma DictStaysDict(agent: PromptAgent, prog: Json, dumps: (Json, DumpStyle) -> string, encoder: Option<string -> nat>)
    requires prog.JObject?
    requires MaybeDistil(agent, prog, dumps, encoder).Ok?
    ensures MaybeDistil(agent, prog, dumps, encoder).value.JObject?
  {
  }

  /** A graph without `nodes` and `edges` that is over budget is summarised
      with zero counts. */
  lemma EmptyGraphSummary(agent: PromptAgent, dumps: (Json, DumpStyle) -> string, encoder: Option<string -> nat>)
    requires NTokens(dumps(JObject([]), Plain), encoder) > agent.maxPromptToken
    ensures MaybeDistil(agent, JObject([]), dumps, encoder) ==
      Ok(JObject([("n_nodes", JInt(0)), ("n_edges", JInt(0)), ("note", JStr(DistillNote))]))
  {
  }

  // ---------------------------------------------------------------------------
  // Prompt content
  // ---------------------------------------------------------------------------

  const RawLimit: nat := 12000
  const SummaryHeader: string := "### Programl Summary\n"
  const RawHeader: string := "### Programl Graph (raw)\n"

  /** `s[:n]` */
  function Take(s: string, n: nat): (t: string)
    ensures t <= s
    ensures |t| == if |s| <= n then |s| else n
  {
    if |s| <= n then s else s[..n]
  }

  /** The graph section: a dict payload in full under the summary header,
      anything else cut to its first 12000 characters under the raw header. */
  function GraphSection(payload: Json, dumps: (Json, DumpStyle) -> string): (g: string)
    ensures payload.JObject? ==> g == SummaryHeader + dumps(payload, Indent2) + "\n\n"
    ensures !payload.JObject? ==>
      var d := dumps(payload, Indent2);
      && |g| == |RawHeader| + (if |d| <= RawLimit then |d| else RawLimit) + 2
      && g[..|RawHeader|] == RawHeader
      && g[|RawHeader|..|g| - 2] <= d
      && g[|g| - 2..] == "\n\n"
  {
    if payload.JObject? then SummaryHeader + dumps(payload, Indent2) + "\n\n"
    else
      var t := Take(dumps(payload, Indent2), RawLimit);
      var g := RawHeader + t + "\n\n";
      assert g[..|RawHeader|] == RawHeader;
      assert g[|RawHeader|..|g| - 2] == t;
      assert g[|g| - 2..] == "\n\n";
      g
  }

  const SystemMsg: string :=
    "You are an HPC optimisation expert. Craft a complete prompt for a Seed\U{2011}Picker agent that will choose OpenMP "
    + "parameters. Include (1) kernel summary, (2) hardware details, (3) entire configuration search space, "
    + "(4) optimisation objective, (5) required JSON schema. If feedback exists, refine to avoid previous mistakes."

  const Closing: string := "Write the Seed\U{2011}Picker prompt now."

  /** `if previous_feedback:` on a `str | None`. */
  predicate FeedbackTruthy(fb: Option<string>)
  {
    fb.Some? && fb.value != []
  }

  /** The sections that always appear, in order. */
  function BaseContent(graphSection: string, machineInfo: Json, configSpace: Json, dumps: (Json, DumpStyle) -> string): string
  {
    graphSection
    + "### Machine Info\n" + dumps(machineInfo, Indent2) + "\n\n"
    + "### Configuration Space\n" + dumps(configSpace, Indent2) + "\n\n"
  }

  /** The whole user turn. */
  function UserContent(graphSection: string, machineInfo: Json, configSpace: Json, fb: Option<string>,
                       dumps: (Json, DumpStyle) -> string): (u: string)
    ensures |u| == |BaseContent(graphSection, machineInfo, configSpace, dumps)| + |Closing| +
                   (if FeedbackTruthy(fb) then |"### Feedback\n" + fb.value + "\n\n"| else 0)
    ensures u[..|graphSection|] == graphSection && u[|u| - |Closing|..] == Closing
  {
    var base := BaseContent(graphSection, machineInfo, configSpace, dumps);
    var u := base + (if FeedbackTruthy(fb) then "### Feedback\n" + fb.value + "\n\n" else "") + Closing;
    assert base[..|graphSection|] == graphSection;
    assert u[..|graphSection|] == base[..|graphSection|];
    u
  }

  /** The user turn opens with the graph section and closes with the
      instruction; the feedback section sits right before the instruction. */
  lemma UserContentLayout(g: string, m: Json, c: Json, fb: Option<string>, dumps: (Json, DumpStyle) -> string)
    ensures var u := UserContent(g, m, c, fb, dumps);
      StartsWith(u, g) && EndsWith(u, Closing) &&
      (FeedbackTruthy(fb) ==> EndsWith(u, "### Feedback\n" + fb.value + "\n\n" + Closing))
  {
    var u := UserContent(g, m, c, fb, dumps);
    var base := BaseContent(g, m, c, dumps);
    assert base[..|g|] == g;
    assert u[..|g|] == base[..|g|];
    assert u[|u| - |Closing|..] == Closing;
    if FeedbackTruthy(fb) {
      var tail := "### Feedback\n" + fb.value + "\n\n" + Closing;
      assert u == base + tail;
      assert u[|u| - |tail|..] == tail;
    }
  }

  /** The feedback changes the user turn exactly when it is truthy. */
  lemma FeedbackOnlyWhenTruthy(g: string, m: Json, c: Json, fb: Option<string>, dumps: (Json, DumpStyle) -> string)
    ensures UserContent(g, m, c, fb, dumps) == UserContent(g, m, c, None, dumps) <==> !FeedbackTruthy(fb)
  {
    if FeedbackTruthy(fb) {
      assert |UserContent(g, m, c, fb, dumps)| > |UserContent(g, m, c, None, dumps)|;
    }
  }

  /** `generate_prompt` up to the model call: the messages it sends. The
      attempt index it receives is not used. */
  method GeneratePrompt(agent: PromptAgent, programlGraph: Json, machineInfo: Json, configSpace: Json,
                        attemptIdx: int, previousFeedback: Option<string>,
                        dumps: (Json, DumpStyle) -> string, encoder: Option<string -> nat>)
    returns (r: Result<seq<Message>, PyError>)
    ensures var payload := MaybeDistil(agent, programlGraph, dumps, encoder);
      && (payload.Err? ==> r == Err(payload.error))
      && (payload.Ok? ==> r == Ok([Message("system", SystemMsg),
             Message("user", UserContent(GraphSection(payload.value, dumps), machineInfo, configSpace, previousFeedback, dumps))]))
  {
    var graphPayload := MaybeDistil(agent, programlGraph, dumps, encoder);
    if graphPayload.Err? {
      return Err(graphPayload.error);
    }
    var graphSection: string;
    if graphPayload.value.JObject? {
      graphSection := SummaryHeader + dumps(graphPayload.value, Indent2) + "\n\n";
    } else {
      graphSection := RawHeader + Take(dumps(graphPayload.value, Indent2), RawLimit) + "\n\n";
    }
    assert graphSection == GraphSection(graphPayload.value, dumps);
    var messages := [Message("system", SystemMsg)];
    var userContent := graphSection
      + "### Machine Info\n" + dumps(machineInfo, Indent2) + "\n\n"
      + "### Configuration Space\n" + dumps(configSpace, Indent2) + "\n\n";
    ghost var base := userContent;
    assert base == BaseContent(graphSection, machineInfo, configSpace, dumps);
    if previousFeedback.Some? && previousFeedback.value != [] {
      userContent := userContent + "### Feedback\n" + previousFeedback.value + "\n\n";
    }
    assert userContent == base + (if FeedbackTruthy(previousFeedback) then "### Feedback\n" + previousFeedback.value + "\n\n" else "");
    userContent := userContent + Closing;
    assert userContent == UserContent(graphSection, machineInfo, configSpace, previousFeedback, dumps);
    messages := messages + [Message("user", userContent)];
    assert messages == [Message("system", SystemMsg),
      Message("user", UserContent(GraphSection(graphPayload.value, dumps), machineInfo, configSpace, previousFeedback, dumps))];
    return Ok(messages);
  }

  /** For a dict graph that distils or passes without error, the prompt
      carries the summary header and the payload's serialisation in full. */
  lemma DictGraphUntruncated(agent: PromptAgent, prog: Json, dumps: (Json, DumpStyle) -> string, encoder: Option<string -> nat>)
    requires prog.JObject? && MaybeDistil(agent, prog, dumps, encoder).Ok?
    ensures var p := MaybeDistil(agent, prog, dumps, encoder).value;
      GraphSection(p, dumps) == SummaryHeader + dumps(p, Indent2) + "\n\n"
  {
    DictStaysDict(agent, prog, dumps, encoder);
  }
}
