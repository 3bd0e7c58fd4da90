/** The seed picker that queries an OpenAI chat model. Its features come from
    the instructions of the first defined function of the parsed module (the
    IR parser is not modelled: the functions are given as values) and from the
    loop-depth report of LLVM's `opt`, whose run is a parameter. */
module SeedOpenAi {
  import opened Wrappers
  import opened Exceptions
  import opened Json
  import opened Text
  import opened IrText
  import opened Chat
  import opened Prompting
  import opened JsonBlocks
  import SeedHfApi

  // ---------------------------------------------------------------------------
  // The parsed module
  // ---------------------------------------------------------------------------

  datatype Operand = Operand(isConstant: bool)

  datatype Instruction = Instruction(opcode: string, operands: seq<Operand>)

  /** A function of the module: its basic blocks and its printed IR. */
  datatype IrFunction = IrFunction(isDeclaration: bool, blocks: seq<seq<Instruction>>, text: string)

  /** The dict `extract_features` returns; `mem_intensity` is the exact ratio. */
  datatype Features = Features(bound: Bound, memIntensity: real, loopDepth: int, unitStride: bool)

  const MemOpcodes: seq<string> := ["load", "store"]
  const FlopOpcodes: seq<string> := ["fadd", "fmul", "fsub", "fdiv", "add", "mul", "sub", "udiv", "sdiv"]

  /** `next(f for f in module.functions if not f.is_declaration)`, or None
      where `next` raises StopIteration. */
  function FirstDefined(fs: seq<IrFunction>): (r: Option<IrFunction>)
    ensures r.None? <==> forall i :: 0 <= i < |fs| ==> fs[i].isDeclaration
    ensures r.Some? ==> exists i :: 0 <= i < |fs| && fs[i] == r.value && !fs[i].isDeclaration &&
                          forall j :: 0 <= j < i ==> fs[j].isDeclaration
  {
    if fs == [] then None
    else if !fs[0].isDeclaration then Some(fs[0])
    else
      var r := FirstDefined(fs[1..]);
      assert forall i :: 1 <= i < |fs| ==> fs[i] == fs[1..][i - 1];
      r
  }

  /** The instructions of the blocks, block after block. */
  function Flatten(blocks: seq<seq<Instruction>>): seq<Instruction>
  {
    if blocks == [] then [] else Flatten(blocks[..|blocks| - 1]) + blocks[|blocks| - 1]
  }

  /** How many of the instructions have one of the opcodes. */
  function OpcodeCount(insts: seq<Instruction>, ops: seq<string>): (n: nat)
    ensures n <= |insts|
  {
    if insts == [] then 0
    else OpcodeCount(insts[..|insts| - 1], ops) + (if insts[|insts| - 1].opcode in ops then 1 else 0)
  }

  function MemCount(insts: seq<Instruction>): nat { OpcodeCount(insts, MemOpcodes) }

  function FlopCount(insts: seq<Instruction>): nat { OpcodeCount(insts, FlopOpcodes) }

  /** A `getelementptr` whose first or second index operand (operands 2 and 3)
      is not a constant. */
  predicate ClearsStride(inst: Instruction)
    ensures ClearsStride(inst) <==>
      inst.opcode == "getelementptr" && exists k :: 2 <= k < 4 && k < |inst.operands| && !inst.operands[k].isConstant
  {
    var idx := if |inst.operands| >= 2 then inst.operands[2..] else [];
    inst.opcode == "getelementptr" &&
    ((|idx| >= 1 && !idx[0].isConstant) || (|idx| >= 2 && !idx[1].isConstant))
  }

  /** No instruction clears the unit-stride flag. */
  predicate UnitStride(insts: seq<Instruction>)
  {
    forall i :: 0 <= i < |insts| ==> !ClearsStride(insts[i])
  }

  /** Counting splits over a concatenation. */
  lemma {:induction false} OpcodeCountAppend(a: seq<Instruction>, b: seq<Instruction>, ops: seq<string>)
    ensures OpcodeCount(a + b, ops) == OpcodeCount(a, ops) + OpcodeCount(b, ops)
    decreases |b|
  {
    if b != [] {
      var b' := b[..|b| - 1];
      assert (a + b)[..|a + b| - 1] == a + b';
      assert (a + b)[|a + b| - 1] == b[|b| - 1];
      OpcodeCountAppend(a, b', ops);
    } else {
      assert a + b == a;
    }
  }

  /** Opcodes in both groups are never counted twice: the memory and the
      arithmetic counts together never exceed the instruction count. */
  lemma {:induction false} MemFlopDisjoint(insts: seq<Instruction>)
    ensures MemCount(insts) + FlopCount(insts) <= |insts|
    decreases |insts|
  {
    if insts != [] {
      MemFlopDisjoint(insts[..|insts| - 1]);
    }
  }

  /** One more instruction adds its own tally to the counts and the flag. */
  lemma ScanAppend(seen: seq<Instruction>, inst: Instruction)
    ensures MemCount(seen + [inst]) == MemCount(seen) + (if inst.opcode in MemOpcodes then 1 else 0)
    ensures FlopCount(seen + [inst]) == FlopCount(seen) + (if inst.opcode in FlopOpcodes then 1 else 0)
    ensures UnitStride(seen + [inst]) == (UnitStride(seen) && !ClearsStride(inst))
  {
    var s := seen + [inst];
    assert s[..|s| - 1] == seen && s[|s| - 1] == inst;
    assert forall i :: 0 <= i < |seen| ==> s[i] == seen[i];
  }

  /** The instruction at `i` of a block, in the order the scan tests it: a
      memory opcode only counts as memory, an arithmetic one only as
      arithmetic, and only any other instruction can clear the flag. */
  lemma ScanStep(done: seq<Instruction>, block: seq<Instruction>, i: nat)
    requires i < |block|
    ensures var inst, s, s' := block[i], done + block[..i], done + block[..i + 1];
      && (inst.opcode in MemOpcodes ==>
            MemCount(s') == MemCount(s) + 1 && FlopCount(s') == FlopCount(s) && UnitStride(s') == UnitStride(s))
      && (inst.opcode !in MemOpcodes && inst.opcode in FlopOpcodes ==>
            MemCount(s') == MemCount(s) && FlopCount(s') == FlopCount(s) + 1 && UnitStride(s') == UnitStride(s))
      && (inst.opcode !in MemOpcodes && inst.opcode !in FlopOpcodes ==>
            MemCount(s') == MemCount(s) && FlopCount(s') == FlopCount(s)
            && UnitStride(s') == (UnitStride(s) && !ClearsStride(inst)))
  {
    var inst := block[i];
    assert done + block[..i + 1] == (done + block[..i]) + [inst];
    ScanAppend(done + block[..i], inst);
    if inst.opcode in MemOpcodes {
      assert inst.opcode == "load" || inst.opcode == "store";
    } else if inst.opcode in FlopOpcodes {
      assert inst.opcode != "getelementptr";
    }
  }

  lemma FlattenStep(blocks: seq<seq<Instruction>>, b: nat)
    requires b < |blocks|
    ensures Flatten(blocks[..b + 1]) == Flatten(blocks[..b]) + blocks[b]
  {
    assert blocks[..b + 1][..b] == blocks[..b];
  }

  /** One pass over the blocks and their instructions, as `extract_features`
      makes it: the memory and arithmetic tallies and the unit-stride flag. */
  method ScanInstructions(f: IrFunction) returns (mem: nat, flop: nat, unitStride: bool)
    ensures mem == MemCount(Flatten(f.blocks))
    ensures flop == FlopCount(Flatten(f.blocks))
    ensures unitStride == UnitStride(Flatten(f.blocks))
  {
    mem, flop, unitStride := 0, 0, true;
    var b := 0;
    while b < |f.blocks|
      invariant 0 <= b <= |f.blocks|
      invariant mem == MemCount(Flatten(f.blocks[..b]))
      invariant flop == FlopCount(Flatten(f.blocks[..b]))
      invariant unitStride == UnitStride(Flatten(f.blocks[..b]))
    {
      var block := f.blocks[b];
      ghost var done := Flatten(f.blocks[..b]);
      var i := 0;
      assert done + block[..0] == done;
      while i < |block|
        invariant 0 <= i <= |block|
        invariant mem == MemCount(done + block[..i])
        invariant flop == FlopCount(done + block[..i])
        invariant unitStride == UnitStride(done + block[..i])
      {
        var inst := block[i];
        ScanStep(done, block, i);
        if inst.opcode in MemOpcodes {
          mem := mem + 1;
        } else if inst.opcode in FlopOpcodes {
          flop := flop + 1;
        } else if inst.opcode == "getelementptr" {
          var idx := if |inst.operands| >= 2 then inst.operands[2..] else [];
          if (|idx| >= 1 && !idx[0].isConstant) || (|idx| >= 2 && !idx[1].isConstant) {
            unitStride := false;
          }
        }
        i := i + 1;
      }
      assert block[..i] == block;
      FlattenStep(f.blocks, b);
      b := b + 1;
    }
    assert f.blocks[..b] == f.blocks;
  }

  // ---------------------------------------------------------------------------
  // Loop depth from `opt -loop-info -analyze`
  // ---------------------------------------------------------------------------

  const OptCommand: seq<string> := ["opt", "-loop-info", "-analyze"]

  /** A line that `_get_loop_depth` reads a depth from. */
  predicate IsDepthLine(line: string)
  {
    Contains(line, "depth =")
  }

  /** `int(line.split()[-1])` for a depth line. */
  function LineDepth(line: string): (r: Option<int>)
    requires IsDepthLine(line)
  {
    var fs := Fields(line);
    DepthLineHasField(line);
    ParseInt(fs[|fs| - 1])
  }

  /** The ValueError `int()` raises, for a token without quotes or escapes. */
  function InvalidLiteral(token: string): PyError
  {
    ValueError("invalid literal for int() with base 10: '" + token + "'")
  }

  /** `split()` of a depth line is never empty, so `[-1]` exists. */
  lemma DepthLineHasField(line: string)
    requires IsDepthLine(line)
    ensures Fields(line) != []
  {
    var i :| 0 <= i <= |line| && OccursAt(line, "depth =", i);
    assert line[i] == line[i..i + 7][0] == 'd';
  }

  /** `max(... for line in lines if "depth =" in line, default=0)` with the
      largest value so far in `best`; the first token `int()` rejects ends the
      scan with its ValueError. */
  function DepthScan(lines: seq<string>, best: Option<int>): (r: Result<int, PyError>)
    ensures r.Err? ==> r.error.ValueError?
    ensures r.Ok? && best.Some? ==> best.value <= r.value
    decreases |lines|
  {
    if lines == [] then Ok(if best.None? then 0 else best.value)
    else if !IsDepthLine(lines[0]) then DepthScan(lines[1..], best)
    else
      var fs := Fields(lines[0]);
      DepthLineHasField(lines[0]);
      match ParseInt(fs[|fs| - 1])
      case None => Err(InvalidLiteral(fs[|fs| - 1]))
      case Some(v) => DepthScan(lines[1..], Some(if best.None? || v > best.value then v else best.value))
  }

  /** The depth that `_get_loop_depth` returns for the output of `opt`. */
  function OptLoopDepth(out: string): (r: Result<int, PyError>)
    ensures MaxOfDepthLines(SplitLines(out), r)
  {
    DepthScanFromStart(SplitLines(out));
    DepthScan(SplitLines(out), None)
  }

  /** `max(..., default=0)` over the depth lines: it fails, with ValueError,
      exactly when one of them does not parse; otherwise it bounds them all, is attained by one of
      them, and is 0 when there is none. */
  predicate MaxOfDepthLines(lines: seq<string>, r: Result<int, PyError>)
  {
    && (r.Err? ==> r.error.ValueError?)
    && (r.Ok? <==> forall i :: 0 <= i < |lines| && IsDepthLine(lines[i]) ==> LineDepth(lines[i]).Some?)
    && (r.Ok? ==> forall i :: 0 <= i < |lines| && IsDepthLine(lines[i]) ==> LineDepth(lines[i]).value <= r.value)
    && (r.Ok? && (exists i :: 0 <= i < |lines| && IsDepthLine(lines[i])) ==>
          exists i :: 0 <= i < |lines| && IsDepthLine(lines[i]) && LineDepth(lines[i]) == Some(r.value))
    && (r.Ok? && (forall i :: 0 <= i < |lines| ==> !IsDepthLine(lines[i])) ==> r.value == 0)
  }

  lemma DepthScanFromStart(lines: seq<string>)
    ensures MaxOfDepthLines(lines, DepthScan(lines, None))
  {
    DepthScanSpec(lines, None);
    var r := DepthScan(lines, None);
    if r.Ok? && exists i :: 0 <= i < |lines| && IsDepthLine(lines[i]) {
      var k :| 0 <= k < |lines| && IsDepthLine(lines[k]);
      assert !(forall i :: 0 <= i < |lines| ==> !IsDepthLine(lines[i]));
    }
  }

  /** What the scan computes: with a running maximum `best`, every depth line
      must parse, and the result is the largest of `best` and their values. */
  lemma {:induction false} DepthScanSpec(lines: seq<string>, best: Option<int>)
    ensures var r := DepthScan(lines, best);
      && (r.Err? ==> r.error.ValueError?)
      && (r.Ok? <==> forall i :: 0 <= i < |lines| && IsDepthLine(lines[i]) ==> LineDepth(lines[i]).Some?)
      && (r.Ok? ==> forall i :: 0 <= i < |lines| && IsDepthLine(lines[i]) ==> LineDepth(lines[i]).value <= r.value)
      && (r.Ok? && best.Some? ==> best.value <= r.value)
      && (r.Ok? ==>
            || (best.Some? && r.value == best.value)
            || (exists i :: 0 <= i < |lines| && IsDepthLine(lines[i]) && LineDepth(lines[i]) == Some(r.value))
            || (best.None? && r.value == 0 && forall i :: 0 <= i < |lines| ==> !IsDepthLine(lines[i])))
      && (r.Ok? && best.None? && (forall i :: 0 <= i < |lines| ==> !IsDepthLine(lines[i])) ==> r.value == 0)
    decreases |lines|
  {
    if lines != [] {
      var rest := lines[1..];
      assert forall i :: 1 <= i < |lines| ==> lines[i] == rest[i - 1];
      if !IsDepthLine(lines[0]) {
        DepthScanSpec(rest, best);
        var r := DepthScan(lines, best);
        if r.Ok? && !(best.Some? && r.value == best.value) {
          if exists i :: 0 <= i < |rest| && IsDepthLine(rest[i]) && LineDepth(rest[i]) == Some(r.value) {
            var i :| 0 <= i < |rest| && IsDepthLine(rest[i]) && LineDepth(rest[i]) == Some(r.value);
            assert lines[i + 1] == rest[i];
          }
        }
      } else {
        var v := LineDepth(lines[0]);
        if v.Some? {
          var best' := Some(if best.None? || v.value > best.value then v.value else best.value);
          DepthScanSpec(rest, best');
          var r := DepthScan(lines, best);
          assert r == DepthScan(rest, best');
          if r.Ok? {
            if exists i :: 0 <= i < |rest| && IsDepthLine(rest[i]) && LineDepth(rest[i]) == Some(r.value) {
              var i :| 0 <= i < |rest| && IsDepthLine(rest[i]) && LineDepth(rest[i]) == Some(r.value);
              assert lines[i + 1] == rest[i];
            }
          }
        }
      }
    }
  }

  // ---------------------------------------------------------------------------
  // Feature extraction
  // ---------------------------------------------------------------------------

  /** What `extract_features` yields for the functions of an already parsed
      and verified module, `opt` running LLVM's `opt` on a function's IR text
      (None standing for a failed run): StopIteration without a defined
      function, CalledProcessError when `opt` fails, the depth parser's error,
      or else the features of the first defined function. */
  predicate ExtractedFrom(functions: seq<IrFunction>, opt: string -> Option<string>, r: Result<Features, PyError>)
  {
    && (FirstDefined(functions).None? ==> r == Err(StopIteration))
    && (FirstDefined(functions).Some? ==>
      var f := FirstDefined(functions).value;
      var insts := Flatten(f.blocks);
      && (opt(f.text).None? ==> r == Err(CalledProcessError(OptCommand)))
      && (opt(f.text).Some? ==>
            && (OptLoopDepth(opt(f.text).value).Err? ==> r == Err(OptLoopDepth(opt(f.text).value).error))
            && (OptLoopDepth(opt(f.text).value).Ok? ==>
                  && r.Ok?
                  && (r.value.bound == Memory <==> MemCount(insts) > 2 * Max1(FlopCount(insts)))
                  && (r.value.bound == Compute <==> 2 * MemCount(insts) < Max1(FlopCount(insts)))
                  && r.value.memIntensity == Ratio(MemCount(insts), FlopCount(insts))
                  && r.value.loopDepth == OptLoopDepth(opt(f.text).value).value
                  && r.value.unitStride == UnitStride(insts))))
  }

  /** The description leaves no choice: at most one result meets it. */
  lemma ExtractedFromUnique(functions: seq<IrFunction>, opt: string -> Option<string>,
                            r1: Result<Features, PyError>, r2: Result<Features, PyError>)
    requires ExtractedFrom(functions, opt, r1) && ExtractedFrom(functions, opt, r2)
    ensures r1 == r2
  {
    if r1.Ok? && r2.Ok? {
      assert r1.value.bound == r2.value.bound by {
        if r1.value.bound == Mixed { assert r2.value.bound != Memory && r2.value.bound != Compute; }
      }
    }
  }

  /** `extract_features`: one scan over the first defined function, then the
      loop depth from `opt`. */
  method ExtractFeatures(functions: seq<IrFunction>, opt: string -> Option<string>) returns (r: Result<Features, PyError>)
    ensures ExtractedFrom(functions, opt, r)
  {
    var first := FirstDefined(functions);
    if first.None? {
      return Err(StopIteration);
    }
    var f := first.value;
    var mem, flop, unitStride := ScanInstructions(f);
    var memInt := Ratio(mem, flop);
    var out := opt(f.text);
    if out.None? {
      return Err(CalledProcessError(OptCommand));
    }
    var depth := OptLoopDepth(out.value);
    if depth.Err? {
      return Err(depth.error);
    }
    var bound := RatioBound(mem, flop);
    r := Ok(Features(bound, memInt, depth.value, unitStride));
  }

  // ---------------------------------------------------------------------------
  // Messages and reply
  // ---------------------------------------------------------------------------

  const SearchSpace: Json := JObject([
    ("OMP_NUM_THREADS", JArray([JInt(4), JInt(8), JInt(12), JInt(16), JInt(20), JInt(24), JInt(28), JInt(32), JInt(36), JInt(40), JInt(44), JInt(48)])),
    ("OMP_PROC_BIND", JArray([JStr("true"), JStr("false"), JStr("close"), JStr("spread")])),
    ("OMP_SCHEDULE", JArray([JStr("static"), JStr("dynamic"), JStr("guided")]))
  ])

  const SystemMsg: string :=
    "\n"
    + "You are an HPC kernel *seed\U{2011}picker* for an Intel Skylake\U{2011}SP node\n"
    + "with **2 \U{D7} 24 physical cores, SMT\U{202F}on (96 logical cores)**.\n"
    + "\n"
    + "Choose exactly **three** candidate values for each OpenMP knob that you\n"
    + "believe will minimise wall\U{2011}clock runtime **on this hardware**, given:\n"
    + "\n"
    + "  \U{2022} STATIC_FEATURES   \U{2013} contains\n"
    + "        \"bound\"          \U{2208} {\"compute\",\"memory\",\"mixed\"}\n"
    + "        \"mem_intensity\"  \U{2013} numeric load/store \U{F7} arithmetic ratio\n"
    + "        \"loop_depth\"     \U{2013} nesting depth (\U{2265}2 means perfectly\U{2011}nested)\n"
    + "  \U{2022} SEARCH_SPACE       \U{2013} legal values for each knob\n"
    + "\n"
    + "**Heuristics you MUST follow**\n"
    + "\n"
    + "1. Thread count (`OMP_NUM_THREADS`)\n"
    + "   \U{2500}\U{2500}\U{2500}\U{2500}\U{2500}\U{2500}\U{2500}\U{2500}\U{2500}\U{2500}\U{2500}\U{2500}\U{2500}\U{2500}\U{2500}\U{2500}\U{2500}\U{2500}\U{2500}\U{2500}\U{2500}\U{2500}\U{2500}\U{2500}\U{2500}\U{2500}\U{2500}\U{2500}\U{2500}\U{2500}\U{2500}\U{2500}\n"
    + "   a. Always include **48** (1\U{202F}thread\U{202F}/\U{202F}physical\U{2011}core)  \n"
    + "      \U{2013} list it *first* if `\"bound\":\"compute\"` or `\"loop_depth\">=2`.  \n"
    + "   b. If 48 is present and `\"bound\":\"compute\"`, put **44** second\n"
    + "      (leaves 2 cores free per socket).  \n"
    + "   c. Pick a lower value (32\U{2192}24\U{2192}16) only as third choice *unless*\n"
    + "      `\"bound\":\"memory\"` *and* `mem_intensity\U{202F}>\U{202F}2`.\n"
    + "\n"
    + "2. `OMP_PROC_BIND`\n"
    + "   \U{2022} `\"close\"` first (cache locality), `\"spread\"` second (bandwidth),\n"
    + "     `\"true\"` third as portable fallback.\n"
    + "\n"
    + "3. `OMP_SCHEDULE`\n"
    + "   \U{2022} If `loop_depth >= 2`  \U{2192} `\"static\"` first.  \n"
    + "   \U{2022} Otherwise             \U{2192} `\"guided\"` first, `\"dynamic\"` second.\n"
    + "\n"
    + "**Output ONLY the JSON** in the exact shape below, ranked best\U{202F}\U{2192}\U{202F}third:\n"
    + "\n"
    + "{\n"
    + "  \"OMP_NUM_THREADS\": [<int1>, <int2>, <int3>],\n"
    + "  \"OMP_PROC_BIND\" : [\"<str1>\", \"<str2>\", \"<str3>\"],\n"
    + "  \"OMP_SCHEDULE\"  : [\"<str1>\", \"<str2>\", \"<str3>\"]\n"
    + "}\n"
    + "\n"
    + "Think step\U{2011}by\U{2011}step internally, then emit just that JSON.\n"

  const ExampleBlock: string :=
    "EXAMPLE 1  (compute\U{2011}bound, deep loops)\n"
    + "STATIC_FEATURES:\n"
    + "{\"bound\":\"compute\",\"mem_intensity\":0.35,\"loop_depth\":3}\n"
    + "SEARCH_SPACE:\n"
    + "{\"OMP_NUM_THREADS\":[4,8,16,24,32,40,44,48],\n"
    + " \"OMP_PROC_BIND\":[\"true\",\"close\",\"spread\"],\n"
    + " \"OMP_SCHEDULE\":[\"static\",\"dynamic\",\"guided\"]}\n"
    + "\n"
    + "EXPECTED OUTPUT\n"
    + "{\n"
    + "  \"OMP_NUM_THREADS\": [48,44,32],\n"
    + "  \"OMP_PROC_BIND\": [\"close\",\"spread\",\"true\"],\n"
    + "  \"OMP_SCHEDULE\": [\"static\",\"guided\",\"dynamic\"]\n"
    + "}\n"
    + "\n"
    + "EXAMPLE 2  (memory\U{2011}bound, shallow loop)\n"
    + "STATIC_FEATURES:\n"
    + "{\"bound\":\"memory\",\"mem_intensity\":3.4,\"loop_depth\":1}\n"
    + "SEARCH_SPACE:\n"
    + "{\"OMP_NUM_THREADS\":[4,8,16,24,32,40,44,48],\n"
    + " \"OMP_PROC_BIND\":[\"true\",\"close\",\"spread\"],\n"
    + " \"OMP_SCHEDULE\":[\"static\",\"dynamic\",\"guided\"]}\n"
    + "\n"
    + "EXPECTED OUTPUT\n"
    + "{\n"
    + "  \"OMP_NUM_THREADS\": [32,24,16],\n"
    + "  \"OMP_PROC_BIND\": [\"spread\",\"close\",\"true\"],\n"
    + "  \"OMP_SCHEDULE\": [\"guided\",\"dynamic\",\"static\"]\n"
    + "}"

  const UserTemplate: Template := Template(
    "LLVM IR FEATURES:\n",
    "\n\nSEARCH_SPACE:\n",
    "\n\nEXPERIMENT_PLATFORM:\n"
    + "Intel Xeon Platinum\U{202F}8168\U{202F}\U{D7}\U{202F}2 (24\U{202F}cores/socket, SMT\U{202F}on, 96\U{202F}logical cores)\n\n"
    + "TASK:\nReturn the **ranked triple** for each knob that you predict will run fastest.\n"
    + "Remember the heuristics and output **only** the JSON.")

  /** The features as the dict `json.dumps` serialises, in key order. */
  function FeaturesJson(f: Features): Json
  {
    JObject([
      ("bound", JStr(SeedHfApi.BoundName(f.bound))), ("mem_intensity", JNum(f.memIntensity)),
      ("loop_depth", JInt(f.loopDepth)), ("unit_stride", JBool(f.unitStride))])
  }

  /** Each feature sits under its own key of the serialised dict. */
  lemma FeaturesJsonFields(f: Features)
    ensures var j := FeaturesJson(f);
      && j.JObject? && |j.fields| == 4
      && Lookup(j.fields, "bound") == Some(JStr(SeedHfApi.BoundName(f.bound)))
      && Lookup(j.fields, "mem_intensity") == Some(JNum(f.memIntensity))
      && Lookup(j.fields, "loop_depth") == Some(JInt(f.loopDepth))
      && Lookup(j.fields, "unit_stride") == Some(JBool(f.unitStride))
  {
    var fs := FeaturesJson(f).fields;
    LookupFirst(fs, 0);
    LookupFirst(fs, 1);
    LookupFirst(fs, 2);
    LookupFirst(fs, 3);
  }

  /** The user turn: the worked examples, a blank line, then the filled template. */
  function UserText(f: Features, dumps: (Json, DumpStyle) -> string): string
  {
    (ExampleBlock + "\n\n") + Fill(UserTemplate, dumps(FeaturesJson(f), Compact), dumps(SearchSpace, Compact))
  }

  /** Text put in front keeps a prefix a prefix. */
  lemma PrependKeepsPrefix(e: string, s: string, p: string)
    requires |p| <= |s| && s[..|p|] == p
    ensures StartsWith(e + s, e + p)
  {
    assert (e + s)[..|e + p|] == e + s[..|p|];
  }

  /** Equal texts with the same front part agree after it. */
  lemma DropCommonPrefix(e: string, s1: string, s2: string)
    requires e + s1 == e + s2
    ensures s1 == s2
  {
    assert s1 == (e + s1)[|e|..];
  }

  /** `build_messages`: the system message, then the user turn: the worked
      examples, a blank line, and the template filled with the compact
      features and search space. */
  function BuildMessages(f: Features, dumps: (Json, DumpStyle) -> string): (ms: seq<Message>)
    ensures |ms| == 2
    ensures ms[0] == Message("system", SystemMsg)
    ensures ms[1] == Message("user", (ExampleBlock + "\n\n")
                                     + Fill(UserTemplate, dumps(FeaturesJson(f), Compact), dumps(SearchSpace, Compact)))
    ensures StartsWith(ms[1].content, (ExampleBlock + "\n\n") + UserTemplate.head)
  {
    PrependKeepsPrefix(ExampleBlock + "\n\n", Fill(UserTemplate, dumps(FeaturesJson(f), Compact), dumps(SearchSpace, Compact)),
                       UserTemplate.head);
    [Message("system", SystemMsg), Message("user", UserText(f, dumps))]
  }

  /** The messages determine the compact serialisation of the features. */
  lemma BuildMessagesDetermineFeatures(f1: Features, f2: Features, dumps: (Json, DumpStyle) -> string)
    requires BuildMessages(f1, dumps) == BuildMessages(f2, dumps)
    ensures dumps(FeaturesJson(f1), Compact) == dumps(FeaturesJson(f2), Compact)
  {
    assert UserText(f1, dumps) == BuildMessages(f1, dumps)[1].content == UserText(f2, dumps);
    DropCommonPrefix(ExampleBlock + "\n\n", Fill(UserTemplate, dumps(FeaturesJson(f1), Compact), dumps(SearchSpace, Compact)),
                     Fill(UserTemplate, dumps(FeaturesJson(f2), Compact), dumps(SearchSpace, Compact)));
    FillInjective(UserTemplate, dumps(FeaturesJson(f1), Compact), dumps(FeaturesJson(f2), Compact), dumps(SearchSpace, Compact));
  }

  const BadJsonPrefix: string := "Bad JSON from OpenAI model:\n"

  /** `call_openai` after the API call: the stop-brace block is parsed, and a
      parse failure becomes RuntimeError carrying the reply. */
  function CallOpenAi(text: string, loads: string -> Option<Json>): (r: Result<Json, PyError>)
    ensures r.Ok? <==> loads(StopBraceBlock(text)).Some?
    ensures r.Ok? ==> r.value == loads(StopBraceBlock(text)).value
    ensures r.Err? ==> r.error == RuntimeError(BadJsonPrefix + text)
  {
    match loads(StopBraceBlock(text))
    case Some(j) => Ok(j)
    case None => Err(RuntimeError(BadJsonPrefix + text))
  }

  /** `pick_seeds`: features, messages, the chat call (`complete`) and the
      reply rule, each failure ending the run. */
  method PickSeeds(functions: seq<IrFunction>, opt: string -> Option<string>, complete: seq<Message> -> string,
                   loads: string -> Option<Json>, dumps: (Json, DumpStyle) -> string) returns (r: Result<Json, PyError>)
    ensures FirstDefined(functions).None? ==> r == Err(StopIteration)
    ensures exists feats ::
              && ExtractedFrom(functions, opt, feats)
              && (feats.Err? ==> r == Err(feats.error))
              && (feats.Ok? ==> r == CallOpenAi(complete(BuildMessages(feats.value, dumps)), loads))
  {
    var feats := ExtractFeatures(functions, opt);
    if feats.Err? {
      return Err(feats.error);
    }
    r := CallOpenAi(complete(BuildMessages(feats.value, dumps)), loads);
  }
}
