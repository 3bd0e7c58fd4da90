/** The seed-picker agent of the agent pipeline: it sends the generated prompt
    to a chat model and parses the text between the reply's first `{` and its
    last `}`. The chat call is a parameter (`complete`). */
module SeedPicker {
  import opened Wrappers
  import opened Exceptions
  import opened Json
  import opened Text
  import opened Chat
  import opened JsonBlocks

  const DefaultModel: string := "google/gemma-7b-it"
  const SystemText: string := "You are a helpful agent following the user's optimisation task."
  const ParseFailure: string := "Failed to parse parameters from model output:\n"

  /** The request `pick_parameters` sends. */
  function PickRequest(modelName: string, promptText: string): (q: Request)
    ensures q.model == modelName && q.temperature == 0.2
    ensures |q.messages| == 2
    ensures q.messages[0].role == "system" && q.messages[1] == Message("user", promptText)
  {
    Request(modelName, [Message("system", SystemText), Message("user", promptText)], 0.2)
  }

  /** `pick_parameters`: any failure of `index`, `rindex` or `json.loads`
      becomes one ValueError carrying the whole reply; a parsed value is
      returned as it is. */
  function PickParameters(modelName: string, promptText: string, complete: Request -> string,
                          loads: string -> Option<Json>): (r: Result<Json, PyError>)
    ensures var raw := complete(PickRequest(modelName, promptText));
      && (r.Ok? <==> FirstLastSlice(raw).Some? && loads(FirstLastSlice(raw).value).Some?)
      && (r.Ok? ==> r.value == loads(FirstLastSlice(raw).value).value)
      && (r.Err? ==> r.error == ValueError(ParseFailure + raw))
  {
    var raw := complete(PickRequest(modelName, promptText));
    match FirstLastSlice(raw)
    case None => Err(ValueError(ParseFailure + raw))
    case Some(block) =>
      match loads(block)
      case Some(params) => Ok(params)
      case None => Err(ValueError(ParseFailure + raw))
  }

  /** A reply without `{` or without `}` is rejected. */
  lemma MissingBraceFails(modelName: string, promptText: string, complete: Request -> string, loads: string -> Option<Json>)
    requires var raw := complete(PickRequest(modelName, promptText)); '{' !in raw || '}' !in raw
    ensures PickParameters(modelName, promptText, complete, loads).Err?
  {
  }

  /** A reply whose last `}` comes before its first `{` slices to the empty
      text, which `json.loads` rejects. */
  lemma InvertedBracesFail(modelName: string, promptText: string, complete: Request -> string, loads: string -> Option<Json>)
    requires loads([]) == None
    requires var raw := complete(PickRequest(modelName, promptText));
      '{' in raw && '}' in raw && !HasBracePair(raw)
    ensures PickParameters(modelName, promptText, complete, loads).Err?
  {
  }

  /** What is parsed starts with the first `{` and ends with the last `}`. */
  lemma ParsedBlockShape(raw: string)
    requires HasBracePair(raw)
    ensures FirstLastSlice(raw).Some?
    ensures var v := FirstLastSlice(raw).value;
      |v| >= 2 && v[0] == '{' && v[|v| - 1] == '}'
  {
    var i, j :| 0 <= i < j < |raw| && raw[i] == '{' && raw[j] == '}';
    assert '{' in raw && '}' in raw;
    var v := FirstLastSlice(raw).value;
    var a :| BlockAt(raw, v, a);
    assert v[0] == raw[a];
  }
}
