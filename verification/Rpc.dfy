/** JSON-RPC messages as proxyd sees them. Identifiers and results are kept as their JSON text. */
module Rpc {
  import opened Common

  datatype Json = JString(s: string) | JBool(b: bool) | JOther

  /** `params` is `None` when the text is not a JSON list; an absent identifier is the empty text. */
  datatype RPCReq = RPCReq(jsonrpc: string, method_: string, params: Option<seq<Json>>, id: string)

  datatype RPCErr = RPCErr(code: int, message: string, httpCode: nat)

  datatype RPCRes = RPCRes(jsonrpc: string, result: Option<string>, error: Option<RPCErr>, id: string)

  const VERSION := "2.0"
  const ERROR_INTERNAL := -32000

  const ErrParse := RPCErr(-32700, "parse error", 400)
  const ErrNotWhitelisted := RPCErr(ERROR_INTERNAL - 1, "rpc method is not whitelisted", 403)
  const ErrNoBackends := RPCErr(ERROR_INTERNAL - 11, "no backends available for method", 503)
  const ErrOverRateLimit := RPCErr(ERROR_INTERNAL - 16, "over rate limit", 429)

  function ErrInvalidRequest(msg: string): RPCErr { RPCErr(-32600, msg, 400) }

  function ErrorRes(id: string, err: RPCErr): RPCRes { RPCRes(VERSION, None, Some(err), id) }

  function ResultRes(jsonrpc: string, id: string, result: string): RPCRes { RPCRes(jsonrpc, Some(result), None, id) }

  predicate IsValidID(id: string) {
    if |id| > 0 && id[0] == '"' && id[|id| - 1] == '"' then |id| > 2
    else |id| > 0 && id[0] != '{' && id[0] != '['
  }

  function Validate(req: RPCReq): Option<RPCErr> {
    if req.jsonrpc != VERSION then Some(ErrInvalidRequest("invalid JSON-RPC version"))
    else if req.method_ == "" then Some(ErrInvalidRequest("no method specified"))
    else if !IsValidID(req.id) then Some(ErrInvalidRequest("invalid ID"))
    else None
  }

  /** The identifiers that are refused: nothing, an empty string with or without its closing quote, objects, lists. */
  lemma InvalidIDIff(id: string)
    ensures !IsValidID(id) <==> id == "" || id == "\"" || id == "\"\"" || id[0] == '{' || id[0] == '['
  {
    if |id| == 1 { assert id == [id[0]]; }
    if |id| == 2 { assert id == [id[0], id[1]]; }
  }

  /** The first of the three faults is reported, as a bad request. */
  lemma ValidateIs(req: RPCReq)
    ensures Validate(req).None? <==> req.jsonrpc == "2.0" && req.method_ != "" && IsValidID(req.id)
    ensures Validate(req).Some? ==> Validate(req).value.code == -32600 && Validate(req).value.httpCode == 400
    ensures req.jsonrpc != "2.0" ==> Validate(req).value.message == "invalid JSON-RPC version"
    ensures req.jsonrpc == "2.0" && req.method_ == "" ==> Validate(req).value.message == "no method specified"
    ensures req.jsonrpc == "2.0" && req.method_ != "" && !IsValidID(req.id) ==> Validate(req).value.message == "invalid ID"
  {
  }
}
