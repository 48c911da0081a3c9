/**
 The Infrastructure Control client as a classifier of upstream answers (internal/infracontrol/client.go),
 and the state precondition of a mutation (internal/managed/state.go).
 */
module Infra {
  import opened Common
  import opened Tools
  import opened Api

  datatype VM = VM(vmid: int, name: string, status: string, uptime: int)

  datatype NetworkClass = NotNetwork | Timeout | Dns | Unclassified

  datatype InfraError = InfraError(code: string, status: int, networkClass: NetworkClass, unknown: bool)

  /** What the HTTP client hands back: a transport error, or a status with the decoded body. */
  datatype HttpReply =
    | TransportError(isTimeout: bool, isDns: bool)
    | Answer(status: int, errorCode: string, vm: Option<VM>)

  function Transport(isTimeout: bool, isDns: bool): InfraError {
    InfraError("upstream_request_failed", 0, if isDns then Dns else if isTimeout then Timeout else Unclassified, true)
  }

  function Known(code: string, status: int): InfraError {
    InfraError(code, status, NotNetwork, false)
  }

  function ParseError(status: int, errorCode: string): InfraError {
    Known(if errorCode == "" then "upstream_request_failed" else errorCode, status)
  }

  function GetVM(vmid: int, reply: HttpReply): Result<VM, InfraError> {
    match reply
    case TransportError(t, d) => Err(Transport(t, d))
    case Answer(status, code, vm) =>
      if status != 200 then Err(ParseError(status, code))
      else if vm.None? || vm.value.vmid != vmid || vm.value.status == "" then
        Err(Known("invalid_upstream_response", status))
      else Ok(vm.value)
  }

  /** The accepted status, or an error that says whether the mutation may have happened. */
  function Mutate(action: Action, reply: HttpReply): Result<int, InfraError> {
    if action == Get then Err(Known("invalid_action", 0))
    else match reply
      case TransportError(t, d) => Err(Transport(t, d))
      case Answer(status, code, _) => if status != 202 then Err(ParseError(status, code)) else Ok(status)
  }

  function ToApiError(e: InfraError): ApiError {
    ApiError(UpstreamCode(e.code), if e.networkClass == Timeout then 504 else 502)
  }

  /** Only a 202 is an acceptance, only a transport failure leaves the outcome unknown, and the two never meet. */
  lemma OutcomesArePartitioned(action: Action, reply: HttpReply)
    requires action != Get
    ensures Mutate(action, reply).Ok? <==> reply.Answer? && reply.status == 202
    ensures Mutate(action, reply).Err? && Mutate(action, reply).error.unknown <==> reply.TransportError?
    ensures Mutate(action, reply).Err? ==>
              (ToApiError(Mutate(action, reply).error).status == 504 <==>
               reply.TransportError? && reply.isTimeout && !reply.isDns)
  {
  }

  /** Exactly when the GET gives a VM, and what each failure is. */
  lemma GetIsExact(vmid: int, reply: HttpReply)
    ensures forall vm :: GetVM(vmid, reply) == Ok(vm) <==>
              reply.Answer? && reply.status == 200 && reply.vm == Some(vm) && vm.vmid == vmid && vm.status != ""
    ensures GetVM(vmid, reply).Err? ==>
              var e := GetVM(vmid, reply).error;
              && (e.unknown <==> reply.TransportError?)
              && (reply.Answer? && reply.status == 200 <==> e.code == "invalid_upstream_response" && e.status == 200)
              && (reply.Answer? && reply.status != 200 ==> IsUpstreamError(e, reply.status, reply.errorCode))
              && (reply.TransportError? ==> IsTransportError(e, reply.isTimeout, reply.isDns))
              && (reply.Answer? ==> e.networkClass == NotNetwork)
              && (ToApiError(e).status == 504 <==> reply.TransportError? && reply.isTimeout && !reply.isDns)
              && (ToApiError(e).status != 504 ==> ToApiError(e).status == 502)
              && ToApiError(e).code == UpstreamCode(e.code)
  {
  }

  /** Exactly when a mutation is accepted, and what each failure is; a query is never sent as one. */
  lemma MutateIsExact(action: Action, reply: HttpReply)
    ensures forall status :: Mutate(action, reply) == Ok(status) <==>
              action != Get && reply.Answer? && reply.status == 202 == status
    ensures action == Get ==> Mutate(action, reply) == Err(InfraError("invalid_action", 0, NotNetwork, false))
    ensures action != Get && reply.TransportError? ==>
              Mutate(action, reply).Err? && IsTransportError(Mutate(action, reply).error, reply.isTimeout, reply.isDns)
    ensures action != Get && reply.Answer? && reply.status != 202 ==>
              Mutate(action, reply).Err? && IsUpstreamError(Mutate(action, reply).error, reply.status, reply.errorCode)
  {
  }

  /** The error of an answer with another status: its own code if it has one, and a known outcome. */
  predicate IsUpstreamError(e: InfraError, status: int, errorCode: string) {
    && e.status == status && e.networkClass == NotNetwork && !e.unknown
    && (errorCode != "" ==> e.code == errorCode)
    && (errorCode == "" ==> e.code == "upstream_request_failed")
  }

  /** The error of a request that got no answer: its outcome is unknown, and a DNS failure is no timeout. */
  predicate IsTransportError(e: InfraError, isTimeout: bool, isDns: bool) {
    && e.code == "upstream_request_failed" && e.status == 0 && e.unknown
    && (e.networkClass == Dns <==> isDns)
    && (e.networkClass == Timeout <==> isTimeout && !isDns)
    && e.networkClass != NotNetwork
  }

  datatype Decision = Execute | Refuse(message: Notice)

  /** The fixed texts of a response, by what they say. */
  datatype Notice =
    | Blank
    | Report(vmid: int, name: string, status: string, uptime: int)
    | Submitted(action: Action, vmid: int)
    | AlreadyIn(status: string, action: Action, vmid: int)

  function CheckState(action: Action, state: string, vmid: int): Decision {
    if !MetadataOf(action).mutation then Refuse(Blank)
    else if state == MetadataOf(action).requiredState then Execute
    else Refuse(AlreadyIn(state, action, vmid))
  }
}
