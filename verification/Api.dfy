/** Errors returned to API clients: the stable code and the HTTP status. */
module Api {

  datatype Code =
    | ModelNotReady | UserMessageRequired | ModelNotFound
    | InvalidVmid | SingleVmidRequired | ComplexManagedCommand | MultipleActions
    | InvalidToolCall | VmidMismatch | AmbiguousManagedCommand | NegatedMutation | ForceStopDisabled
    | UpstreamRequestFailed
    | UpstreamCode(code: string)
    | SelectorCode(code: string)

  datatype ApiError = ApiError(code: Code, status: int)
}
