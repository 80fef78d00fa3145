/** The language-model endpoint as the scripts see it. The HTTP probe and
    request are not modelled: `endpointUp` is the probe's verdict, and the
    oracle `reply(i, prompt)` is the "response" text the endpoint returns for
    task i, or None when the request raised. */
module Endpoint {
  import opened Wrappers
  import opened Text

  /** What task i ends up with. The reply is stripped, as call_ollama does.
      A failed call, or no endpoint at all, gives the fallback. */
  function Slot(endpointUp: bool, reply: (nat, string) -> Option<string>, i: nat, prompt: string, fallback: string): string {
    var answer := if endpointUp then reply(i, prompt) else None;
    if answer.Some? then Strip(answer.value) else fallback
  }
}
