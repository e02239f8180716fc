/** One message turn of `RuntimeRoutedSession` (`src/agent-runtime/routed-session.ts`): preflight,
    provider capacity, prompts, model fallbacks, and what the turn emits. Everything the runtime or a
    canceller may do is an arbitrary script. */
module TurnSpec {

  datatype Act =
    | Started                   // message_started
    | Finished                  // message_finished
    | Failed                    // session_error
    | Prompted(attempt: nat)    // a prompt sent; attempt 0 carries the user's text

  /** A failure reported by the runtime; only provider failures may be answered by another model. */
  datatype Failure = Failure(provider: bool)

  /** What happens around one attempt. A `stop` is the check `disposed || inFlight.cancelled`
      finding something at that point of the code. */
  datatype Attempt = Attempt(
    stopAtTop: bool,
    whileSwitching: seq<Failure>,
    switchFails: bool,
    whileWaiting: seq<Failure>,
    leaseFails: bool,
    stopAtAdmission: bool,
    stopAfterStart: bool,
    whilePrompting: seq<Failure>,
    promptFails: bool,
    stopAfter: bool)

  datatype Preflight = Allowed | Rejected | Throws

  datatype Script = Script(
    stray: bool,                // a runtime failure came in since the last turn, before preflight settled
    preflight: Preflight,
    stopAfterPreflight: bool,
    stopBeforePrompt: bool,
    at: nat -> Attempt,
    whileRestoring: seq<Failure>,
    stopAtEnd: bool)

  /** `fallbacks` is the number of usable fallback models; 0 when models cannot be switched. */
  datatype Config = Config(fallbacks: nat, hasPrimary: bool)

  datatype Turn = Turn(failed: bool, pending: bool, suppress: bool, started: bool, trace: seq<Act>)

  function Emit(t: Turn, a: Act): Turn {
    t.(trace := t.trace + [a])
  }

  /** `emitRuntimeError`. */
  function EmitError(t: Turn): Turn {
    if t.failed then t else Emit(t.(failed := true), Failed)
  }

  /** `handleRuntimeFailure`. */
  function OnFailure(t: Turn, f: Failure): Turn {
    if t.suppress && f.provider then t.(pending := true) else EmitError(t)
  }

  function OnFailures(t: Turn, fs: seq<Failure>): Turn
    decreases |fs|
  {
    if fs == [] then t else OnFailures(OnFailure(t, fs[0]), fs[1..])
  }

  function Start(t: Turn): Turn {
    if t.started then t else Emit(t.(started := true), Started)
  }

  /** `promptWithinCapacity`; the flag says whether it threw. */
  function PromptWithinCapacity(t: Turn, k: nat, a: Attempt): (Turn, bool) {
    var t1 := OnFailures(t, a.whileWaiting);
    if a.leaseFails then (t1, true)
    else if a.stopAtAdmission then (t1, false)
    else if a.stopAfterStart then (Start(t1), false)
    else (OnFailures(Emit(Start(t1), Prompted(k)), a.whilePrompting), a.promptFails)
  }

  /** What the fallback loop leaves: the turn, whether it threw, whether the model was switched. */
  datatype Outcome = Outcome(turn: Turn, threw: bool, switched: bool)

  /** Attempts `k`, `k`+1, ... of the fallback loop; `failure` says that a final failure is recorded. */
  function Attempts(c: Config, s: Script, t: Turn, k: nat, failure: bool, switched: bool): Outcome
    decreases c.fallbacks + 1 - k
  {
    if k > c.fallbacks then Outcome(if failure then EmitError(t) else t, false, switched)
    else
      var a := s.at(k);
      if a.stopAtTop then Outcome(t, false, switched)
      else
        var t1 := if k > 0 then OnFailures(t, a.whileSwitching) else t;
        if k > 0 && a.switchFails then Attempts(c, s, t1, k + 1, failure, switched)
        else
          var (t2, threw) := PromptWithinCapacity(t1.(pending := false), k, a);
          if a.stopAfter then Outcome(t2, false, switched || k > 0)
          else if !t2.pending then Outcome(t2, threw, switched || k > 0)
          else Attempts(c, s, t2, k + 1, true, switched || k > 0)
  }

  /** `promptWithModelFallbacks`. */
  function PromptWithModelFallbacks(c: Config, s: Script, t: Turn): (Turn, bool) {
    if c.fallbacks == 0 then PromptWithinCapacity(t, 0, s.at(0))
    else
      var o := Attempts(c, s, t.(suppress := true), 0, false, false);
      var t1 := o.turn.(suppress := false, pending := false);
      (if o.switched && c.hasPrimary then OnFailures(t1, s.whileRestoring) else t1, o.threw)
  }

  function EndTurn(s: Script, t: Turn, threw: bool): Turn {
    if s.stopAtEnd then t
    else if threw then EmitError(t)
    else if t.failed then t
    else Emit(t, Finished)
  }

  /** `processQueuedMessage`. */
  function Process(c: Config, s: Script): Turn {
    var t := Turn(s.stray, false, false, false, []);
    if s.preflight == Throws then (if s.stopAtEnd then t else EmitError(t))
    else if s.stopAfterPreflight then t
    else if s.preflight == Rejected then Emit(t, Failed)
    else if s.stopBeforePrompt then t.(failed := false)
    else
      var (t1, threw) := PromptWithModelFallbacks(c, s, t.(failed := false));
      EndTurn(s, t1, threw)
  }

  function Trace(c: Config, s: Script): seq<Act> {
    Process(c, s).trace
  }
}
