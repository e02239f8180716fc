/** The turn methods of `RuntimeRoutedSession` over the fields they update, with the fallback loop as
    the source has it. Each method is proved to do what TurnSpec says. */
module TurnRunner {
  import opened TurnSpec

  class ActiveTurn {
    var activeMessageFailed: bool
    var pendingProviderFailure: bool
    var suppressProviderFailures: bool
    var started: bool
    var emitted: seq<Act>

    function View(): Turn
      reads this
    {
      Turn(activeMessageFailed, pendingProviderFailure, suppressProviderFailures, started, emitted)
    }

    constructor (stray: bool)
      ensures View() == Turn(stray, false, false, false, [])
    {
      activeMessageFailed, pendingProviderFailure, suppressProviderFailures := stray, false, false;
      started, emitted := false, [];
    }

    method EmitRuntimeError()
      modifies this
      ensures View() == EmitError(old(View()))
    {
      if activeMessageFailed {
        return;
      }
      activeMessageFailed := true;
      emitted := emitted + [Failed];
    }

    method HandleRuntimeFailure(failure: Failure)
      modifies this
      ensures View() == OnFailure(old(View()), failure)
    {
      if suppressProviderFailures && failure.provider {
        pendingProviderFailure := true;
        return;
      }
      EmitRuntimeError();
    }

    /** The runtime reports these failures, one after the other. */
    method HandleFailures(failures: seq<Failure>)
      modifies this
      ensures View() == OnFailures(old(View()), failures)
    {
      for i := 0 to |failures|
        invariant OnFailures(View(), failures[i..]) == OnFailures(old(View()), failures)
      {
        HandleRuntimeFailure(failures[i]);
        assert failures[i..][1..] == failures[i + 1..];
      }
    }

    method DoPromptWithinCapacity(k: nat, a: Attempt) returns (threw: bool)
      modifies this
      ensures (View(), threw) == PromptWithinCapacity(old(View()), k, a)
    {
      HandleFailures(a.whileWaiting);
      if a.leaseFails {
        return true;
      }
      if a.stopAtAdmission {
        return false;
      }
      if !started {
        started := true;
        emitted := emitted + [Started];
      }
      if a.stopAfterStart {
        return false;
      }
      emitted := emitted + [Prompted(k)];
      HandleFailures(a.whilePrompting);
      threw := a.promptFails;
    }

    /** The `try` block of `promptWithModelFallbacks`. */
    method TryModels(c: Config, s: Script) returns (threw: bool, switched: bool)
      modifies this
      ensures Outcome(View(), threw, switched) == Attempts(c, s, old(View()), 0, false, false)
    {
      threw, switched := false, false;
      var failure := false;
      var attempt: nat := 0;
      while attempt <= c.fallbacks
        invariant attempt <= c.fallbacks + 1 && !threw
        invariant Attempts(c, s, View(), attempt, failure, switched) == Attempts(c, s, old(View()), 0, false, false)
      {
        var a := s.at(attempt);
        if a.stopAtTop {
          return;
        }
        if attempt > 0 {
          HandleFailures(a.whileSwitching);
          if a.switchFails {
            attempt := attempt + 1;
            continue;
          }
          switched := true;
        }
        pendingProviderFailure := false;
        var promptError := DoPromptWithinCapacity(attempt, a);
        if a.stopAfter {
          return;
        }
        if !pendingProviderFailure {
          threw := promptError;
          return;
        }
        failure := true;
        attempt := attempt + 1;
      }
      if failure {
        EmitRuntimeError();
      }
    }

    method DoPromptWithModelFallbacks(c: Config, s: Script) returns (threw: bool)
      modifies this
      ensures (View(), threw) == PromptWithModelFallbacks(c, s, old(View()))
    {
      if c.fallbacks == 0 {
        threw := DoPromptWithinCapacity(0, s.at(0));
        return;
      }
      suppressProviderFailures := true;
      var switched;
      threw, switched := TryModels(c, s);
      suppressProviderFailures := false;
      pendingProviderFailure := false;
      if switched && c.hasPrimary {
        HandleFailures(s.whileRestoring);
      }
    }

    method ProcessQueuedMessage(c: Config, s: Script)
      requires View() == Turn(s.stray, false, false, false, [])
      modifies this
      ensures View() == Process(c, s) && emitted == Trace(c, s)
    {
      if s.preflight == Throws {
        if !s.stopAtEnd {
          EmitRuntimeError();
        }
        return;
      }
      if s.stopAfterPreflight {
        return;
      }
      if s.preflight == Rejected {
        emitted := emitted + [Failed];
        return;
      }
      activeMessageFailed := false;
      if s.stopBeforePrompt {
        return;
      }
      var threw := DoPromptWithModelFallbacks(c, s);
      if s.stopAtEnd {
        return;
      }
      if threw {
        EmitRuntimeError();
      } else if !activeMessageFailed {
        emitted := emitted + [Finished];
      }
    }
  }
}
