/** How a turn ends, and which prompts it sends. */
module TurnEnds {
  // Both are read off the script, without the turn's flags and without what it emits.

  import opened TurnSpec
  import opened TurnLaws

  /** What the prompts come to: all is well, something was thrown, an error was reported, or nothing is said. */
  datatype End = Passed | Raised | Told | Silent

  /** The attempt gets as far as its prompt. */
  predicate SendsPrompt(a: Attempt) {
    !a.leaseFails && !a.stopAtAdmission && !a.stopAfterStart
  }

  predicate StartsTurn(a: Attempt) {
    !a.leaseFails && !a.stopAtAdmission
  }

  /** What the runtime reports around one prompt. */
  function Meets(a: Attempt): seq<Failure> {
    a.whileWaiting + if SendsPrompt(a) then a.whilePrompting else []
  }

  predicate Breaks(a: Attempt) {
    a.leaseFails || (SendsPrompt(a) && a.promptFails)
  }

  /** How the fallback loop ends from attempt `k` on, and whether it leaves another model behind. */
  function LoopEnd(c: Config, s: Script, k: nat, switched: bool): (End, bool)
    decreases c.fallbacks + 1 - k
  {
    if k > c.fallbacks then (Told, switched)
    else
      var a := s.at(k);
      if a.stopAtTop then (Passed, switched)
      else if k > 0 && !OnlyProviderFailures(a.whileSwitching) then (Told, switched)
      else if k > 0 && a.switchFails then LoopEnd(c, s, k + 1, switched)
      else if !OnlyProviderFailures(Meets(a)) then (Told, switched)
      else if a.stopAfter then (Passed, switched || k > 0)
      else if Meets(a) != [] then LoopEnd(c, s, k + 1, switched || k > 0)
      else (if Breaks(a) then Raised else Passed, switched || k > 0)
  }

  function PromptsEnd(c: Config, s: Script): End {
    if c.fallbacks == 0 then
      if Meets(s.at(0)) != [] then Told else if Breaks(s.at(0)) then Raised else Passed
    else
      var (end, switched) := LoopEnd(c, s, 0, false);
      if RestoresQuietly(c, s, switched) then end else Told
  }

  function TurnEnd(c: Config, s: Script): End {
    if s.preflight == Throws then if s.stray then Silent else Raised
    else if s.stopAfterPreflight then Silent
    else if s.preflight == Rejected then Told
    else if s.stopBeforePrompt then Silent
    else PromptsEnd(c, s)
  }

  // ----- One prompt -----

  lemma {:induction false} JoinFailures(t: Turn, fs: seq<Failure>, gs: seq<Failure>)
    ensures OnFailures(t, fs + gs) == OnFailures(OnFailures(t, fs), gs)
    decreases |fs|
  {
    if fs == [] {
      assert fs + gs == gs;
    } else {
      assert (fs + gs)[1..] == fs[1..] + gs && (fs + gs)[0] == fs[0];
      JoinFailures(OnFailure(t, fs[0]), fs[1..], gs);
    }
  }

  lemma OnlyJoined(fs: seq<Failure>, gs: seq<Failure>)
    ensures OnlyProviderFailures(fs + gs) <==> OnlyProviderFailures(fs) && OnlyProviderFailures(gs)
  {
    assert forall f :: f in fs + gs <==> f in fs || f in gs;
  }

  /** While models are tried, a prompt's failures are held back, unless one of them is not the provider's. */
  lemma PromptHeld(t: Turn, k: nat, a: Attempt)
    requires t.suppress && !t.failed && !t.pending
    ensures var (t', threw) := PromptWithinCapacity(t, k, a);
            && threw == Breaks(a) && t'.suppress && (t'.failed <==> !OnlyProviderFailures(Meets(a)))
            && (OnlyProviderFailures(Meets(a)) ==> (t'.pending <==> Meets(a) != []))
  {
    var t1 := OnFailures(t, a.whileWaiting);
    HeldBack(t, a.whileWaiting);
    FlagsStay(t, a.whileWaiting);
    OnlyJoined(a.whileWaiting, if SendsPrompt(a) then a.whilePrompting else []);
    if SendsPrompt(a) {
      var t2 := Emit(Start(t1), Prompted(k));
      FlagsStay(t2, a.whilePrompting);
      if !t1.failed {
        HeldBack(t2, a.whilePrompting);
      }
    }
    hide OnlyProviderFailures, OnFailures;
  }

  /** With no other model to try, every failure is reported. */
  lemma PromptTold(t: Turn, k: nat, a: Attempt)
    requires !t.suppress && !t.failed
    ensures var (t', threw) := PromptWithinCapacity(t, k, a); threw == Breaks(a) && (t'.failed <==> Meets(a) != [])
  {
    var t1 := OnFailures(t, a.whileWaiting);
    Reported(t, a.whileWaiting);
    FlagsStay(t, a.whileWaiting);
    if SendsPrompt(a) {
      var t2 := Emit(Start(t1), Prompted(k));
      FlagsStay(t2, a.whilePrompting);
      if !t1.failed {
        Reported(t2, a.whilePrompting);
      }
    }
    hide OnFailures;
  }

  // ----- The fallback loop -----

  ghost predicate EndsLike(o: Outcome, end: End, switched: bool) {
    && (end == Told <==> o.turn.failed)
    && (!o.turn.failed ==> (end == Raised <==> o.threw) && o.switched == switched)
    && end != Silent
  }

  lemma {:induction false} LoopEnds(c: Config, s: Script, t: Turn, k: nat, failure: bool, switched: bool)
    requires t.suppress && !t.failed && k <= c.fallbacks + 1 && (k == 0 || failure)
    ensures var (end, left) := LoopEnd(c, s, k, switched); EndsLike(Attempts(c, s, t, k, failure, switched), end, left)
    decreases c.fallbacks + 1 - k
  {
    hide PromptWithinCapacity, OnlyProviderFailures, OnFailures, Meets, Breaks;
    if k <= c.fallbacks && !s.at(k).stopAtTop {
      var a := s.at(k);
      var t1 := if k > 0 then OnFailures(t, a.whileSwitching) else t;
      HeldBack(t, a.whileSwitching);
      FlagsStay(t, a.whileSwitching);
      if t1.failed {
        FailedStays(c, s, t, k, failure, switched);
      } else if k > 0 && a.switchFails {
        LoopEnds(c, s, t1, k + 1, failure, switched);
      } else {
        var t2 := PromptWithinCapacity(t1.(pending := false), k, a).0;
        PromptHeld(t1.(pending := false), k, a);
        AttemptsStay(c, s, t2, k + 1, true, switched || k > 0);
        if !t2.failed {
          LoopEnds(c, s, t2, k + 1, true, switched || k > 0);
        }
      }
    }
  }

  lemma PromptsEndLike(c: Config, s: Script, t: Turn)
    requires !t.suppress && !t.failed
    ensures var (t1, threw) := PromptWithModelFallbacks(c, s, t);
            && (PromptsEnd(c, s) == Told <==> t1.failed) && (!t1.failed ==> (PromptsEnd(c, s) == Raised <==> threw))
            && PromptsEnd(c, s) != Silent
  {
    hide Attempts, LoopEnd, PromptWithinCapacity, Meets, Breaks;
    if c.fallbacks == 0 {
      PromptTold(t, 0, s.at(0));
    } else {
      LoopEnds(c, s, t.(suppress := true), 0, false, false);
      var o := Attempts(c, s, t.(suppress := true), 0, false, false);
      var t1 := o.turn.(suppress := false, pending := false);
      FlagsStay(t1, s.whileRestoring);
      if !t1.failed {
        Reported(t1, s.whileRestoring);
      }
    }
  }

  /**
   * Exactly how every turn ends, whatever stops it: it is reported finished when its prompts come to a good end that
   * no stop follows, and failed when an error was reported on the way or something was thrown that no stop covers.
   */
  lemma EndsExactly(c: Config, s: Script)
    ensures Finished in Trace(c, s) <==> TurnEnd(c, s) == Passed && !s.stopAtEnd
    ensures Failed in Trace(c, s) <==> TurnEnd(c, s) == Told || (TurnEnd(c, s) == Raised && !s.stopAtEnd)
  {
    hide PromptWithModelFallbacks, PromptsEnd;
    var t := Turn(false, false, false, false, []);
    if s.preflight == Allowed && !s.stopAfterPreflight && !s.stopBeforePrompt {
      FreshLived(c.fallbacks);
      FallbacksKeep(c, s, t);
      PromptsEndLike(c, s, t);
      var (t1, threw) := PromptWithModelFallbacks(c, s, t);
      InTrace(t1.trace, Failed);
      InTrace(t1.trace, Finished);
    }
  }

  // ----- Which prompts go out -----

  /** The fallback loop, at attempt `j`, comes to make attempt `k`. */
  predicate Makes(c: Config, s: Script, j: nat, k: nat)
    decreases c.fallbacks + 1 - j
  {
    if j > k || j > c.fallbacks || s.at(j).stopAtTop then false
    else if j > 0 && s.at(j).switchFails then Makes(c, s, j + 1, k)
    else j == k || (!s.at(j).stopAfter && HasProviderFailure(Meets(s.at(j))) && Makes(c, s, j + 1, k))
  }

  predicate MakesAttempt(c: Config, s: Script, k: nat) {
    && s.preflight == Allowed && !s.stopAfterPreflight && !s.stopBeforePrompt
    && if c.fallbacks == 0 then k == 0 else Makes(c, s, 0, k)
  }

  lemma {:induction false} FailuresSay(t: Turn, fs: seq<Failure>, a: Act)
    requires !a.Failed?
    ensures a in OnFailures(t, fs).trace <==> a in t.trace
    ensures OnFailures(t, fs).started == t.started
    decreases |fs|
  {
    if fs != [] {
      FailuresSay(OnFailure(t, fs[0]), fs[1..], a);
    }
  }

  lemma {:induction false} FailuresPend(t: Turn, fs: seq<Failure>)
    requires t.suppress
    ensures OnFailures(t, fs).pending <==> t.pending || HasProviderFailure(fs)
    ensures OnFailures(t, fs).suppress
    decreases |fs|
  {
    if fs != [] {
      FailuresPend(OnFailure(t, fs[0]), fs[1..]);
      assert HasProviderFailure(fs) <==> fs[0].provider || HasProviderFailure(fs[1..]) by {
        assert fs == [fs[0]] + fs[1..];
      }
    }
  }

  lemma PromptSays(t: Turn, k: nat, a: Attempt)
    requires t.started <==> Started in t.trace
    ensures var t' := PromptWithinCapacity(t, k, a).0;
            && (t'.started <==> Started in t'.trace) && (t'.started <==> t.started || StartsTurn(a))
            && (forall m: nat :: Prompted(m) in t'.trace <==> Prompted(m) in t.trace || (m == k && SendsPrompt(a)))
  {
    var t1 := OnFailures(t, a.whileWaiting);
    FailuresSay(t, a.whileWaiting, Started);
    var t2 := Emit(Start(t1), Prompted(k));
    FailuresSay(t2, a.whilePrompting, Started);
    forall m: nat
      ensures Prompted(m) in PromptWithinCapacity(t, k, a).0.trace <==> Prompted(m) in t.trace || (m == k && SendsPrompt(a))
    {
      FailuresSay(t, a.whileWaiting, Prompted(m));
      FailuresSay(t2, a.whilePrompting, Prompted(m));
    }
  }

  lemma PromptPends(t: Turn, k: nat, a: Attempt)
    requires t.suppress && !t.pending
    ensures var t' := PromptWithinCapacity(t, k, a).0; t'.suppress && (t'.pending <==> HasProviderFailure(Meets(a)))
  {
    var t1 := OnFailures(t, a.whileWaiting);
    FailuresPend(t, a.whileWaiting);
    FailuresPend(Emit(Start(t1), Prompted(k)), a.whilePrompting);
    assert forall f :: f in Meets(a) <==> f in a.whileWaiting || (SendsPrompt(a) && f in a.whilePrompting);
  }

  /** The prompts among what is emitted from attempt `j` on. */
  lemma {:induction false} LoopPrompts(c: Config, s: Script, t: Turn, j: nat, failure: bool, switched: bool, m: nat)
    requires t.suppress && (t.started <==> Started in t.trace)
    ensures var t' := Attempts(c, s, t, j, failure, switched).turn;
            && (t'.started <==> Started in t'.trace)
            && (Prompted(m) in t'.trace <==> Prompted(m) in t.trace || (Makes(c, s, j, m) && SendsPrompt(s.at(m))))
            && (t'.started <==> t.started || exists k: nat :: Makes(c, s, j, k) && StartsTurn(s.at(k)))
    decreases c.fallbacks + 1 - j
  {
    hide PromptWithinCapacity, OnFailures, HasProviderFailure, Meets;
    if j <= c.fallbacks && !s.at(j).stopAtTop {
      var a := s.at(j);
      var t1 := if j > 0 then OnFailures(t, a.whileSwitching) else t;
      FailuresSay(t, a.whileSwitching, Started);
      FailuresSay(t, a.whileSwitching, Prompted(m));
      FlagsStay(t, a.whileSwitching);
      if j > 0 && a.switchFails {
        LoopPrompts(c, s, t1, j + 1, failure, switched, m);
        MakesLater(c, s, j);
      } else {
        var t2 := PromptWithinCapacity(t1.(pending := false), j, a).0;
        PromptSays(t1.(pending := false), j, a);
        PromptPends(t1.(pending := false), j, a);
        LoopPrompts(c, s, t2, j + 1, true, switched || j > 0, m);
        MakesLater(c, s, j);
      }
    } else {
      assert forall k: nat :: !Makes(c, s, j, k);
    }
  }

  lemma MakesLater(c: Config, s: Script, j: nat)
    ensures !Makes(c, s, j + 1, j)
    ensures j <= c.fallbacks && !s.at(j).stopAtTop ==>
              forall k: nat :: Makes(c, s, j, k) <==>
                if j > 0 && s.at(j).switchFails then Makes(c, s, j + 1, k)
                else k == j || (!s.at(j).stopAfter && HasProviderFailure(Meets(s.at(j))) && Makes(c, s, j + 1, k))
  {
    hide HasProviderFailure, Meets;
  }

  lemma TurnPrompts(c: Config, s: Script, t: Turn, m: nat)
    requires !t.suppress && t.trace == [] && !t.started
    ensures var t' := PromptWithModelFallbacks(c, s, t).0;
            && (Prompted(m) in t'.trace <==>
                  (if c.fallbacks == 0 then m == 0 else Makes(c, s, 0, m)) && SendsPrompt(s.at(m)))
            && (Started in t'.trace <==>
                  exists k: nat :: (if c.fallbacks == 0 then k == 0 else Makes(c, s, 0, k)) && StartsTurn(s.at(k)))
  {
    hide Attempts, PromptWithinCapacity, SendsPrompt, StartsTurn, Makes;
    if c.fallbacks == 0 {
      PromptSays(t, 0, s.at(0));
    } else {
      LoopPrompts(c, s, t.(suppress := true), 0, false, false, m);
      var t1 := Attempts(c, s, t.(suppress := true), 0, false, false).turn.(suppress := false, pending := false);
      FailuresSay(t1, s.whileRestoring, Prompted(m));
      FailuresSay(t1, s.whileRestoring, Started);
    }
  }

  /**
   * Exactly which prompts every turn sends, and whether it starts: an attempt is made when all before it met a provider
   * failure or could not switch and no stop came between; it sends its prompt unless its lease fails or a stop is seen.
   */
  lemma PromptsExactly(c: Config, s: Script, m: nat)
    ensures Prompted(m) in Trace(c, s) <==> MakesAttempt(c, s, m) && SendsPrompt(s.at(m))
    ensures Started in Trace(c, s) <==> exists k: nat :: MakesAttempt(c, s, k) && StartsTurn(s.at(k))
  {
    hide PromptWithModelFallbacks, SendsPrompt, StartsTurn, Makes;
    var t := Turn(false, false, false, false, []);
    if s.preflight == Allowed && !s.stopAfterPreflight && !s.stopBeforePrompt {
      TurnPrompts(c, s, t, m);
    }
  }

  // ----- The last prompt decides -----

  /** The attempt with which the loop comes to a good end: it sends its prompt, nothing goes wrong, none comes after. */
  lemma {:induction false} LastMade(c: Config, s: Script, j: nat, switched: bool) returns (k: nat)
    requires NeverStopped(s) && LoopEnd(c, s, j, switched).0 == Passed
    ensures Makes(c, s, j, k) && SendsPrompt(s.at(k)) && Meets(s.at(k)) == [] && !Breaks(s.at(k))
    ensures forall m: nat :: k < m ==> !Makes(c, s, j, m)
    decreases c.fallbacks + 1 - j
  {
    assert !StopsAt(s.at(j));
    var a := s.at(j);
    hide NeverStopped;
    if j > 0 && a.switchFails {
      k := LastMade(c, s, j + 1, switched);
    } else if Meets(a) != [] {
      k := LastMade(c, s, j + 1, switched || j > 0);
      assert Meets(a)[0] in Meets(a);
    } else {
      k := j;
      assert !HasProviderFailure(Meets(a));
    }
    MakesLater(c, s, j);
    hide Makes, Meets, HasProviderFailure;
  }

  /**
   * A turn that nobody stops is reported finished only if the last prompt it sent went through, without a thrown error
   * or a failure; otherwise exactly one error is reported.
   */
  lemma LastPromptDecides(c: Config, s: Script, k: nat)
    requires NeverStopped(s) && Prompted(k) in Trace(c, s) && forall m: nat :: k < m ==> Prompted(m) !in Trace(c, s)
    requires s.at(k).promptFails || s.at(k).whilePrompting != []
    ensures Finished !in Trace(c, s) && Times(Trace(c, s), Failed) == 1
  {
    EndsExactly(c, s);
    SaysHowItEnded(c, s);
    PromptsExactly(c, s, k);
    if TurnEnd(c, s) == Passed && c.fallbacks > 0 {
      var last := LastMade(c, s, 0, false);
      PromptsExactly(c, s, last);
      hide Trace, Makes, LoopEnd;
      assert false;
    }
    hide Trace, Makes, LoopEnd;
  }

  /** A prompt that throws is an error, not a finished turn. */
  lemma ThrownPromptIsReported()
    ensures var a := Attempt(false, [], false, [], false, false, false, [], true, false);
            Trace(Config(0, false), Script(false, Allowed, false, false, (k: nat) => a, [], false))
            == [Started, Prompted(0), Failed]
  {
    var a := Attempt(false, [], false, [], false, false, false, [], true, false);
    var s := Script(false, Allowed, false, false, (k: nat) => a, [], false);
    assert s.at(0) == a;
    assert [] + [Started] + [Prompted(0)] + [Failed] == [Started, Prompted(0), Failed];
  }
}
