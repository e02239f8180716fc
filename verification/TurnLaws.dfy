/** The life of a turn, for every configuration and every script. */
module TurnLaws {
  import opened TurnSpec

  function Times(trace: seq<Act>, a: Act): nat {
    multiset(trace)[a]
  }

  /** The attempts for which a prompt was sent, in order. */
  function Prompts(trace: seq<Act>): seq<nat> {
    if trace == [] then []
    else
      var last := trace[|trace| - 1];
      Prompts(trace[..|trace| - 1]) + if last.Prompted? then [last.attempt] else []
  }

  ghost predicate Ascending(ks: seq<nat>) {
    forall i, j :: 0 <= i < j < |ks| ==> ks[i] < ks[j]
  }

  /** Nothing is prompted or finished before the turn has started. */
  ghost predicate StartsFirst(trace: seq<Act>) {
    forall i :: 0 <= i < |trace| && trace[i].Prompted? ==> Started in trace[..i]
  }

  /** While attempts below `k` have been made: flags and emitted events agree. */
  ghost predicate Inv(t: Turn, k: nat) {
    && Times(t.trace, Started) == (if t.started then 1 else 0)
    && Times(t.trace, Failed) == (if t.failed then 1 else 0)
    && Times(t.trace, Finished) == 0
    && StartsFirst(t.trace)
    && Ascending(Prompts(t.trace)) && (forall p :: p in Prompts(t.trace) ==> p < k)
  }

  lemma TimesPush(trace: seq<Act>, a: Act)
    ensures forall b :: Times(trace + [a], b) == Times(trace, b) + if a == b then 1 else 0
  {
    assert multiset(trace + [a]) == multiset(trace) + multiset{a};
  }

  lemma PromptsPush(trace: seq<Act>, a: Act)
    ensures Prompts(trace + [a]) == Prompts(trace) + if a.Prompted? then [a.attempt] else []
  {
    assert (trace + [a])[..|trace|] == trace;
  }

  lemma StartsFirstPush(trace: seq<Act>, a: Act)
    requires StartsFirst(trace) && (a.Prompted? ==> Started in trace)
    ensures StartsFirst(trace + [a])
  {
    forall i | 0 <= i < |trace| + 1 && (trace + [a])[i].Prompted? ensures Started in (trace + [a])[..i] {
      assert (trace + [a])[..i] == trace[..i];
      assert trace[..|trace|] == trace;
    }
  }

  lemma EmitKeeps(t: Turn, k: nat, a: Act, t': Turn)
    requires Inv(t, k) && t'.trace == t.trace + [a]
    requires match a
             case Started => !t.started && t'.started && t'.failed == t.failed
             case Failed => !t.failed && t'.failed && t'.started == t.started
             case Prompted(p) => p == k && t.started && t'.started && t'.failed == t.failed
             case Finished => false
    ensures Inv(t', if a.Prompted? then k + 1 else k)
  {
    hide StartsFirst, Prompts, Times, Ascending;
    InTrace(t.trace, Started);
    TimesPush(t.trace, a);
    PromptsPush(t.trace, a);
    StartsFirstPush(t.trace, a);
    AscendingPush(Prompts(t.trace), k);
    assert Prompts(t.trace) + [] == Prompts(t.trace);
  }

  lemma InTrace(trace: seq<Act>, a: Act)
    ensures a in trace <==> Times(trace, a) > 0
  {
    assert a in trace <==> a in multiset(trace);
  }

  lemma AscendingPush(ks: seq<nat>, k: nat)
    requires Ascending(ks) && forall p :: p in ks ==> p < k
    ensures Ascending(ks + [k])
  {
    assert forall i :: 0 <= i < |ks| ==> ks[i] in ks;
  }

  lemma ErrorKeeps(t: Turn, k: nat)
    requires Inv(t, k)
    ensures Inv(EmitError(t), k) && EmitError(t).failed
    ensures EmitError(t).started == t.started && EmitError(t).pending == t.pending && EmitError(t).suppress == t.suppress
  {
    if !t.failed {
      EmitKeeps(t, k, Failed, EmitError(t));
    }
  }

  lemma {:induction false} FailuresKeep(t: Turn, k: nat, fs: seq<Failure>)
    requires Inv(t, k)
    ensures Inv(OnFailures(t, fs), k)
    ensures OnFailures(t, fs).started == t.started && OnFailures(t, fs).suppress == t.suppress
    ensures t.failed ==> OnFailures(t, fs).failed
    ensures t.pending ==> OnFailures(t, fs).pending
    decreases |fs|
  {
    hide Inv;
    if fs != [] {
      ErrorKeeps(t, k);
      assert Inv(OnFailure(t, fs[0]), k) by { PendingKeeps(t, k, true); }
      FailuresKeep(OnFailure(t, fs[0]), k, fs[1..]);
    }
  }

  /** The invariant speaks only of what was emitted. */
  lemma PendingKeeps(t: Turn, k: nat, pending: bool)
    requires Inv(t, k)
    ensures Inv(t.(pending := pending), k)
  {
  }

  lemma Later(t: Turn, k: nat)
    requires Inv(t, k)
    ensures Inv(t, k + 1)
  {
  }

  lemma PromptKeeps(t: Turn, k: nat, a: Attempt)
    requires Inv(t, k)
    ensures Inv(PromptWithinCapacity(t, k, a).0, k + 1)
    ensures PromptWithinCapacity(t, k, a).0.suppress == t.suppress
    ensures t.started ==> PromptWithinCapacity(t, k, a).0.started
    ensures t.failed ==> PromptWithinCapacity(t, k, a).0.failed
  {
    hide Inv;
    var t1 := OnFailures(t, a.whileWaiting);
    FailuresKeep(t, k, a.whileWaiting);
    var t2 := Start(t1);
    StartKeeps(t1, k);
    Later(t1, k);
    Later(t2, k);
    var t3 := Emit(t2, Prompted(k));
    PromptedKeeps(t2, k);
    FailuresKeep(t3, k + 1, a.whilePrompting);
  }

  lemma StartKeeps(t: Turn, k: nat)
    requires Inv(t, k)
    ensures Inv(Start(t), k) && Start(t).started
  {
    if !t.started {
      EmitKeeps(t, k, Started, Start(t));
    }
  }

  lemma PromptedKeeps(t: Turn, k: nat)
    requires Inv(t, k) && t.started
    ensures Inv(Emit(t, Prompted(k)), k + 1)
  {
    EmitKeeps(t, k, Prompted(k), Emit(t, Prompted(k)));
  }

  /** The fallback loop sends at most one prompt per attempt; without stops it ends in a thrown
      error, in success, or with the error emitted. */
  lemma {:induction false} AttemptsKeep(c: Config, s: Script, t: Turn, k: nat, failure: bool, switched: bool)
    requires Inv(t, k) && k <= c.fallbacks + 1
    ensures Inv(Attempts(c, s, t, k, failure, switched).turn, c.fallbacks + 1)
    decreases c.fallbacks + 1 - k
  {
    hide Inv, PromptWithinCapacity;
    if k > c.fallbacks {
      ErrorKeeps(t, k);
    } else {
      var a := s.at(k);
      LaterBy(t, k, c.fallbacks + 1);
      var t1 := if k > 0 then OnFailures(t, a.whileSwitching) else t;
      FailuresKeep(t, k, a.whileSwitching);
      if k > 0 && a.switchFails {
        Later(t1, k);
        AttemptsKeep(c, s, t1, k + 1, failure, switched);
      } else {
        PendingKeeps(t1, k, false);
        PromptKeeps(t1.(pending := false), k, a);
        var t2 := PromptWithinCapacity(t1.(pending := false), k, a).0;
        LaterBy(t2, k + 1, c.fallbacks + 1);
        AttemptsKeep(c, s, t2, k + 1, true, switched || k > 0);
      }
    }
  }

  lemma LaterBy(t: Turn, k: nat, n: nat)
    requires Inv(t, k) && k <= n
    ensures Inv(t, n)
  {
  }

  lemma FallbacksKeep(c: Config, s: Script, t: Turn)
    requires Inv(t, 0)
    ensures Inv(PromptWithModelFallbacks(c, s, t).0, c.fallbacks + 1)
  {
    hide Inv, Attempts, PromptWithinCapacity;
    if c.fallbacks == 0 {
      PromptKeeps(t, 0, s.at(0));
    } else {
      FlagsKeep(t, 0, true, t.pending);
      AttemptsKeep(c, s, t.(suppress := true), 0, false, false);
      var o := Attempts(c, s, t.(suppress := true), 0, false, false);
      FlagsKeep(o.turn, c.fallbacks + 1, false, false);
      FailuresKeep(o.turn.(suppress := false, pending := false), c.fallbacks + 1, s.whileRestoring);
    }
  }

  lemma FlagsKeep(t: Turn, k: nat, suppress: bool, pending: bool)
    requires Inv(t, k)
    ensures Inv(t.(suppress := suppress, pending := pending), k)
  {
  }

  lemma {:induction false} AscendingFew(ks: seq<nat>, n: nat)
    requires Ascending(ks) && forall p :: p in ks ==> p < n
    ensures |ks| <= n
  {
    if ks != [] {
      var last := ks[|ks| - 1];
      assert last in ks;
      var rest := ks[..|ks| - 1];
      assert forall p :: p in rest ==> p < last;
      AscendingFew(rest, last);
    }
  }

  /** A turn starts at most once, ends in at most one of finished and error, reports at most one
      error, and sends at most one prompt per attempt, in order, after it has started. */
  ghost predicate Lived(e: seq<Act>, fallbacks: nat) {
    && Times(e, Started) <= 1 && Times(e, Finished) <= 1 && Times(e, Failed) <= 1
    && !(Finished in e && Failed in e)
    && (Finished in e ==> e[|e| - 1] == Finished)
    && StartsFirst(e)
    && Ascending(Prompts(e)) && (forall p :: p in Prompts(e) ==> p <= fallbacks)
    && |Prompts(e)| <= fallbacks + 1
  }

  lemma InvLived(t: Turn, n: nat)
    requires Inv(t, n + 1)
    ensures Lived(t.trace, n)
  {
    AscendingFew(Prompts(t.trace), n + 1);
  }

  lemma FinishLived(t: Turn, n: nat)
    requires Inv(t, n + 1) && !t.failed
    ensures Lived(t.trace + [Finished], n)
  {
    AscendingFew(Prompts(t.trace), n + 1);
    TimesPush(t.trace, Finished);
    PromptsPush(t.trace, Finished);
    StartsFirstPush(t.trace, Finished);
    assert Failed !in multiset(t.trace) && Failed !in multiset(t.trace + [Finished]);
  }

  lemma FreshLived(n: nat)
    ensures Inv(Turn(false, false, false, false, []), 0)
    ensures Lived([], n) && Lived([Failed], n)
  {
    PromptsPush([], Failed);
    assert [] + [Failed] == [Failed];
    assert multiset([Failed]) == multiset{Failed};
  }

  /** At most `fallbacks` + 1 prompts go out, no fallback is tried twice, and only attempt 0, which
      carries the user's text, can be the user's prompt; the rest of the life of a turn is `Lived`. */
  lemma Lifecycle(c: Config, s: Script)
    ensures Lived(Trace(c, s), c.fallbacks)
  {
    FreshLived(c.fallbacks);
    hide PromptWithModelFallbacks, Inv, Lived;
    if s.preflight == Allowed && !s.stopAfterPreflight && !s.stopBeforePrompt {
      var t := Turn(false, false, false, false, []);
      FallbacksKeep(c, s, t);
      var (t1, threw) := PromptWithModelFallbacks(c, s, t);
      ErrorKeeps(t1, c.fallbacks + 1);
      InvLived(t1, c.fallbacks);
      InvLived(EmitError(t1), c.fallbacks);
      if !t1.failed {
        FinishLived(t1, c.fallbacks);
      }
    } else {
      assert [] + [Failed] == [Failed];
      assert Trace(c, s) == [] || Trace(c, s) == [Failed];
    }
  }

  // ----- Turns nobody stops -----

  predicate StopsAt(a: Attempt) {
    a.stopAtTop || a.stopAtAdmission || a.stopAfterStart || a.stopAfter
  }

  ghost predicate NeverStopped(s: Script) {
    !s.stopAfterPreflight && !s.stopBeforePrompt && !s.stopAtEnd && forall k :: !StopsAt(s.at(k))
  }

  ghost predicate EndedOnce(e: seq<Act>) {
    (Finished in e && Failed !in e) || (Finished !in e && Times(e, Failed) == 1)
  }

  lemma EndSays(s: Script, t: Turn, n: nat, threw: bool)
    requires Inv(t, n) && !s.stopAtEnd
    ensures EndedOnce(EndTurn(s, t, threw).trace)
    ensures threw || t.failed ==> Times(EndTurn(s, t, threw).trace, Failed) == 1 && Finished !in EndTurn(s, t, threw).trace
  {
    ErrorKeeps(t, n);
    TimesPush(t.trace, Finished);
    hide StartsFirst, Prompts, Ascending;
    var e := EndTurn(s, t, threw).trace;
    assert forall a :: a in e <==> a in multiset(e);
    assert Finished in t.trace + [Finished];
  }

  /** A turn that is neither cancelled nor disposed says how it ended, once: finished or one error.
      There is one exception, and only one: preflight throws after a failure had come in between
      turns. That failure was reported without the turn's id, and nothing is reported for the turn. */
  lemma SaysHowItEnded(c: Config, s: Script)
    requires NeverStopped(s)
    ensures EndedOnce(Trace(c, s)) <==> !(s.preflight == Throws && s.stray)
    ensures s.preflight == Throws && s.stray ==> Trace(c, s) == []
  {
    assert !s.stopAtEnd && !s.stopAfterPreflight && !s.stopBeforePrompt;
    hide PromptWithModelFallbacks, Inv, NeverStopped, EndedOnce, Lived;
    if s.preflight == Allowed {
      var t := Turn(false, false, false, false, []);
      FreshLived(c.fallbacks);
      FallbacksKeep(c, s, t);
      var (t1, threw) := PromptWithModelFallbacks(c, s, t);
      EndSays(s, t1, c.fallbacks + 1, threw);
    } else {
      OneFailure();
      assert Trace(c, s) == if s.preflight == Throws && s.stray then [] else [Failed];
    }
  }

  lemma OneFailure()
    ensures [] + [Failed] == [Failed] && EndedOnce([Failed]) && !EndedOnce([])
  {
    assert multiset([Failed]) == multiset{Failed};
  }

  // ----- Every model fails -----

  predicate HasProviderFailure(fs: seq<Failure>) {
    exists f :: f in fs && f.provider
  }

  /** Every prompt that the turn sends meets a provider failure. Attempts that send none, because the model cannot
      be switched or its capacity cannot be had, are not restricted. */
  ghost predicate EveryPromptFails(s: Script, trace: seq<Act>) {
    forall k: nat :: Prompted(k) in trace ==> HasProviderFailure(s.at(k).whilePrompting)
  }

  lemma {:induction false} ProviderFailureIsPending(t: Turn, fs: seq<Failure>)
    requires HasProviderFailure(fs)
    ensures if t.suppress then OnFailures(t, fs).pending else OnFailures(t, fs).failed
    decreases |fs|
  {
    var t1 := OnFailure(t, fs[0]);
    FlagsStay(t1, fs[1..]);
    if !fs[0].provider {
      var f :| f in fs && f.provider;
      assert f in fs[1..];
      ProviderFailureIsPending(t1, fs[1..]);
    }
  }

  /** Failures only add to what is known and emitted. */
  lemma {:induction false} FlagsStay(t: Turn, fs: seq<Failure>)
    ensures OnFailures(t, fs).suppress == t.suppress && OnFailures(t, fs).started == t.started
    ensures t.pending ==> OnFailures(t, fs).pending
    ensures t.failed ==> OnFailures(t, fs).failed
    ensures t.trace <= OnFailures(t, fs).trace
    decreases |fs|
  {
    if fs != [] {
      FlagsStay(OnFailure(t, fs[0]), fs[1..]);
    }
  }

  lemma PromptStays(t: Turn, k: nat, a: Attempt)
    ensures var t' := PromptWithinCapacity(t, k, a).0;
            && t'.suppress == t.suppress && (t.failed ==> t'.failed) && (t.started ==> t'.started) && t.trace <= t'.trace
  {
    var t1 := OnFailures(t, a.whileWaiting);
    FlagsStay(t, a.whileWaiting);
    FlagsStay(Emit(Start(t1), Prompted(k)), a.whilePrompting);
  }

  lemma {:induction false} AttemptsStay(c: Config, s: Script, t: Turn, k: nat, failure: bool, switched: bool)
    ensures var t' := Attempts(c, s, t, k, failure, switched).turn;
            && t'.suppress == t.suppress && (t.failed ==> t'.failed) && (t.started ==> t'.started) && t.trace <= t'.trace
    decreases c.fallbacks + 1 - k
  {
    hide PromptWithinCapacity, OnFailures;
    if k <= c.fallbacks && !s.at(k).stopAtTop {
      var a := s.at(k);
      var t1 := if k > 0 then OnFailures(t, a.whileSwitching) else t;
      FlagsStay(t, a.whileSwitching);
      if k > 0 && a.switchFails {
        AttemptsStay(c, s, t1, k + 1, failure, switched);
      } else {
        PromptStays(t1.(pending := false), k, a);
        AttemptsStay(c, s, PromptWithinCapacity(t1.(pending := false), k, a).0, k + 1, true, switched || k > 0);
      }
    }
  }

  /** A prompt that nobody stops is not sent at all, or is sent and fails. */
  lemma PromptFails(s: Script, t: Turn, k: nat)
    requires !StopsAt(s.at(k))
    ensures var (t', threw) := PromptWithinCapacity(t, k, s.at(k));
            EveryPromptFails(s, t'.trace) ==> threw || if t.suppress then t'.pending else t'.failed
  {
    var a := s.at(k);
    if !a.leaseFails {
      var t2 := Emit(Start(OnFailures(t, a.whileWaiting)), Prompted(k));
      FlagsStay(t, a.whileWaiting);
      FlagsStay(t2, a.whilePrompting);
      assert t2.trace[|t2.trace| - 1] == Prompted(k) && Prompted(k) in OnFailures(t2, a.whilePrompting).trace;
      if HasProviderFailure(a.whilePrompting) {
        ProviderFailureIsPending(t2, a.whilePrompting);
      }
    }
  }

  lemma PrefixFails(s: Script, before: seq<Act>, after: seq<Act>)
    requires EveryPromptFails(s, after) && before <= after
    ensures EveryPromptFails(s, before)
  {
  }

  lemma {:induction false} AttemptsExhausted(c: Config, s: Script, t: Turn, k: nat, failure: bool, switched: bool)
    requires NeverStopped(s) && t.suppress && k <= c.fallbacks + 1 && (k == 0 || failure)
    requires EveryPromptFails(s, Attempts(c, s, t, k, failure, switched).turn.trace)
    ensures var o := Attempts(c, s, t, k, failure, switched); o.turn.failed || o.threw
    decreases c.fallbacks + 1 - k
  {
    hide PromptWithinCapacity, EveryPromptFails;
    if k <= c.fallbacks {
      var a := s.at(k);
      assert !StopsAt(a);
      var t1 := if k > 0 then OnFailures(t, a.whileSwitching) else t;
      FlagsStay(t, a.whileSwitching);
      if k > 0 && a.switchFails {
        AttemptsExhausted(c, s, t1, k + 1, failure, switched);
      } else {
        var t2 := PromptWithinCapacity(t1.(pending := false), k, a).0;
        PromptStays(t1.(pending := false), k, a);
        AttemptsStay(c, s, t2, k + 1, true, switched || k > 0);
        PrefixFails(s, t2.trace, Attempts(c, s, t, k, failure, switched).turn.trace);
        PromptFails(s, t1.(pending := false), k);
        if t2.pending {
          AttemptsExhausted(c, s, t2, k + 1, true, switched || k > 0);
        }
      }
    }
  }

  lemma FallbacksExhausted(c: Config, s: Script, t: Turn)
    requires NeverStopped(s) && !t.suppress && EveryPromptFails(s, PromptWithModelFallbacks(c, s, t).0.trace)
    ensures var (t1, threw) := PromptWithModelFallbacks(c, s, t); threw || t1.failed
  {
    assert !StopsAt(s.at(0));
    hide NeverStopped, EveryPromptFails, Attempts, PromptWithinCapacity;
    if c.fallbacks == 0 {
      PromptFails(s, t, 0);
    } else {
      var o := Attempts(c, s, t.(suppress := true), 0, false, false);
      FlagsStay(o.turn.(suppress := false, pending := false), s.whileRestoring);
      PrefixFails(s, o.turn.trace, PromptWithModelFallbacks(c, s, t).0.trace);
      AttemptsExhausted(c, s, t.(suppress := true), 0, false, false);
    }
  }

  /** When every prompt that goes out fails, the user sees one error and never a finished turn. The one silent case
      is that of `SaysHowItEnded`. */
  lemma OneErrorWhenEveryModelFails(c: Config, s: Script)
    requires NeverStopped(s) && EveryPromptFails(s, Trace(c, s))
    ensures Finished !in Trace(c, s)
    ensures Times(Trace(c, s), Failed) == if s.preflight == Throws && s.stray then 0 else 1
  {
    assert !s.stopAtEnd && !s.stopAfterPreflight && !s.stopBeforePrompt;
    SaysHowItEnded(c, s);
    if s.preflight == Allowed {
      var t := Turn(false, false, false, false, []);
      FreshLived(0);
      FallbacksKeep(c, s, t);
      var (t1, threw) := PromptWithModelFallbacks(c, s, t);
      EndGrows(s, t1, threw);
      PrefixFails(s, t1.trace, Trace(c, s));
      FallbacksExhausted(c, s, t);
      hide PromptWithModelFallbacks, Inv, NeverStopped, EveryPromptFails;
      EndSays(s, t1, c.fallbacks + 1, threw);
    } else {
      OneFailure();
      NoneIn();
    }
  }

  lemma EndGrows(s: Script, t: Turn, threw: bool)
    ensures t.trace <= EndTurn(s, t, threw).trace
  {
  }

  lemma NoneIn()
    ensures Times([], Failed) == 0 && Times([Failed], Failed) == 1
  {
    assert multiset([Failed]) == multiset{Failed};
  }

  // ----- Finished without started -----

  predicate OnlyProviderFailures(fs: seq<Failure>) {
    forall f :: f in fs ==> f.provider
  }

  /** Giving the session its own model back brings in no failure. */
  predicate RestoresQuietly(c: Config, s: Script, switched: bool) {
    switched && c.hasPrimary ==> s.whileRestoring == []
  }

  /**
   * From attempt `k` on no prompt gets as far as starting the turn, and nothing is reported for it: each attempt
   * fails to switch, or loses or gives back its place before the start, with provider failures at most; and the loop
   * is left by a stop, or by an attempt that was turned away without any failure.
   */
  predicate LeavesUnstarted(c: Config, s: Script, k: nat, switched: bool)
    decreases c.fallbacks + 1 - k
  {
    if k > c.fallbacks then false
    else
      var a := s.at(k);
      if a.stopAtTop then RestoresQuietly(c, s, switched)
      else if k > 0 && !OnlyProviderFailures(a.whileSwitching) then false
      else if k > 0 && a.switchFails then LeavesUnstarted(c, s, k + 1, switched)
      else if !OnlyProviderFailures(a.whileWaiting) || !(a.leaseFails || a.stopAtAdmission) then false
      else if a.stopAfter then RestoresQuietly(c, s, switched || k > 0)
      else if a.whileWaiting == [] then !a.leaseFails && RestoresQuietly(c, s, switched || k > 0)
      else LeavesUnstarted(c, s, k + 1, switched || k > 0)
  }

  /** With no fallback there is one attempt, and any failure is reported. */
  predicate PromptsUnstarted(c: Config, s: Script) {
    if c.fallbacks > 0 then LeavesUnstarted(c, s, 0, false)
    else s.at(0).whileWaiting == [] && !s.at(0).leaseFails && s.at(0).stopAtAdmission
  }

  /** The turn gets past its preflight, never starts, and no stop is left at its end. */
  predicate NeverStarts(c: Config, s: Script) {
    && s.preflight == Allowed && !s.stopAfterPreflight && !s.stopBeforePrompt && !s.stopAtEnd && PromptsUnstarted(c, s)
  }

  /** While models are tried, provider failures are held back and any other is reported. */
  lemma {:induction false} HeldBack(t: Turn, fs: seq<Failure>)
    requires t.suppress && !t.failed
    ensures OnFailures(t, fs).failed <==> !OnlyProviderFailures(fs)
    ensures OnlyProviderFailures(fs) ==> (OnFailures(t, fs).pending <==> t.pending || fs != [])
    decreases |fs|
  {
    if fs != [] {
      var t1 := OnFailure(t, fs[0]);
      assert OnlyProviderFailures(fs) <==> fs[0].provider && OnlyProviderFailures(fs[1..]);
      FlagsStay(t1, fs[1..]);
      if fs[0].provider {
        HeldBack(t1, fs[1..]);
      }
    }
  }

  /** Otherwise every failure is reported. */
  lemma Reported(t: Turn, fs: seq<Failure>)
    requires !t.suppress && !t.failed
    ensures OnFailures(t, fs).failed <==> fs != []
  {
    if fs != [] {
      FlagsStay(OnFailure(t, fs[0]), fs[1..]);
    }
  }

  /** When a prompt attempt leaves the turn unstarted and without an error. */
  lemma PromptUnstarted(t: Turn, k: nat, a: Attempt)
    requires t.suppress && !t.failed && !t.started && !t.pending
    ensures var (t', threw) := PromptWithinCapacity(t, k, a);
            && (!t'.failed && !t'.started <==> OnlyProviderFailures(a.whileWaiting) && (a.leaseFails || a.stopAtAdmission))
            && (!t'.failed && !t'.started ==> (t'.pending <==> a.whileWaiting != []) && threw == a.leaseFails)
  {
    var t1 := OnFailures(t, a.whileWaiting);
    HeldBack(t, a.whileWaiting);
    FlagsStay(t, a.whileWaiting);
    FlagsStay(Emit(Start(t1), Prompted(k)), a.whilePrompting);
  }

  /** The turn after the fallback loop has been left. */
  function Restored(c: Config, s: Script, o: Outcome): Turn {
    var t := o.turn.(suppress := false, pending := false);
    if o.switched && c.hasPrimary then OnFailures(t, s.whileRestoring) else t
  }

  predicate Unstarted(c: Config, s: Script, o: Outcome) {
    !o.threw && !Restored(c, s, o).failed && !Restored(c, s, o).started
  }

  lemma RestoredIs(c: Config, s: Script, o: Outcome)
    ensures Unstarted(c, s, o) <==> !o.threw && !o.turn.failed && !o.turn.started && RestoresQuietly(c, s, o.switched)
  {
    var t := o.turn.(suppress := false, pending := false);
    FlagsStay(t, s.whileRestoring);
    if !t.failed {
      Reported(t, s.whileRestoring);
    }
  }

  lemma {:induction false} AttemptsUnstarted(c: Config, s: Script, t: Turn, k: nat, failure: bool, switched: bool)
    requires t.suppress && !t.failed && !t.started && k <= c.fallbacks + 1 && (k == 0 || failure)
    ensures Unstarted(c, s, Attempts(c, s, t, k, failure, switched)) <==> LeavesUnstarted(c, s, k, switched)
    decreases c.fallbacks + 1 - k
  {
    hide PromptWithinCapacity, Unstarted, RestoresQuietly, OnlyProviderFailures;
    RestoredIs(c, s, Attempts(c, s, t, k, failure, switched));
    if k <= c.fallbacks && !s.at(k).stopAtTop {
      var a := s.at(k);
      var t1 := if k > 0 then OnFailures(t, a.whileSwitching) else t;
      HeldBack(t, a.whileSwitching);
      FlagsStay(t, a.whileSwitching);
      if t1.failed {
        FailedStays(c, s, t, k, failure, switched);
      } else if k > 0 && a.switchFails {
        AttemptsUnstarted(c, s, t1, k + 1, failure, switched);
      } else {
        var t2 := PromptWithinCapacity(t1.(pending := false), k, a).0;
        PromptUnstarted(t1.(pending := false), k, a);
        PromptStays(t1.(pending := false), k, a);
        AttemptsStay(c, s, t2, k + 1, true, switched || k > 0);
        if !t2.failed && !t2.started {
          AttemptsUnstarted(c, s, t2, k + 1, true, switched || k > 0);
        }
      }
    }
  }

  /** An error reported while switching models stays reported. */
  lemma FailedStays(c: Config, s: Script, t: Turn, k: nat, failure: bool, switched: bool)
    requires 0 < k <= c.fallbacks && !s.at(k).stopAtTop && OnFailures(t, s.at(k).whileSwitching).failed
    ensures Attempts(c, s, t, k, failure, switched).turn.failed
  {
    hide PromptWithinCapacity;
    var a := s.at(k);
    var t1 := OnFailures(t, a.whileSwitching);
    AttemptsStay(c, s, t1, k + 1, failure, switched);
    PromptStays(t1.(pending := false), k, a);
    AttemptsStay(c, s, PromptWithinCapacity(t1.(pending := false), k, a).0, k + 1, true, switched || k > 0);
  }

  lemma FallbacksUnstarted(c: Config, s: Script)
    ensures var (t1, threw) := PromptWithModelFallbacks(c, s, Turn(false, false, false, false, []));
            (!threw && !t1.failed && !t1.started) <==> PromptsUnstarted(c, s)
  {
    var t := Turn(false, false, false, false, []);
    if c.fallbacks == 0 {
      var a := s.at(0);
      var t1 := OnFailures(t, a.whileWaiting);
      Reported(t, a.whileWaiting);
      FlagsStay(t, a.whileWaiting);
      FlagsStay(Emit(Start(t1), Prompted(0)), a.whilePrompting);
    } else {
      hide Attempts, LeavesUnstarted;
      AttemptsUnstarted(c, s, t.(suppress := true), 0, false, false);
    }
  }

  /** Exactly when a turn is reported finished that was never reported started. */
  lemma FinishedWithoutStarted(c: Config, s: Script)
    ensures (Finished in Trace(c, s) && Started !in Trace(c, s)) <==> NeverStarts(c, s)
  {
    var t := Turn(false, false, false, false, []);
    FreshLived(0);
    FallbacksKeep(c, s, t);
    FallbacksUnstarted(c, s);
    var (t1, threw) := PromptWithModelFallbacks(c, s, t);
    hide *;
    EndShows(s, t1, threw, c.fallbacks + 1);
    TraceIs(c, s);
  }

  /** A turn gets as far as prompting, or ends in silence or an error before. */
  lemma TraceIs(c: Config, s: Script)
    ensures var (t1, threw) := PromptWithModelFallbacks(c, s, Turn(false, false, false, false, []));
            if s.preflight == Allowed && !s.stopAfterPreflight && !s.stopBeforePrompt then
              Trace(c, s) == EndTurn(s, t1, threw).trace && (NeverStarts(c, s) <==> !s.stopAtEnd && PromptsUnstarted(c, s))
            else
              Finished !in Trace(c, s) && !NeverStarts(c, s)
  {
    hide PromptWithModelFallbacks, PromptsUnstarted, EndTurn;
  }

  lemma EndShows(s: Script, t: Turn, threw: bool, k: nat)
    requires Inv(t, k)
    ensures var e := EndTurn(s, t, threw).trace;
            (Finished in e && Started !in e) <==> !s.stopAtEnd && !threw && !t.failed && !t.started
  {
    ErrorKeeps(t, k);
    FlagsShow(t, k);
    FlagsShow(EmitError(t), k);
    hide Inv;
    assert Finished in t.trace + [Finished] && (Started in t.trace + [Finished] <==> Started in t.trace);
  }

  lemma FlagsShow(t: Turn, k: nat)
    requires Inv(t, k)
    ensures Finished !in t.trace && (Started in t.trace <==> t.started)
  {
    InTrace(t.trace, Finished);
    InTrace(t.trace, Started);
  }

  /**
   * It takes a stop that is seen by some attempt and withdrawn before the end, which happens when a message is
   * cancelled and aborting the runtime then fails.
   */
  lemma FinishedTurnsStarted(c: Config, s: Script)
    requires (exists k: nat :: k <= c.fallbacks && StopsAt(s.at(k))) ==> s.stopAtEnd
    ensures Finished in Trace(c, s) ==> Started in Trace(c, s)
  {
    FinishedWithoutStarted(c, s);
    hide Trace;
    if NeverStarts(c, s) && c.fallbacks > 0 {
      UnstartedStops(c, s, 0, false);
    }
  }

  /** Whoever leaves the loop unstarted was stopped. */
  lemma {:induction false} UnstartedStops(c: Config, s: Script, k: nat, switched: bool)
    requires LeavesUnstarted(c, s, k, switched)
    ensures exists j: nat :: j <= c.fallbacks && StopsAt(s.at(j))
    decreases c.fallbacks + 1 - k
  {
    hide RestoresQuietly, OnlyProviderFailures;
    var a := s.at(k);
    if !StopsAt(a) {
      if k > 0 && a.switchFails {
        UnstartedStops(c, s, k + 1, switched);
      } else {
        UnstartedStops(c, s, k + 1, switched || k > 0);
      }
    }
  }

  /** A cancellation that aborts the wait for capacity: seen after the attempt, and withdrawn before the end. */
  const ABORTED_WAIT := Attempt(false, [], false, [], true, false, false, [], false, true)

  lemma AbortedWaitFinishesUnstarted()
    ensures Trace(Config(1, false), Script(false, Allowed, false, false, (k: nat) => ABORTED_WAIT, [], false)) == [Finished]
  {
    var s := Script(false, Allowed, false, false, (k: nat) => ABORTED_WAIT, [], false);
    assert s.at(0) == ABORTED_WAIT;
    assert [] + [Finished] == [Finished];
  }
}
