/**
  The call-site tracker: the `calledBase` flag that the invocation callback of
  `AnalyzeOperation` sets, and that its block-end callback reads.
 */
module CallTracker {
  import opened Wrappers
  import opened Symbols
  import opened Diagnostics

  /**
    The flag after the invocation events `invocations` have been delivered,
    starting from `calledBase`: each event whose target is `baseMethod` sets it,
    and no event clears it.
   */
  function Track(calledBase: bool, invocations: seq<MethodId>, baseMethod: MethodId): (called: bool)
    ensures calledBase ==> called
    ensures invocations != [] && invocations[0] == baseMethod ==> called
    decreases invocations
  {
    if invocations == [] then calledBase
    else Track(calledBase || invocations[0] == baseMethod, invocations[1..], baseMethod)
  }

  /** Delivering events in two batches is delivering them in one. */
  lemma {:induction false} TrackAppend(calledBase: bool, first: seq<MethodId>, second: seq<MethodId>, baseMethod: MethodId)
    ensures Track(calledBase, first + second, baseMethod) == Track(Track(calledBase, first, baseMethod), second, baseMethod)
    decreases first
  {
    if first == [] {
      assert first + second == second;
    } else {
      assert (first + second)[0] == first[0];
      assert (first + second)[1..] == first[1..] + second;
      TrackAppend(calledBase || first[0] == baseMethod, first[1..], second, baseMethod);
    }
  }

  /** The flag ends set exactly when it started set or some event targets `baseMethod`. */
  lemma {:induction false} TrackMeansCalled(calledBase: bool, invocations: seq<MethodId>, baseMethod: MethodId)
    ensures Track(calledBase, invocations, baseMethod) <==> calledBase || baseMethod in invocations
    decreases invocations
  {
    if invocations != [] {
      TrackMeansCalled(calledBase || invocations[0] == baseMethod, invocations[1..], baseMethod);
      assert invocations == [invocations[0]] + invocations[1..];
    }
  }

  /** The order in which the host delivers the events does not matter. */
  lemma TrackIgnoresOrder(calledBase: bool, a: seq<MethodId>, b: seq<MethodId>, baseMethod: MethodId)
    requires multiset(a) == multiset(b)
    ensures Track(calledBase, a, baseMethod) == Track(calledBase, b, baseMethod)
  {
    TrackMeansCalled(calledBase, a, baseMethod);
    TrackMeansCalled(calledBase, b, baseMethod);
    assert baseMethod in a <==> baseMethod in multiset(a);
    assert baseMethod in b <==> baseMethod in multiset(b);
  }

  /**
    The per-method state of one analysis: the method being analyzed, its
    immediate overridden method, and the `calledBase` flag. `observed` is the
    history of invocation events delivered so far.
   */
  class RuleContext {
    const methodSymbol: MethodSymbol
    const baseMethod: MethodId
    var calledBase: bool
    ghost var observed: seq<MethodId>

    ghost predicate Valid()
      reads this
    {
      methodSymbol.overriddenMethod == Some(baseMethod) &&
      calledBase == Track(false, observed, baseMethod)
    }

    /** The flag starts false, before any event. */
    constructor (methodSymbol: MethodSymbol)
      requires methodSymbol.overriddenMethod.Some?
      ensures Valid()
      ensures this.methodSymbol == methodSymbol && observed == [] && !calledBase
    {
      this.methodSymbol := methodSymbol;
      this.baseMethod := methodSymbol.overriddenMethod.value;
      calledBase := false;
      observed := [];
    }

    /** The invocation callback: a call whose target is the immediate overridden method sets the flag. */
    method OnInvocation(targetMethod: MethodId)
      requires Valid()
      modifies this
      ensures Valid()
      ensures observed == old(observed) + [targetMethod]
      ensures calledBase == (old(calledBase) || targetMethod == baseMethod)
    {
      TrackAppend(false, observed, [targetMethod], baseMethod);
      if targetMethod == baseMethod {
        calledBase := true;
      }
      observed := observed + [targetMethod];
    }
  
    /**
      The block-end callback: no diagnostic once the immediate overridden
      method was called; otherwise the one diagnostic the emitter produces.
     */
    method OnBlockEnd() returns (d: Option<Diagnostic>)
      requires Valid()
      ensures d == if baseMethod in observed then None else Report(methodSymbol)
    {
      TrackMeansCalled(false, observed, baseMethod);
      if !calledBase {
        d := Report(methodSymbol);
      } else {
        d := None;
      }
    }
  }
}
