/**
  The rule evaluator: `AnalyzeOperation`, run once per operation block, with
  the host's callbacks replaced by the invocation targets of the block, in the
  order the host delivers them, followed by the end of the block.
 */
module MustCallBase {
  import opened Wrappers
  import opened Symbols
  import opened OverrideChain
  import opened CallTracker
  import opened Diagnostics

  /** The class name of `[MustCallBase]`, as `AttributeClass.Name` reports it. */
  const MustCallBaseAttributeName: string := "MustCallBaseAttribute"

  /** The owning symbol, when it is a method, is a method of the table. */
  predicate OwnerKnown(t: MethodTable, owner: OwningSymbol)
  {
    owner.MethodOwner? ==> owner.id in t
  }

  /** The first three conditions of the gate: an ordinary override with a non-null overridden method. */
  predicate Eligible(s: MethodSymbol)
  {
    s.kind == Ordinary && s.isOverride && s.overriddenMethod.Some?
  }

  /**
    The chain of an eligible method does not stop at it: its second element is
    the immediate overridden method, the one its invocations are compared with.
   */
  lemma EligibleChainStepsToOverridden(t: MethodTable, m: MethodId)
    requires WellFormed(t) && m in t && Eligible(t[m])
    ensures |Chain(t, m)| >= 2 && Chain(t, m)[1] == t[m].overriddenMethod.value
    ensures ChainRoot(t, m) == ChainRoot(t, Chain(t, m)[1])
  {
  }

  /**
    The whole gate: the owner is an eligible method whose chain root carries
    the attribute. Since an override shares its root with the method it
    overrides, this is the same as the overridden method's root carrying it.
   */
  ghost function RuleApplies(t: MethodTable, owner: OwningSymbol): (applies: bool)
    requires WellFormed(t) && OwnerKnown(t, owner)
    ensures applies <==>
      owner.MethodOwner? && Eligible(t[owner.id]) &&
      t[owner.id].overriddenMethod.value in t &&
      RootHasAttribute(t, t[owner.id].overriddenMethod.value, MustCallBaseAttributeName)
  {
    owner.MethodOwner? && Eligible(t[owner.id]) && RootHasAttribute(t, owner.id, MustCallBaseAttributeName)
  }

  /**
    What the analysis of one block reports: nothing when the rule does not
    apply or when some invocation targets the immediate overridden method, and
    otherwise what the emitter produces.
   */
  ghost function Verdict(t: MethodTable, owner: OwningSymbol, invocations: seq<MethodId>): (d: Option<Diagnostic>)
    requires WellFormed(t) && OwnerKnown(t, owner)
    ensures d.Some? ==> RuleApplies(t, owner) && d == Report(t[owner.id]) && d.value.descriptor == Rule
    ensures d.Some? ==> t[owner.id].overriddenMethod.value !in invocations
  {
    if RuleApplies(t, owner) && t[owner.id].overriddenMethod.value !in invocations then Report(t[owner.id])
    else None
  }

  /**
    `AnalyzeOperation` for one block: the gate, then the invocation callback
    for each invocation target in turn, then the block-end callback.
   */
  method AnalyzeOperation(t: MethodTable, owner: OwningSymbol, invocations: seq<MethodId>) returns (d: Option<Diagnostic>)
    requires WellFormed(t) && OwnerKnown(t, owner)
    ensures d == Verdict(t, owner, invocations)
  {
    if !owner.MethodOwner? {
      return None;
    }
    var methodSymbol := t[owner.id];
    if methodSymbol.kind != Ordinary || !methodSymbol.isOverride || methodSymbol.overriddenMethod.None? {
      return None;
    }
    var hasAttribute := BaseMethodHasAttribute(t, owner.id, MustCallBaseAttributeName);
    if !hasAttribute {
      return None;
    }
    var context := new RuleContext(methodSymbol);
    for i := 0 to |invocations|
      invariant context.Valid() && context.methodSymbol == methodSymbol
      invariant context.observed == invocations[..i]
    {
      context.OnInvocation(invocations[i]);
      assert invocations[..i + 1] == invocations[..i] + [invocations[i]];
    }
    assert invocations[..|invocations|] == invocations;
    d := context.OnBlockEnd();
  }

  /** When the rule does not apply, no block body whatever produces a diagnostic. */
  lemma NotApplicableNeverReports(t: MethodTable, owner: OwningSymbol)
    requires WellFormed(t) && OwnerKnown(t, owner)
    requires !RuleApplies(t, owner)
    ensures forall invocations :: Verdict(t, owner, invocations) == None
  {
  }

  /**
    A diagnostic is produced exactly when the rule applies, no invocation
    targets the immediate overridden method and a method declaration is found;
    it is then the one diagnostic of rule IH0001 at the declaration's identifier.
   */
  lemma VerdictReportsExactlyViolations(t: MethodTable, owner: OwningSymbol, invocations: seq<MethodId>)
    requires WellFormed(t) && OwnerKnown(t, owner)
    ensures Verdict(t, owner, invocations).Some? <==>
      RuleApplies(t, owner) &&
      t[owner.id].overriddenMethod.value !in invocations &&
      DeclaredAsMethod(t[owner.id])
    ensures Verdict(t, owner, invocations).Some? ==>
      Verdict(t, owner, invocations).value ==
        Diagnostic(Rule, t[owner.id].declaringSyntaxReferences[0].identifier, [t[owner.id].name])
  {
  }

  /** The verdict depends on which methods the block invokes, not on the order of the calls. */
  lemma VerdictIgnoresOrder(t: MethodTable, owner: OwningSymbol, a: seq<MethodId>, b: seq<MethodId>)
    requires WellFormed(t) && OwnerKnown(t, owner)
    requires multiset(a) == multiset(b)
    ensures Verdict(t, owner, a) == Verdict(t, owner, b)
  {
    if RuleApplies(t, owner) {
      var base := t[owner.id].overriddenMethod.value;
      assert base in a <==> base in multiset(a);
      assert base in b <==> base in multiset(b);
    }
  }

  /**
    The rule reaches every level of an annotated chain: an eligible method
    that overrides `m` is subject to the rule exactly when `m`'s chain root
    carries the attribute, and is then judged against `m` alone.
   */
  lemma RuleCoversEveryOverrideLevel(t: MethodTable, n: MethodId, m: MethodId)
    requires WellFormed(t) && n in t
    requires Eligible(t[n]) && t[n].overriddenMethod == Some(m)
    ensures m in t
    ensures RuleApplies(t, MethodOwner(n)) <==> RootHasAttribute(t, m, MustCallBaseAttributeName)
    ensures RuleApplies(t, MethodOwner(n)) ==>
      forall invocations :: Verdict(t, MethodOwner(n), invocations).Some? <==>
        m !in invocations && DeclaredAsMethod(t[n])
  {
  }
}
