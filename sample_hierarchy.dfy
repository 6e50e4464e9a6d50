/**
  The sample hierarchy of the analyzer's demo project: `Examples.SampleMethod`
  carries `[MustCallBase]`, `Child` overrides it and `SubChild` overrides
  `Child`'s override; each override calls `base.SampleMethod()`.
 */
module SampleHierarchy {
  import opened Wrappers
  import opened Symbols
  import opened OverrideChain
  import opened Diagnostics
  import opened MustCallBase

  const ExamplesSampleMethod: MethodId := 0
  const ChildSampleMethod: MethodId := 1
  const SubChildSampleMethod: MethodId := 2
  const ExamplesHello: MethodId := 3

  const SamplePath: string := "UtilAnalyzer.Sample/Examples.cs"

  const MustCallBaseAttribute: AttributeData :=
    AttributeData(Some(NamedType("MustCallBaseAttribute")))

  function SampleTable(): (t: MethodTable)
    ensures t.Keys == {ExamplesSampleMethod, ChildSampleMethod, SubChildSampleMethod, ExamplesHello}
  {
    map[
      ExamplesSampleMethod :=
        MethodSymbol("SampleMethod", Ordinary, false, None, [MustCallBaseAttribute],
                     [MethodDeclaration(Location(SamplePath, 24, 29))]),
      ChildSampleMethod :=
        MethodSymbol("SampleMethod", Ordinary, true, Some(ExamplesSampleMethod), [],
                     [MethodDeclaration(Location(SamplePath, 35, 30))]),
      SubChildSampleMethod :=
        MethodSymbol("SampleMethod", Ordinary, true, Some(ChildSampleMethod), [],
                     [MethodDeclaration(Location(SamplePath, 45, 30))]),
      ExamplesHello :=
        MethodSymbol("Hello", Ordinary, false, None, [],
                     [MethodDeclaration(Location(SamplePath, 27, 21))])
    ]
  }

  lemma SampleTableWellFormed()
    ensures WellFormed(SampleTable())
  {
    var t := SampleTable();
    assert Ranked(t, map[ExamplesSampleMethod := 0, ChildSampleMethod := 1, SubChildSampleMethod := 2, ExamplesHello := 0]);
  }

  /** Both overrides resolve to the annotated `Examples.SampleMethod` and are subject to the rule. */
  lemma SampleOverridesAreChecked()
    ensures WellFormed(SampleTable())
    ensures ChainRoot(SampleTable(), SubChildSampleMethod) == ExamplesSampleMethod
    ensures RuleApplies(SampleTable(), MethodOwner(ChildSampleMethod))
    ensures RuleApplies(SampleTable(), MethodOwner(SubChildSampleMethod))
    ensures !RuleApplies(SampleTable(), MethodOwner(ExamplesSampleMethod))
    ensures !RuleApplies(SampleTable(), MethodOwner(ExamplesHello))
  {
    SampleTableWellFormed();
    var t := SampleTable();
    assert AttributeNamed(t[ExamplesSampleMethod].attributes, MustCallBaseAttributeName) by {
      assert t[ExamplesSampleMethod].attributes[0] == MustCallBaseAttribute;
    }
    ChainRootOfRoot(t, ExamplesSampleMethod);
    ChainRootOfStep(t, ChildSampleMethod);
    ChainRootOfStep(t, SubChildSampleMethod);
  }

  /**
    `SubChild` calling `Child.SampleMethod` satisfies the rule although it never
    calls `Examples.SampleMethod` itself; calling only the chain root, or
    nothing, is a violation reported at `SubChild`'s identifier, whatever
    `Child` does.
   */
  lemma SubChildIsJudgedAgainstChild()
    ensures WellFormed(SampleTable())
    ensures Verdict(SampleTable(), MethodOwner(ChildSampleMethod), [ExamplesSampleMethod]) == None
    ensures Verdict(SampleTable(), MethodOwner(SubChildSampleMethod), [ChildSampleMethod]) == None
    ensures Verdict(SampleTable(), MethodOwner(SubChildSampleMethod), [ExamplesSampleMethod]) ==
      Some(Diagnostic(Rule, Location(SamplePath, 45, 30), ["SampleMethod"]))
    ensures Verdict(SampleTable(), MethodOwner(SubChildSampleMethod), []) ==
      Some(Diagnostic(Rule, Location(SamplePath, 45, 30), ["SampleMethod"]))
  {
    SampleOverridesAreChecked();
  }

  /**
    A variant of the hierarchy in which the attribute sits on `Child`'s
    override instead of on `Examples.SampleMethod`.
   */
  function AnnotatedOverrideTable(): (t: MethodTable)
    ensures t.Keys == SampleTable().Keys
  {
    var t := SampleTable();
    t[ExamplesSampleMethod := t[ExamplesSampleMethod].(attributes := [])]
     [ChildSampleMethod := t[ChildSampleMethod].(attributes := [MustCallBaseAttribute])]
  }

  /**
    Only the chain root's attributes are read: with the attribute on
    `Child`'s override, `SubChild` is not checked and an empty body of `SubChild` reports nothing.
   */
  lemma AnnotationOnAnOverrideIsIgnored()
    ensures WellFormed(AnnotatedOverrideTable())
    ensures !RuleApplies(AnnotatedOverrideTable(), MethodOwner(SubChildSampleMethod))
    ensures Verdict(AnnotatedOverrideTable(), MethodOwner(SubChildSampleMethod), []) == None
  {
    var t := AnnotatedOverrideTable();
    assert Ranked(t, map[ExamplesSampleMethod := 0, ChildSampleMethod := 1, SubChildSampleMethod := 2, ExamplesHello := 0]);
    ChainRootOfRoot(t, ExamplesSampleMethod);
    ChainRootOfStep(t, ChildSampleMethod);
    ChainRootOfStep(t, SubChildSampleMethod);
    assert t[ExamplesSampleMethod].attributes == [];
  }

  /**
    A variant in which `Child`'s override has nothing to override (a null
    overridden method) and carries the attribute itself, while `Examples` is gone.
   */
  function UnresolvedOverrideTable(): (t: MethodTable)
    ensures t.Keys == {ChildSampleMethod, SubChildSampleMethod}
  {
    var t := SampleTable();
    map[
      ChildSampleMethod := t[ChildSampleMethod].(overriddenMethod := None, attributes := [MustCallBaseAttribute]),
      SubChildSampleMethod := t[SubChildSampleMethod]
    ]
  }

  /**
    The walk also stops at an override whose overridden method is null, and
    that method's attributes are read: `SubChild` is checked against `Child`.
   */
  lemma AnnotationOnOverrideWithoutBaseIsRead()
    ensures WellFormed(UnresolvedOverrideTable())
    ensures ChainRoot(UnresolvedOverrideTable(), SubChildSampleMethod) == ChildSampleMethod
    ensures RuleApplies(UnresolvedOverrideTable(), MethodOwner(SubChildSampleMethod))
    ensures Verdict(UnresolvedOverrideTable(), MethodOwner(SubChildSampleMethod), []) ==
      Some(Diagnostic(Rule, Location(SamplePath, 45, 30), ["SampleMethod"]))
  {
    var t := UnresolvedOverrideTable();
    assert Ranked(t, map[ChildSampleMethod := 0, SubChildSampleMethod := 1]);
    ChainRootOfRoot(t, ChildSampleMethod);
    ChainRootOfStep(t, SubChildSampleMethod);
    assert t[ChildSampleMethod].attributes[0] == MustCallBaseAttribute;
  }
}
