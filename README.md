# MustCallBase analyzer: a Dafny model

This project models the "must call base" rule of the `MySemanticAnalyzer` Roslyn analyzer. The rule
starts from a method that overrides nothing, the root of an override chain. If that root is marked
`[MustCallBase]`, every ordinary override further down its chain must call the method it directly
overrides. An override that never makes that call gets a warning `IH0001`, "Override method must
call base method", placed at the identifier of its declaration. Only the root's attributes are read.
The attribute has no effect when it sits on an override that has an overridden method. An override
whose overridden method is null also ends the walk, so its own attribute is read.

The model has one module per component:

- `Symbols`: the symbol model the rule reads. A method table maps a `MethodId` to a `MethodSymbol`
  record: name, kind, `IsOverride`, `OverriddenMethod`, attributes and declaring syntax references.
  A well-formed table is closed (every overridden method is in the table) and acyclic (some rank
  decreases along the override chain). The rank is what makes the chain walk terminate.
- `OverrideChain`: the local functions `hasAttributes` (the `HasAttributes` loop) and
  `baseMethodHasAttribute` (the `BaseMethodHasAttribute` loop). Both are proved against the
  specification functions `AttributeNamed`, `Chain` and `ChainRoot`.
- `CallTracker`: the `calledBase` flag. `Track` is the flag as a fold over invocation events. The
  class `RuleContext` holds the flag, and its methods are the invocation callback and the
  block-end callback.
- `Diagnostics`: the `Rule` descriptor, `SupportedDiagnostics` (the list holding only `Rule`) and the
  diagnostic emitter `Report`.
- `MustCallBase`: `AnalyzeOperation` for one operation block, proved equal to the reference
  verdict `Verdict`. `Verdict` is defined directly by "the immediate overridden method is among the
  invocation targets", independently of the flag.
- `SampleHierarchy`: the demo project's `Examples` / `Child` / `SubChild` hierarchy as concrete data.

The host's callbacks become explicit inputs. `AnalyzeOperation` receives the owning symbol and the
block's invocation targets, in the order the host delivers them. The block-end callback runs after
the last target. The method table is a value, so nothing in the analysis can change a method record.
The only state that changes is the `RuleContext` of the block being analyzed.

## Notes on the code

- The chain walk has no step bound, so it would loop forever on a cyclic chain. The model
  requires an acyclic table. Roslyn never supplies a cyclic override chain.
- The code compares the attribute's class name with `"MustCallBaseAttribute"` exactly. C# resolves
  `[MustCallBase]` to a class named either `MustCallBase` or `MustCallBaseAttribute`. The rule
  recognizes the attribute only when its class is declared as `MustCallBaseAttribute`. That
  declaration is not part of this model. `SampleHierarchy.MustCallBaseAttribute` assumes that name.
- The invocation callback compares every invocation, and it may set the flag more than once.

## Model

| member | source | states |
|---|---|---|
| OverrideChain.HasAttributes | UtilAnalyzer/MySemanticAnalyzer.cs:92-101 | returns true exactly when some attribute has a non-null class whose name equals the given name exactly |
| OverrideChain.NullClassesNeverMatch | UtilAnalyzer/MySemanticAnalyzer.cs:96 | removing the entries with a null class never changes whether a name matches |
| OverrideChain.Chain | UtilAnalyzer/MySemanticAnalyzer.cs:53-58 | the override chain starts at the method, stays inside the table, moves one override step at a time and ends at a method that is not an override or has no overridden method |
| OverrideChain.ChainRootIsReachedRoot | UtilAnalyzer/MySemanticAnalyzer.cs:55-58 | (a corollary of `Chain`) the root is in the table, stops the walk, and is reached from the start method through override steps |
| OverrideChain.ChainRootOfRoot | UtilAnalyzer/MySemanticAnalyzer.cs:55 | a method at which the walk stops is its own root |
| OverrideChain.ChainRootOfStep | UtilAnalyzer/MySemanticAnalyzer.cs:57 | following one override step does not change the root, so all levels of a chain share it |
| OverrideChain.BaseMethodHasAttribute | UtilAnalyzer/MySemanticAnalyzer.cs:51-61 | the walk terminates and returns true exactly when the chain root carries an attribute of the given name |
| CallTracker.TrackAppend | UtilAnalyzer/MySemanticAnalyzer.cs:72-79 | delivering the invocation events in two batches gives the same flag as delivering them in one |
| CallTracker.Track | UtilAnalyzer/MySemanticAnalyzer.cs:70-79 | the flag after a sequence of invocation events: once set, no later event clears it, and a first event that targets the immediate overridden method leaves it set |
| CallTracker.TrackMeansCalled | UtilAnalyzer/MySemanticAnalyzer.cs:70-79 | the final flag is true exactly when it started true or some event targets the immediate overridden method |
| CallTracker.TrackIgnoresOrder | UtilAnalyzer/MySemanticAnalyzer.cs:72-79 | any reordering of the invocation events gives the same final flag |
| CallTracker.RuleContext.constructor | UtilAnalyzer/MySemanticAnalyzer.cs:70 | a new context for an overriding method has the flag false and has seen no event |
| CallTracker.RuleContext.OnInvocation | UtilAnalyzer/MySemanticAnalyzer.cs:72-79 | an invocation sets the flag exactly when its target equals the immediate overridden method; the flag keeps meaning "some event so far targeted it" |
| CallTracker.RuleContext.OnBlockEnd | UtilAnalyzer/MySemanticAnalyzer.cs:81-90 | no diagnostic if some observed invocation targeted the immediate overridden method; otherwise what the emitter produces |
| Diagnostics.Report | UtilAnalyzer/MySemanticAnalyzer.cs:85-87 | produces a diagnostic exactly when the first declaring syntax is a method declaration; it uses `Rule`, sits at the declaration's identifier and has the method name as its argument |
| Diagnostics.ReportUsesRule | UtilAnalyzer/MySemanticAnalyzer.cs:16-22 | every emitted diagnostic has id IH0001, the fixed title and message, category Usage, severity Warning, and is enabled by default |
| MustCallBase.EligibleChainStepsToOverridden | UtilAnalyzer/MySemanticAnalyzer.cs:55-65 | the chain of an ordinary override with an overridden method goes on to that overridden method, and both share one root |
| MustCallBase.RuleApplies | UtilAnalyzer/MySemanticAnalyzer.cs:63-67 | the rule applies exactly when the owner is an eligible method and the chain root of its overridden method carries `MustCallBaseAttribute` |
| MustCallBase.Verdict | UtilAnalyzer/MySemanticAnalyzer.cs:63-90 | a diagnostic appears only when the rule applies and the immediate overridden method is not among the invocations; it is then the emitter's diagnostic with descriptor `Rule` |
| MustCallBase.AnalyzeOperation | UtilAnalyzer/MySemanticAnalyzer.cs:39-102 | the gate, the invocation callbacks and the block-end callback together yield exactly the reference verdict |
| MustCallBase.NotApplicableNeverReports | UtilAnalyzer/MySemanticAnalyzer.cs:41-44 | when the owner is not a method, or the method is not ordinary, not an override, has no overridden method, or its chain root lacks the attribute, no body produces a diagnostic |
| MustCallBase.VerdictReportsExactlyViolations | UtilAnalyzer/MySemanticAnalyzer.cs:63-90 | a diagnostic is produced if and only if the rule applies, no invocation targets the immediate overridden method and a method declaration is found; it is then the single IH0001 diagnostic at the identifier |
| MustCallBase.VerdictIgnoresOrder | UtilAnalyzer/MySemanticAnalyzer.cs:72-90 | reordering the invocations of a block does not change its verdict |
| MustCallBase.RuleCoversEveryOverrideLevel | UtilAnalyzer/MySemanticAnalyzer.cs:63-74 | an ordinary override of `m` is subject to the rule exactly when `m`'s chain root is annotated; it is then judged only on whether it calls `m` |
| SampleHierarchy.SampleTableWellFormed | UtilAnalyzer.Sample/Examples.cs:10-49 | the sample hierarchy is a closed, acyclic method table |
| SampleHierarchy.SampleOverridesAreChecked | UtilAnalyzer.Sample/Examples.cs:23-48 | both overrides of `SampleMethod` resolve to the annotated `Examples.SampleMethod` and are checked; the root and `Hello` are not |
| SampleHierarchy.SubChildIsJudgedAgainstChild | UtilAnalyzer.Sample/Examples.cs:43-48 | `SubChild` calling `Child.SampleMethod` passes; calling only `Examples.SampleMethod`, or nothing, gives one diagnostic at `SubChild`'s identifier |
| SampleHierarchy.AnnotationOnOverrideWithoutBaseIsRead | UtilAnalyzer/MySemanticAnalyzer.cs:55-60 | an override whose overridden method is null ends the walk and its own attribute is read, so its override `SubChild` is checked against it |
| SampleHierarchy.AnnotationOnAnOverrideIsIgnored | UtilAnalyzer/MySemanticAnalyzer.cs:51-61 | with the attribute moved from the root to `Child`'s override, `SubChild` is not checked, and an empty body of `SubChild` reports nothing |

## Left out

- Analyzer registration (`Initialize`, `ConfigureGeneratedCodeAnalysis`, `RegisterOperationBlockStartAction`, `RegisterOperationAction`, `RegisterOperationBlockEndAction`): host plumbing. It is replaced by passing the invocation targets and then running the block-end step.
- Concurrent execution (`EnableConcurrentExecution`): every block has its own `RuleContext`, so the model analyzes one block at a time.
- `SymbolEqualityComparer.Default`: modelled as equality of `MethodId`. The model does not distinguish a generic method's original definition from its constructed forms.
- `GetAttributes()`, `DeclaringSyntaxReferences`, `GetSyntax()` and the cast to `IInvocationOperation`: foreign Roslyn calls. They are modelled as the stored attribute list, the stored syntax list and invocation targets given as ids.
- `Diagnostic.Create` and `ReportDiagnostic`: the diagnostic is returned as an optional record. The message format has no placeholder, so the method-name argument is stored but never formatted.
- Source locations are simplified to path, line and column instead of Roslyn spans.
- Cyclic override chains are excluded by the well-formedness requirement, because the code's walk would not terminate on one.
- `Examples.ToStars` in the demo project refers to `Spaceship`, a type that is not part of this model. It is not an override, so the rule never applies to it.
- `MyCompanyClass` in the demo project is an empty nested class with no method, so the rule has nothing to check in it.
