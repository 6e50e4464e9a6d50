/** The rule descriptor and the diagnostic emitter. */
module Diagnostics {
  import opened Wrappers
  import opened Symbols

  datatype DiagnosticSeverity = Hidden | Info | Warning | Error

  datatype DiagnosticDescriptor = DiagnosticDescriptor(
    id: string,
    title: string,
    messageFormat: string,
    category: string,
    defaultSeverity: DiagnosticSeverity,
    isEnabledByDefault: bool)

  /** The one rule the analyzer reports. */
  const Rule: DiagnosticDescriptor := DiagnosticDescriptor(
    "IH0001",
    "Override method must call base method",
    "Override method must call base method",
    "Usage",
    Warning,
    true)

  const SupportedDiagnostics: seq<DiagnosticDescriptor> := [Rule]

  datatype Diagnostic = Diagnostic(descriptor: DiagnosticDescriptor, location: Location, messageArgs: seq<string>)

  /**
    The first declaring syntax reference exists (`FirstOrDefault()` is not
    null) and resolves to a method declaration.
   */
  predicate DeclaredAsMethod(s: MethodSymbol)
  {
    |s.declaringSyntaxReferences| > 0 && s.declaringSyntaxReferences[0].MethodDeclaration?
  }

  /**
    The diagnostic for a method that did not call its base: at the identifier
    of its declaration, and none at all when no method declaration is found.
   */
  function Report(s: MethodSymbol): (d: Option<Diagnostic>)
    ensures d.Some? <==> DeclaredAsMethod(s)
    ensures d.Some? ==>
      d.value.descriptor == Rule &&
      d.value.location == s.declaringSyntaxReferences[0].identifier &&
      d.value.messageArgs == [s.name]
  {
    if |s.declaringSyntaxReferences| == 0 then None
    else match s.declaringSyntaxReferences[0]
      case MethodDeclaration(identifier) => Some(Diagnostic(Rule, identifier, [s.name]))
      case OtherSyntax => None
  }

  /** Every diagnostic the emitter produces carries the fixed descriptor of rule IH0001. */
  lemma ReportUsesRule(s: MethodSymbol)
    ensures Report(s).Some? ==>
      var r := Report(s).value.descriptor;
      r.id == "IH0001" && r.title == "Override method must call base method" &&
      r.messageFormat == "Override method must call base method" &&
      r.category == "Usage" && r.defaultSeverity == Warning && r.isEnabledByDefault
  {
  }
}
