/**
  The part of the host's symbol model that the must-call-base rule reads.
  A Roslyn `IMethodSymbol` becomes a `MethodSymbol` record, object identity
  becomes a `MethodId`, and the compilation becomes a table from ids to records.
  The table is a value: nothing in the analyzer can change it.
 */
module Symbols {
  import opened Wrappers

  type MethodId = nat

  /** Roslyn's `MethodKind`, reduced to the kinds that matter to the rule. */
  datatype MethodKind =
    | Ordinary
    | Constructor
    | Destructor
    | PropertyGet
    | PropertySet
    | LocalFunction
    | OtherKind

  /** The class of an attribute: only its simple `Name` is ever compared. */
  datatype NamedType = NamedType(name: string)

  /** One entry of `GetAttributes()`; its class may be null (an unresolved attribute). */
  datatype AttributeData = AttributeData(attributeClass: Option<NamedType>)

  /** Where a token sits in a source file: path, 1-based line and column. */
  datatype Location = Location(path: string, line: nat, column: nat)

  /**
    The syntax a declaring syntax reference resolves to: a method declaration,
    with the location of its identifier token, or anything else.
   */
  datatype SyntaxNode =
    | MethodDeclaration(identifier: Location)
    | OtherSyntax

  datatype MethodSymbol = MethodSymbol(
    name: string,
    kind: MethodKind,
    isOverride: bool,
    overriddenMethod: Option<MethodId>,
    attributes: seq<AttributeData>,
    declaringSyntaxReferences: seq<SyntaxNode>)

  type MethodTable = map<MethodId, MethodSymbol>

  /** The symbol that owns an operation block: a method, or something else (a field initializer, ...). */
  datatype OwningSymbol = MethodOwner(id: MethodId) | OtherOwner

  /** The condition of the chain walk: the walk goes on from `s` to its overridden method. */
  predicate ContinuesChain(s: MethodSymbol)
  {
    s.isOverride && s.overriddenMethod.Some?
  }

  /** One step of the chain walk: `a` is an override whose overridden method is `b`. */
  predicate Overrides(t: MethodTable, a: MethodId, b: MethodId)
  {
    a in t && ContinuesChain(t[a]) && t[a].overriddenMethod.value == b
  }

  /** Every overridden-method reference names a method of the table. */
  ghost predicate Closed(t: MethodTable)
  {
    forall m :: m in t && t[m].overriddenMethod.Some? ==> t[m].overriddenMethod.value in t
  }

  /** `rank` strictly decreases along every step of the chain walk. */
  ghost predicate Ranked(t: MethodTable, rank: map<MethodId, nat>)
  {
    forall m :: m in t ==>
      m in rank &&
      (ContinuesChain(t[m]) ==>
         t[m].overriddenMethod.value in rank && rank[t[m].overriddenMethod.value] < rank[m])
  }

  /** The override relation has no cycle: some rank decreases along it. */
  ghost predicate Acyclic(t: MethodTable)
  {
    exists rank :: Ranked(t, rank)
  }

  /** What a well-formed compilation guarantees of its symbols. */
  ghost predicate WellFormed(t: MethodTable)
  {
    Closed(t) && Acyclic(t)
  }

  /** A rank that witnesses acyclicity, fixed once per table. */
  ghost function Rank(t: MethodTable): (rank: map<MethodId, nat>)
    requires Acyclic(t)
    ensures Ranked(t, rank)
  {
    var rank :| Ranked(t, rank); rank
  }
}
