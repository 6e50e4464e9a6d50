/**
  The override-chain resolver: the local functions `baseMethodHasAttribute`
  and `hasAttributes` of `AnalyzeOperation`.
 */
module OverrideChain {
  import opened Wrappers
  import opened Symbols

  /** Some entry has a non-null class whose simple name is exactly `name`. */
  predicate AttributeNamed(attrs: seq<AttributeData>, name: string)
  {
    exists i :: 0 <= i < |attrs| && attrs[i].attributeClass.Some? && attrs[i].attributeClass.value.name == name
  }

  /** The entries whose class is not null, in their order. */
  function WithClass(attrs: seq<AttributeData>): (r: seq<AttributeData>)
    ensures |r| <= |attrs|
    ensures forall a :: a in r ==> a in attrs && a.attributeClass.Some?
  {
    if attrs == [] then []
    else if attrs[0].attributeClass.None? then WithClass(attrs[1..])
    else [attrs[0]] + WithClass(attrs[1..])
  }

  /** Entries with a null class never make a match: dropping them changes nothing. */
  lemma {:induction false} NullClassesNeverMatch(attrs: seq<AttributeData>, name: string)
    ensures AttributeNamed(attrs, name) <==> AttributeNamed(WithClass(attrs), name)
  {
    if attrs != [] {
      NullClassesNeverMatch(attrs[1..], name);
      var rest := WithClass(attrs[1..]);
      if AttributeNamed(attrs, name) {
        var i :| 0 <= i < |attrs| && attrs[i].attributeClass.Some? && attrs[i].attributeClass.value.name == name;
        if i > 0 {
          assert attrs[1..][i - 1] == attrs[i];
          if attrs[0].attributeClass.Some? {
            var j :| 0 <= j < |rest| && rest[j].attributeClass.Some? && rest[j].attributeClass.value.name == name;
            assert ([attrs[0]] + rest)[j + 1] == rest[j];
          }
        } else {
          assert WithClass(attrs)[0] == attrs[0];
        }
      }
      if AttributeNamed(WithClass(attrs), name) {
        var w := WithClass(attrs);
        var j :| 0 <= j < |w| && w[j].attributeClass.Some? && w[j].attributeClass.value.name == name;
        if attrs[0].attributeClass.None? || j > 0 {
          var k := if attrs[0].attributeClass.None? then j else j - 1;
          assert rest[k] == w[j];
          var i :| 0 <= i < |attrs[1..]| && attrs[1..][i].attributeClass.Some? && attrs[1..][i].attributeClass.value.name == name;
          assert attrs[i + 1] == attrs[1..][i];
        } else {
          assert w[0] == attrs[0];
        }
      }
    }
  }

  /**
    `hasAttributes`: a scan that skips entries with a null class and stops at
    the first exact match of the class name.
   */
  method HasAttributes(attributeData: seq<AttributeData>, name: string) returns (found: bool)
    ensures found <==> AttributeNamed(attributeData, name)
  {
    for i := 0 to |attributeData|
      invariant forall j :: 0 <= j < i ==>
        attributeData[j].attributeClass.None? || attributeData[j].attributeClass.value.name != name
    {
      var attr := attributeData[i];
      if attr.attributeClass.None? {
        continue;
      }
      if attr.attributeClass.value.name == name {
        return true;
      }
    }
    return false;
  }

  /**
    The override chain of `m`: `m`, the method it overrides, and so on, up to
    the first method that is not an override or has no overridden method.
   */
  ghost function Chain(t: MethodTable, m: MethodId): (c: seq<MethodId>)
    requires WellFormed(t) && m in t
    ensures |c| >= 1 && c[0] == m
    ensures forall i :: 0 <= i < |c| ==> c[i] in t
    ensures forall i :: 0 <= i < |c| - 1 ==> Overrides(t, c[i], c[i + 1])
    ensures !ContinuesChain(t[c[|c| - 1]])
    decreases Rank(t)[m]
  {
    if ContinuesChain(t[m]) then [m] + Chain(t, t[m].overriddenMethod.value) else [m]
  }

  /** The root the chain walk stops at. */
  ghost function ChainRoot(t: MethodTable, m: MethodId): (root: MethodId)
    requires WellFormed(t) && m in t
  {
    var c := Chain(t, m); c[|c| - 1]
  }

  /**
    The root is a method of the table at which the walk stops, reached from `m`
    by override steps: a corollary of the contract of `Chain`, stated for `ChainRoot`.
   */
  lemma ChainRootIsReachedRoot(t: MethodTable, m: MethodId)
    requires WellFormed(t) && m in t
    ensures ChainRoot(t, m) in t && !ContinuesChain(t[ChainRoot(t, m)])
    ensures var c := Chain(t, m);
      c[0] == m && c[|c| - 1] == ChainRoot(t, m) &&
      forall i :: 0 <= i < |c| - 1 ==> Overrides(t, c[i], c[i + 1])
  {
  }

  /** A method at which the walk stops is its own root. */
  lemma ChainRootOfRoot(t: MethodTable, m: MethodId)
    requires WellFormed(t) && m in t && !ContinuesChain(t[m])
    ensures ChainRoot(t, m) == m
  {
  }

  /** One step of the walk does not change the root: every level of a chain shares it. */
  lemma ChainRootOfStep(t: MethodTable, m: MethodId)
    requires WellFormed(t) && m in t && ContinuesChain(t[m])
    ensures t[m].overriddenMethod.value in t
    ensures ChainRoot(t, m) == ChainRoot(t, t[m].overriddenMethod.value)
  {
  }

  /** The root of the chain walk carries an attribute whose class is named `name`. */
  ghost predicate RootHasAttribute(t: MethodTable, m: MethodId, name: string)
    requires WellFormed(t) && m in t
  {
    AttributeNamed(t[ChainRoot(t, m)].attributes, name)
  }

  /**
    `baseMethodHasAttribute`: follow `OverriddenMethod` while the current method
    is an override with a non-null overridden method, then look up `name` on
    the method reached.
   */
  method BaseMethodHasAttribute(t: MethodTable, methodSymbol: MethodId, name: string) returns (r: bool)
    requires WellFormed(t) && methodSymbol in t
    ensures r <==> RootHasAttribute(t, methodSymbol, name)
  {
    ghost var rank := Rank(t);
    var methodRef := methodSymbol;
    while t[methodRef].isOverride && t[methodRef].overriddenMethod.Some?
      invariant methodRef in t
      invariant ChainRoot(t, methodRef) == ChainRoot(t, methodSymbol)
      decreases rank[methodRef]
    {
      ChainRootOfStep(t, methodRef);
      methodRef := t[methodRef].overriddenMethod.value;
    }
    ChainRootOfRoot(t, methodRef);
    r := HasAttributes(t[methodRef].attributes, name);
  }
}
